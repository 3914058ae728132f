/** Incremental synchronisation with the panel's list equals a rebuild from that list. */
module Sync {
  import opened Api
  import opened UserKey
  import opened Limiter
  import opened UserDiff
  import Lifecycle
  import Controller

  /******* The limiter's user map *******/

  lemma {:induction false} UserMapKeys(tag: string, list: seq<UserInfo>, x: string)
    ensures x in UserMap(tag, list) <==> exists u :: u in list && KeyFor(tag, u) == x
  {
    hide KeyFor;
    if list != [] {
      var prefix, last := list[..|list| - 1], list[|list| - 1];
      UserMapKeys(tag, prefix, x);
      assert list == prefix + [last];
    }
  }

  /** If no other entry competes for its key, a user is stored with its own limits. */
  lemma {:induction false} UserMapGet(tag: string, list: seq<UserInfo>, u: UserInfo)
    requires u in list && forall v :: v in list && KeyFor(tag, v) == KeyFor(tag, u) ==> LimitOf(v) == LimitOf(u)
    ensures KeyFor(tag, u) in UserMap(tag, list) && UserMap(tag, list)[KeyFor(tag, u)] == LimitOf(u)
  {
    hide KeyFor, LimitOf;
    var prefix, last := list[..|list| - 1], list[|list| - 1];
    assert list == prefix + [last];
    if KeyFor(tag, last) != KeyFor(tag, u) {
      UserMapGet(tag, prefix, u);
    }
  }

  lemma {:induction false} DeleteAllUsers(s: Inbound, list: seq<UserInfo>, x: string)
    ensures var s' := DeleteAll(s, list);
      && s'.tag == s.tag
      && (x in s'.users <==> x in s.users && forall u :: u in list ==> KeyFor(s.tag, u) != x)
      && (x in s'.users ==> s'.users[x] == s.users[x])
  {
    hide KeyFor;
    if list != [] {
      var prefix, last := list[..|list| - 1], list[|list| - 1];
      DeleteAllUsers(s, prefix, x);
      assert list == prefix + [last];
    }
  }

  lemma {:induction false} UpdateAllUsers(s: Inbound, list: seq<UserInfo>)
    requires HubIds(s)
    ensures UpdateAll(s, list).users == s.users + UserMap(s.tag, list) && UpdateAll(s, list).tag == s.tag
  {
    hide KeyFor, HubIds, UpdateUser, LimitOf;
    if list != [] {
      UpdateAllUsers(s, list[..|list| - 1]);
    }
  }

  lemma KeyUid(tag: string, u: UserInfo, v: UserInfo)
    ensures KeyFor(tag, u) == KeyFor(tag, v) <==> u.email == v.email && u.uid == v.uid
  {
    if KeyFor(tag, u) == KeyFor(tag, v) {
      KeyInjective(tag, u.email, u.uid, v.email, v.uid);
    }
  }

  lemma SameUid(list: seq<UserInfo>, u: UserInfo, v: UserInfo)
    requires Unique(list) && u in list && v in list && u.uid == v.uid
    ensures u == v
  {
    UniqueFind(list, u);
    UniqueFind(list, v);
  }

  ghost function Changes(old_: seq<UserInfo>, new_: seq<UserInfo>): seq<UserInfo> {
    Additions(old_, new_) + Relimits(old_, new_)
  }

  /** What is stored anew is exactly what is on the new list and was not on the old one in just this form. */
  lemma ChangesAre(old_: seq<UserInfo>, new_: seq<UserInfo>, u: UserInfo)
    requires Unique(old_)
    ensures u in Changes(old_, new_) <==> u in new_ && u !in old_
  {
    hide Additions, Relimits;
    AdditionsAre(old_, new_, u);
    RelimitsAre(old_, new_, u);
    if u in old_ {
      UniqueFind(old_, u);
    }
  }

  /** Every user of a list is stored with the limits `inForce` gives it. */
  ghost predicate Covers(m: map<string, UserLimit>, tag: string, list: seq<UserInfo>, inForce: UserInfo -> UserLimit) {
    forall u :: u in list ==> KeyFor(tag, u) in m && m[KeyFor(tag, u)] == inForce(u)
  }

  /** The map holds exactly the keys of a list, each with the limits `inForce` gives its user. */
  ghost predicate Stores(m: map<string, UserLimit>, tag: string, list: seq<UserInfo>, inForce: UserInfo -> UserLimit) {
    m.Keys <= KeysIn(tag, list) && Covers(m, tag, list, inForce)
  }

  ghost function KeysIn(tag: string, list: seq<UserInfo>): set<string> {
    set u | u in list :: KeyFor(tag, u)
  }

  lemma KeyOwner(tag: string, list: seq<UserInfo>, u: UserInfo, v: UserInfo)
    requires Unique(list) && u in list && v in list && KeyFor(tag, u) == KeyFor(tag, v)
    ensures u == v
  {
    KeyUid(tag, u, v);
    SameUid(list, u, v);
  }

  /** For a list with unique UIDs the map built from scratch is the one that stores each user's own limits. */
  lemma StoresBuilt(m: map<string, UserLimit>, tag: string, list: seq<UserInfo>)
    requires Unique(list)
    ensures Stores(m, tag, list, LimitOf) <==> m == UserMap(tag, list)
  {
    hide KeyFor, LimitOf, Unique;
    forall u | u in list
      ensures KeyFor(tag, u) in UserMap(tag, list) && UserMap(tag, list)[KeyFor(tag, u)] == LimitOf(u)
    {
      forall v | v in list && KeyFor(tag, v) == KeyFor(tag, u) ensures v == u {
        KeyOwner(tag, list, v, u);
      }
      UserMapGet(tag, list, u);
    }
    forall x ensures x in UserMap(tag, list) <==> exists u :: u in list && KeyFor(tag, u) == x {
      UserMapKeys(tag, list, x);
    }
  }

  /** What is in force after a synchronisation: the limits of a record that is new, and otherwise what was before. */
  ghost function Synced(old_: seq<UserInfo>, inForce: UserInfo -> UserLimit): UserInfo -> UserLimit {
    (u: UserInfo) => if u in old_ then inForce(u) else LimitOf(u)
  }

  /** A user of the new list ends up with its own limits, or untouched. */
  lemma NewUserStored(tag: string, old_: seq<UserInfo>, new_: seq<UserInfo>, u: UserInfo,
                      kept: map<string, UserLimit>, inForce: UserInfo -> UserLimit)
    requires Unique(old_) && Unique(new_) && u in new_
    requires forall o :: o in old_ && o !in Deleted(old_, new_) ==>
      KeyFor(tag, o) in kept && kept[KeyFor(tag, o)] == inForce(o)
    ensures var m := kept + UserMap(tag, Changes(old_, new_));
      KeyFor(tag, u) in m && m[KeyFor(tag, u)] == Synced(old_, inForce)(u)
  {
    hide KeyFor, Deleted, Changes, Unique, LimitOf;
    var changes := Changes(old_, new_);
    forall v | v in changes && KeyFor(tag, v) == KeyFor(tag, u) ensures v == u {
      ChangesAre(old_, new_, v);
      KeyOwner(tag, new_, u, v);
    }
    ChangesAre(old_, new_, u);
    if u in changes {
      UserMapGet(tag, changes, u);
    } else {
      UserMapKeys(tag, changes, KeyFor(tag, u));
      SurvivesIff(old_, new_, u);
      assert u == u.(speedLimit := u.speedLimit, deviceLimit := u.deviceLimit);
    }
  }

  lemma SameRuntimeKey(tag: string, o: UserInfo, u: UserInfo)
    requires u == o.(speedLimit := u.speedLimit, deviceLimit := u.deviceLimit)
    ensures KeyFor(tag, o) == KeyFor(tag, u)
  {
  }

  /** The user map after the removed users were deleted and the added and re-limited ones stored. */
  ghost function AfterSync(users: map<string, UserLimit>, tag: string, old_: seq<UserInfo>, new_: seq<UserInfo>):
    map<string, UserLimit>
  {
    users - KeysIn(tag, Deleted(old_, new_)) + UserMap(tag, Changes(old_, new_))
  }

  /** An old user's entry is deleted only with the user. */
  lemma SurvivorKept(tag: string, old_: seq<UserInfo>, new_: seq<UserInfo>, o: UserInfo)
    requires Unique(old_) && o in old_ && o !in Deleted(old_, new_)
    ensures KeyFor(tag, o) !in KeysIn(tag, Deleted(old_, new_))
  {
    hide KeyFor, Deleted, Unique;
    forall v | v in Deleted(old_, new_) ensures KeyFor(tag, v) != KeyFor(tag, o) {
      DeletedAreOld(old_, new_, v);
      if KeyFor(tag, v) == KeyFor(tag, o) {
        KeyOwner(tag, old_, v, o);
      }
    }
  }

  /**
   Whatever limits are in force for the users of the old list, the incremental update leaves the users of the new list
   with their own limits if they changed and otherwise with those in force.
   */
  lemma IncrementalCovers(users: map<string, UserLimit>, tag: string, old_: seq<UserInfo>, new_: seq<UserInfo>,
                          inForce: UserInfo -> UserLimit)
    requires Unique(old_) && Unique(new_) && Covers(users, tag, old_, inForce)
    ensures Covers(AfterSync(users, tag, old_, new_), tag, new_, Synced(old_, inForce))
  {
    hide KeyFor, Deleted, Changes, Unique, LimitOf, Synced;
    var kept := users - KeysIn(tag, Deleted(old_, new_));
    forall o | o in old_ && o !in Deleted(old_, new_)
      ensures KeyFor(tag, o) in kept && kept[KeyFor(tag, o)] == inForce(o)
    {
      SurvivorKept(tag, old_, new_, o);
    }
    forall u | u in new_
      ensures var m := AfterSync(users, tag, old_, new_);
        KeyFor(tag, u) in m && m[KeyFor(tag, u)] == Synced(old_, inForce)(u)
    {
      NewUserStored(tag, old_, new_, u, kept, inForce);
    }
  }

  /** A surviving user's key belongs to the new list. */
  lemma SurvivorListed(tag: string, old_: seq<UserInfo>, new_: seq<UserInfo>, o: UserInfo)
    requires Unique(old_) && Unique(new_) && o in old_ && o !in Deleted(old_, new_)
    ensures KeyFor(tag, o) in KeysIn(tag, new_)
  {
    hide KeyFor, Deleted, Unique;
    SurvivesIff(old_, new_, o);
    var u :| u in new_ && u == o.(speedLimit := u.speedLimit, deviceLimit := u.deviceLimit);
    SameRuntimeKey(tag, o, u);
  }

  /** The keys afterwards are those of the new list, and any that were stored without being on the old one. */
  lemma IncrementalKeys(users: map<string, UserLimit>, tag: string, old_: seq<UserInfo>, new_: seq<UserInfo>)
    requires Unique(old_) && Unique(new_) && KeysIn(tag, old_) <= users.Keys
    ensures AfterSync(users, tag, old_, new_).Keys == KeysIn(tag, new_) + (users.Keys - KeysIn(tag, old_))
  {
    hide KeyFor, Deleted, Changes, Unique, Synced;
    var m := AfterSync(users, tag, old_, new_);
    var stored := (u: UserInfo) => if KeyFor(tag, u) in users then users[KeyFor(tag, u)] else LimitOf(u);
    assert Covers(users, tag, old_, stored) by {
      forall u | u in old_ ensures KeyFor(tag, u) in users {
        assert KeyFor(tag, u) in KeysIn(tag, old_);
      }
    }
    IncrementalCovers(users, tag, old_, new_, stored);
    forall x | x in m ensures x in KeysIn(tag, new_) || x in users.Keys - KeysIn(tag, old_) {
      UserMapKeys(tag, Changes(old_, new_), x);
      if x in UserMap(tag, Changes(old_, new_)) {
        var u :| u in Changes(old_, new_) && KeyFor(tag, u) == x;
        ChangesListed(old_, new_, u);
      } else if x in KeysIn(tag, old_) {
        var o :| o in old_ && KeyFor(tag, o) == x;
        SurvivorListed(tag, old_, new_, o);
      }
    }
    forall x | x in users && x !in KeysIn(tag, old_) ensures x in m {
      forall v | v in Deleted(old_, new_) ensures KeyFor(tag, v) != x {
        DeletedAreOld(old_, new_, v);
        assert KeyFor(tag, v) in KeysIn(tag, old_);
      }
    }
  }

  lemma ChangesListed(old_: seq<UserInfo>, new_: seq<UserInfo>, u: UserInfo)
    requires u in Changes(old_, new_)
    ensures u in new_
  {
    hide Additions, Relimits;
    AdditionsAre(old_, new_, u);
    RelimitsAre(old_, new_, u);
  }

  /** Where only listed users were stored, only listed users are. */
  lemma IncrementalKeeps(users: map<string, UserLimit>, tag: string, old_: seq<UserInfo>, new_: seq<UserInfo>,
                         inForce: UserInfo -> UserLimit)
    requires Unique(old_) && Unique(new_) && Stores(users, tag, old_, inForce)
    ensures Stores(AfterSync(users, tag, old_, new_), tag, new_, Synced(old_, inForce))
  {
    hide KeyFor, AfterSync, Unique, Synced;
    IncrementalCovers(users, tag, old_, new_, inForce);
    CoveredKeys(users, tag, old_, inForce);
    IncrementalKeys(users, tag, old_, new_);
  }

  lemma CoveredKeys(m: map<string, UserLimit>, tag: string, list: seq<UserInfo>, inForce: UserInfo -> UserLimit)
    requires Covers(m, tag, list, inForce)
    ensures KeysIn(tag, list) <= m.Keys
  {
    hide KeyFor;
  }

  /** The limiter's own two operations, one after the other, have that effect on its user map. */
  lemma SyncedMap(s: Inbound, old_: seq<UserInfo>, new_: seq<UserInfo>)
    requires Inv(s)
    ensures var s1 := DeleteAll(s, Deleted(old_, new_));
      && HubIds(s1) && Inv(UpdateAll(s1, Changes(old_, new_)))
      && UpdateAll(s1, Changes(old_, new_)).users == AfterSync(s.users, s.tag, old_, new_)
  {
    hide KeyFor, Deleted, Changes, UsersOk, OnlineOk;
    var gone := Deleted(old_, new_);
    var s1 := DeleteAll(s, gone);
    DeleteAllInv(s, gone);
    DeleteAllUsers(s, gone, "");
    forall x ensures x in s1.users <==> x in s.users && x !in KeysIn(s.tag, gone) {
      DeleteAllUsers(s, gone, x);
    }
    forall x | x in s1.users ensures s1.users[x] == s.users[x] {
      DeleteAllUsers(s, gone, x);
    }
    assert s1.users == s.users - KeysIn(s.tag, gone);
    UpdateAllInv(s1, Changes(old_, new_));
    UpdateAllUsers(s1, Changes(old_, new_));
  }

  /**
   In particular the user map of the old list becomes the one a limiter built from the new list has, including users
   whose key stays and whose credentials change.
   */
  lemma IncrementalEqualsRebuild(tag: string, nodeLimit: uint64, old_: seq<UserInfo>, new_: seq<UserInfo>)
    requires Unique(old_) && Unique(new_)
    ensures AfterSync(Build(tag, nodeLimit, old_).users, tag, old_, new_) == Build(tag, nodeLimit, new_).users
  {
    hide KeyFor, Unique, AfterSync;
    StoresBuilt(UserMap(tag, old_), tag, old_);
    IncrementalKeeps(UserMap(tag, old_), tag, old_, new_, LimitOf);
    var m := AfterSync(UserMap(tag, old_), tag, old_, new_);
    assert Stores(m, tag, new_, LimitOf);
    StoresBuilt(m, tag, new_);
  }

  lemma DeletedAreOld(old_: seq<UserInfo>, new_: seq<UserInfo>, o: UserInfo)
    requires o in Deleted(old_, new_)
    ensures o in old_
  {
    ReplacementsAre(old_, new_, o);
    GoneAre(old_, Uids(new_), o);
  }

  /******* The admission set *******/

  function KeySet(tag: string, list: seq<UserInfo>): set<Lifecycle.Key> {
    set u | u in list :: Controller.KeyOf(tag, u)
  }

  /** The admitted users of one inbound. */
  function AdmittedAt(current: set<Lifecycle.Key>, tag: string): set<Lifecycle.Key> {
    set k | k in current && k.tag == tag
  }

  ghost predicate Quiet(s: Lifecycle.State) {
    !s.monitor.Detaching? && s.toForget == {} && s.toRemember == map[]
  }

  lemma RegisterOneEffect(s: Lifecycle.State, k: Lifecycle.Key)
    requires Lifecycle.Wf(s) && Lifecycle.Owned(k) && !s.monitor.Detaching? && s.toRemember == map[]
    ensures var t := Lifecycle.Apply(s, Lifecycle.Register(k));
      t.current == s.current + {k} && t.monitor == s.monitor && t.toRemember == map[]
  {
    hide Lifecycle.Wf, Lifecycle.Owned;
  }

  lemma RetireOneEffect(s: Lifecycle.State, k: Lifecycle.Key, u: UserInfo)
    requires Lifecycle.Wf(s) && Lifecycle.Owned(k) && !s.monitor.Detaching? && s.toForget == {}
    ensures var t := Lifecycle.Apply(s, Lifecycle.Retire(k, u));
      t.current == s.current - {k} && t.monitor == s.monitor && t.toForget == {}
  {
    hide Lifecycle.Wf, Lifecycle.Owned;
  }

  lemma {:induction false} RetireEffect(s: Lifecycle.State, keys: seq<Lifecycle.Key>, users: seq<UserInfo>, n: nat)
    requires Lifecycle.Wf(s) && Quiet(s) && |keys| == |users| && n <= |keys|
    requires forall i :: 0 <= i < |keys| ==> Lifecycle.Owned(keys[i])
    ensures var t := Lifecycle.Exec(s, Controller.RetireSteps(keys, users)[..n]);
      && t.current == s.current - (set k | k in keys[..n])
      && t.monitor == s.monitor && t.toForget == {}
  {
    hide Lifecycle.Wf, Lifecycle.Owned, Lifecycle.Apply;
    var steps := Controller.RetireSteps(keys, users);
    if n > 0 {
      RetireEffect(s, keys, users, n - 1);
      Lifecycle.Unroll(s, steps, n - 1);
      RetireOneEffect(Lifecycle.Exec(s, steps[..n - 1]), keys[n - 1], users[n - 1]);
      assert keys[..n] == keys[..n - 1] + [keys[n - 1]];
    } else {
      assert steps[..0] == [];
    }
  }

  lemma {:induction false} RememberEffect(s: Lifecycle.State, keys: seq<Lifecycle.Key>, n: nat)
    requires Lifecycle.Wf(s) && n <= |keys|
    ensures Lifecycle.Exec(s, Controller.RememberSteps(keys)[..n]).current == s.current
  {
    hide Lifecycle.Wf;
    var steps := Controller.RememberSteps(keys);
    if n > 0 {
      RememberEffect(s, keys, n - 1);
      Lifecycle.Unroll(s, steps, n - 1);
    } else {
      assert steps[..0] == [];
    }
  }

  lemma {:induction false} RegisterEffect(s: Lifecycle.State, keys: seq<Lifecycle.Key>, n: nat)
    requires Lifecycle.Wf(s) && Quiet(s) && n <= |keys|
    requires forall i :: 0 <= i < |keys| ==> Lifecycle.Owned(keys[i])
    ensures var t := Lifecycle.Exec(s, Controller.RegisterSteps(keys)[..n]);
      && t.current == s.current + (set k | k in keys[..n])
      && t.monitor == s.monitor && t.toRemember == map[]
  {
    hide Lifecycle.Wf, Lifecycle.Owned, Lifecycle.Apply;
    var steps := Controller.RegisterSteps(keys);
    if n > 0 {
      RegisterEffect(s, keys, n - 1);
      Lifecycle.Unroll(s, steps, n - 1);
      RegisterOneEffect(Lifecycle.Exec(s, steps[..n - 1]), keys[n - 1]);
      assert keys[..n] == keys[..n - 1] + [keys[n - 1]];
    } else {
      assert steps[..0] == [];
    }
  }

  lemma {:induction false} ForgetEffect(s: Lifecycle.State, keys: seq<Lifecycle.Key>, n: nat)
    requires Lifecycle.Wf(s) && n <= |keys|
    ensures Lifecycle.Exec(s, Controller.ForgetSteps(keys)[..n]).current == s.current
  {
    hide Lifecycle.Wf;
    var steps := Controller.ForgetSteps(keys);
    if n > 0 {
      ForgetEffect(s, keys, n - 1);
      Lifecycle.Unroll(s, steps, n - 1);
    } else {
      assert steps[..0] == [];
    }
  }

  /** Dismissing a list removes exactly its keys from the admission set. */
  lemma DismissEffect(s: Lifecycle.State, tag: string, list: seq<UserInfo>)
    requires Lifecycle.Wf(s) && Quiet(s) && '|' !in tag
    ensures var keys := Controller.KeysOf(tag, list);
      Lifecycle.Exec(s, Controller.DismissSteps(keys, list)).current == s.current - KeySet(tag, list)
  {
    hide Lifecycle.Wf, Lifecycle.Owned, Lifecycle.Exec, Controller.KeyOf, Controller.RetireSteps,
      Controller.RememberSteps;
    var keys := Controller.KeysOf(tag, list);
    Controller.KeysOwned(tag, list);
    StepCounts(keys, list);
    RetireEffect(s, keys, list, |keys|);
    var retire, remember := Controller.RetireSteps(keys, list), Controller.RememberSteps(keys);
    assert retire[..|keys|] == retire && remember[..|keys|] == remember && keys[..|keys|] == keys;
    RememberEffect(Lifecycle.Exec(s, retire), keys, |keys|);
    Lifecycle.ExecConcat(s, retire, remember);
    KeysAreSet(tag, list);
  }

  /** Admitting a list adds exactly its keys. */
  lemma AdmitEffect(s: Lifecycle.State, tag: string, list: seq<UserInfo>)
    requires Lifecycle.Wf(s) && Quiet(s) && '|' !in tag
    ensures var keys := Controller.KeysOf(tag, list);
      Lifecycle.Exec(s, Controller.AdmitSteps(tag, keys)).current == s.current + KeySet(tag, list)
  {
    hide Lifecycle.Wf, Lifecycle.Owned, Lifecycle.Exec, Controller.KeyOf, Controller.RegisterSteps,
      Controller.ForgetSteps;
    var keys := Controller.KeysOf(tag, list);
    Controller.KeysOwned(tag, list);
    StepCounts(keys, list);
    ManageFirst(s, tag);
    var first := [Lifecycle.Manage(tag)];
    var s1 := Lifecycle.Exec(s, first);
    RegisterEffect(s1, keys, |keys|);
    var register, forget := Controller.RegisterSteps(keys), Controller.ForgetSteps(keys);
    assert register[..|keys|] == register && forget[..|keys|] == forget && keys[..|keys|] == keys;
    ForgetEffect(Lifecycle.Exec(s1, register), keys, |keys|);
    Lifecycle.ExecConcat(s, first, register);
    Lifecycle.ExecConcat(s, first + register, forget);
    KeysAreSet(tag, list);
  }

  lemma ManageFirst(s: Lifecycle.State, tag: string)
    requires Lifecycle.Wf(s) && Quiet(s)
    ensures Lifecycle.Exec(s, [Lifecycle.Manage(tag)]) == s.(managed := s.managed + {tag})
  {
    hide Lifecycle.Wf;
    assert [Lifecycle.Manage(tag)][..0] == [];
  }

  lemma StepCounts(keys: seq<Lifecycle.Key>, users: seq<UserInfo>)
    requires |keys| == |users|
    ensures |Controller.RetireSteps(keys, users)| == |Controller.RememberSteps(keys)| == |keys|
    ensures |Controller.RegisterSteps(keys)| == |Controller.ForgetSteps(keys)| == |keys|
  {
  }

  lemma KeysAreSet(tag: string, list: seq<UserInfo>)
    ensures (set k | k in Controller.KeysOf(tag, list)) == KeySet(tag, list)
  {
    hide Controller.KeyOf;
    var keys := Controller.KeysOf(tag, list);
    forall k | k in KeySet(tag, list) ensures k in keys {
      var i :| 0 <= i < |list| && Controller.KeyOf(tag, list[i]) == k;
      assert keys[i] == k;
    }
  }

  /** The new admission set in terms of the old one. */
  lemma AdmissionEqualsRebuild(current: set<Lifecycle.Key>, tag: string, old_: seq<UserInfo>, new_: seq<UserInfo>)
    requires Unique(old_) && Unique(new_) && AdmittedAt(current, tag) == KeySet(tag, old_)
    ensures var after := current - KeySet(tag, Deleted(old_, new_)) + KeySet(tag, Additions(old_, new_));
      && AdmittedAt(after, tag) == KeySet(tag, new_)
      && forall k: Lifecycle.Key :: k.tag != tag ==> (k in after <==> k in current)
  {
    hide KeyFor, FormatUserKey, Deleted, Additions;
    var after := current - KeySet(tag, Deleted(old_, new_)) + KeySet(tag, Additions(old_, new_));
    forall k | k in AdmittedAt(after, tag) ensures k in KeySet(tag, new_) {
      if k in KeySet(tag, Additions(old_, new_)) {
        var u :| u in Additions(old_, new_) && Controller.KeyOf(tag, u) == k;
        AdditionsAre(old_, new_, u);
      } else {
        assert k in AdmittedAt(current, tag);
        var o :| o in old_ && Controller.KeyOf(tag, o) == k;
        SurvivesIff(old_, new_, o);
        var u :| u in new_ && u == o.(speedLimit := u.speedLimit, deviceLimit := u.deviceLimit);
        SameRuntimeKeyOf(tag, o, u);
      }
    }
    forall k | k in KeySet(tag, new_) ensures k in AdmittedAt(after, tag) {
      var u :| u in new_ && Controller.KeyOf(tag, u) == k;
      NewUserAdmitted(current, tag, old_, new_, u);
    }
  }

  lemma SameRuntimeKeyOf(tag: string, o: UserInfo, u: UserInfo)
    requires u == o.(speedLimit := u.speedLimit, deviceLimit := u.deviceLimit)
    ensures Controller.KeyOf(tag, o) == Controller.KeyOf(tag, u)
  {
  }

  lemma NewUserAdmitted(current: set<Lifecycle.Key>, tag: string, old_: seq<UserInfo>, new_: seq<UserInfo>, u: UserInfo)
    requires Unique(old_) && Unique(new_) && AdmittedAt(current, tag) == KeySet(tag, old_) && u in new_
    ensures var after := current - KeySet(tag, Deleted(old_, new_)) + KeySet(tag, Additions(old_, new_));
      Controller.KeyOf(tag, u) in after
  {
    hide FormatUserKey, Deleted, Additions;
    AdditionsAre(old_, new_, u);
    if u !in Additions(old_, new_) {
      var o := old_[Find(old_, u.uid).value];
      assert u == o.(speedLimit := u.speedLimit, deviceLimit := u.deviceLimit);
      SurvivesIff(old_, new_, o);
      assert Controller.KeyOf(tag, o) == Controller.KeyOf(tag, u);
      assert Controller.KeyOf(tag, o) in AdmittedAt(current, tag);
      forall v | v in Deleted(old_, new_) ensures Controller.KeyOf(tag, v) != Controller.KeyOf(tag, o) {
        DeletedAreOld(old_, new_, v);
        if Controller.KeyOf(tag, v) == Controller.KeyOf(tag, o) {
          KeyInjective(tag, v.email, v.uid, o.email, o.uid);
          SameUid(old_, v, o);
        }
      }
    }
  }

  /******* One synchronisation cycle *******/

  /** The steps the node monitor takes on the lifecycle when only the user list changed. */
  ghost function SyncSteps(tag: string, old_: seq<UserInfo>, new_: seq<UserInfo>): seq<Lifecycle.Step> {
    DismissPart(tag, Deleted(old_, new_)) + AdmitPart(tag, Additions(old_, new_))
  }

  function DismissPart(tag: string, deleted: seq<UserInfo>): seq<Lifecycle.Step> {
    if deleted == [] then [] else Controller.DismissSteps(Controller.KeysOf(tag, deleted), deleted)
  }

  function AdmitPart(tag: string, added: seq<UserInfo>): seq<Lifecycle.Step> {
    if added == [] then [] else Controller.AdmitSteps(tag, Controller.KeysOf(tag, added))
  }
}
