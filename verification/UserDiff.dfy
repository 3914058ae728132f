/** The difference between two user lists: `compareUserList`, and which users it adds, re-limits and removes. */
module UserDiff {
  import opened Api

  /** Everything but the two limits agrees, so running credentials need not be replaced. */
  predicate SameRuntimeUser(o: UserInfo, n: UserInfo) {
    && o.uid == n.uid
    && o.email == n.email
    && o.passwd == n.passwd
    && o.port == n.port
    && o.cipher == n.cipher
    && o.protocol == n.protocol
    && o.protocolParam == n.protocolParam
    && o.obfs == n.obfs
    && o.obfsParam == n.obfsParam
    && o.uuid == n.uuid
    && o.alterId == n.alterId
  }

  /** Running credentials agree exactly when nothing but the two limits was changed. */
  lemma SameRuntimeIs(o: UserInfo, n: UserInfo)
    ensures SameRuntimeUser(o, n) <==> n == o.(speedLimit := n.speedLimit, deviceLimit := n.deviceLimit)
  {
  }

  /** The position of the last entry with a UID. */
  function Find(list: seq<UserInfo>, uid: int64): (at: Option<nat>)
    ensures at.Some? ==> at.value < |list| && list[at.value].uid == uid
    ensures at.None? ==> forall i :: 0 <= i < |list| ==> list[i].uid != uid
  {
    if list == [] then None
    else if list[|list| - 1].uid == uid then Some(|list| - 1)
    else Find(list[..|list| - 1], uid)
  }

  datatype Fate = Fresh | Replaced(old_: UserInfo) | Relimited | Unchanged

  /** What the new record `u` means against the old list. */
  function FateOf(old_: seq<UserInfo>, u: UserInfo): Fate {
    match Find(old_, u.uid)
    case None => Fresh
    case Some(at) =>
      if !SameRuntimeUser(old_[at], u) then Replaced(old_[at])
      else if old_[at].speedLimit != u.speedLimit || old_[at].deviceLimit != u.deviceLimit then Relimited
      else Unchanged
  }

  function Replacements(old_: seq<UserInfo>, new_: seq<UserInfo>): seq<UserInfo> {
    if new_ == [] then []
    else
      var fate := FateOf(old_, new_[|new_| - 1]);
      Replacements(old_, new_[..|new_| - 1]) + if fate.Replaced? then [fate.old_] else []
  }

  function Additions(old_: seq<UserInfo>, new_: seq<UserInfo>): seq<UserInfo> {
    if new_ == [] then []
    else
      var u := new_[|new_| - 1];
      var fate := FateOf(old_, u);
      Additions(old_, new_[..|new_| - 1]) + if fate.Fresh? || fate.Replaced? then [u] else []
  }

  function Relimits(old_: seq<UserInfo>, new_: seq<UserInfo>): seq<UserInfo> {
    if new_ == [] then []
    else
      var u := new_[|new_| - 1];
      Relimits(old_, new_[..|new_| - 1]) + if FateOf(old_, u).Relimited? then [u] else []
  }

  function Uids(list: seq<UserInfo>): set<int64> {
    set u | u in list :: u.uid
  }

  function Gone(old_: seq<UserInfo>, uids: set<int64>): seq<UserInfo> {
    if old_ == [] then []
    else
      var u := old_[|old_| - 1];
      Gone(old_[..|old_| - 1], uids) + if u.uid in uids then [] else [u]
  }

  /** `compareUserList`, for all lists. */
  method CompareUserList(old_: seq<UserInfo>, new_: seq<UserInfo>)
    returns (deleted: seq<UserInfo>, added: seq<UserInfo>, limitUpdated: seq<UserInfo>)
    ensures deleted == Replacements(old_, new_) + Gone(old_, Uids(new_))
    ensures added == Additions(old_, new_)
    ensures limitUpdated == Relimits(old_, new_)
  {
    hide SameRuntimeUser, Replacements, Additions, Relimits, Uids, Gone, Find;
    var oldIndex := IndexByUid(old_);
    var newUids: set<int64> := {};
    deleted, added, limitUpdated := [], [], [];
    DiffStart(old_);
    for n := 0 to |new_|
      invariant deleted == Replacements(old_, new_[..n])
      invariant added == Additions(old_, new_[..n])
      invariant limitUpdated == Relimits(old_, new_[..n])
      invariant newUids == Uids(new_[..n])
    {
      var u := new_[n];
      DiffNext(old_, new_, n);
      newUids := newUids + {u.uid};
      if u.uid !in oldIndex {
        added := added + [u];
      } else {
        var oldUser := old_[oldIndex[u.uid]];
        if !SameRuntimeUser(oldUser, u) {
          deleted := deleted + [oldUser];
          added := added + [u];
        } else if oldUser.speedLimit != u.speedLimit || oldUser.deviceLimit != u.deviceLimit {
          limitUpdated := limitUpdated + [u];
        }
      }
    }
    assert new_[..|new_|] == new_;
    var gone := ListGone(old_, newUids);
    deleted := deleted + gone;
  }

  lemma DiffStart(old_: seq<UserInfo>)
    ensures Replacements(old_, []) == [] && Additions(old_, []) == [] && Relimits(old_, []) == [] && Uids([]) == {}
  {
  }

  lemma DiffNext(old_: seq<UserInfo>, new_: seq<UserInfo>, n: nat)
    requires n < |new_|
    ensures var u := new_[n];
      var fate := FateOf(old_, u);
      && Replacements(old_, new_[..n + 1])
         == Replacements(old_, new_[..n]) + (if fate.Replaced? then [fate.old_] else [])
      && Additions(old_, new_[..n + 1])
         == Additions(old_, new_[..n]) + (if fate.Fresh? || fate.Replaced? then [u] else [])
      && Relimits(old_, new_[..n + 1]) == Relimits(old_, new_[..n]) + (if fate.Relimited? then [u] else [])
      && Uids(new_[..n + 1]) == Uids(new_[..n]) + {u.uid}
  {
    hide FateOf;
    assert new_[..n + 1][..n] == new_[..n];
    assert new_[..n + 1] == new_[..n] + [new_[n]];
  }

  method IndexByUid(list: seq<UserInfo>) returns (index: map<int64, nat>)
    ensures forall uid :: uid in index <==> Find(list, uid).Some?
    ensures forall uid :: uid in index ==> Find(list, uid) == Some(index[uid])
  {
    index := map[];
    for n := 0 to |list|
      invariant forall uid :: uid in index <==> Find(list[..n], uid).Some?
      invariant forall uid :: uid in index ==> Find(list[..n], uid) == Some(index[uid])
    {
      assert list[..n + 1][..n] == list[..n];
      index := index[list[n].uid := n];
    }
    assert list[..|list|] == list;
  }

  method ListGone(old_: seq<UserInfo>, uids: set<int64>) returns (gone: seq<UserInfo>)
    ensures gone == Gone(old_, uids)
  {
    gone := [];
    for n := 0 to |old_|
      invariant gone == Gone(old_[..n], uids)
    {
      assert old_[..n + 1][..n] == old_[..n];
      if old_[n].uid !in uids {
        gone := gone + [old_[n]];
      }
    }
    assert old_[..|old_|] == old_;
  }

  /******* Membership *******/

  ghost predicate Unique(list: seq<UserInfo>) {
    forall i, j :: 0 <= i < j < |list| ==> list[i].uid != list[j].uid
  }

  lemma {:induction false} AddedFates(old_: seq<UserInfo>, new_: seq<UserInfo>, u: UserInfo)
    ensures u in Additions(old_, new_) <==> u in new_ && (FateOf(old_, u).Fresh? || FateOf(old_, u).Replaced?)
  {
    hide FateOf;
    if new_ != [] {
      AddedFates(old_, new_[..|new_| - 1], u);
      assert new_ == new_[..|new_| - 1] + [new_[|new_| - 1]];
    }
  }

  lemma {:induction false} RelimitedFates(old_: seq<UserInfo>, new_: seq<UserInfo>, u: UserInfo)
    ensures u in Relimits(old_, new_) <==> u in new_ && FateOf(old_, u).Relimited?
  {
    hide FateOf;
    if new_ != [] {
      RelimitedFates(old_, new_[..|new_| - 1], u);
      assert new_ == new_[..|new_| - 1] + [new_[|new_| - 1]];
    }
  }

  lemma {:induction false} ReplacementsAre(old_: seq<UserInfo>, new_: seq<UserInfo>, o: UserInfo)
    ensures o in Replacements(old_, new_) <==> exists u :: u in new_ && FateOf(old_, u) == Replaced(o)
  {
    hide FateOf;
    if new_ != [] {
      var prefix, last := new_[..|new_| - 1], new_[|new_| - 1];
      ReplacementsAre(old_, prefix, o);
      assert new_ == prefix + [last];
      if o in Replacements(old_, new_) && o !in Replacements(old_, prefix) {
        assert FateOf(old_, last) == Replaced(o);
      }
    }
  }

  lemma {:induction false} GoneAre(old_: seq<UserInfo>, uids: set<int64>, o: UserInfo)
    ensures o in Gone(old_, uids) <==> o in old_ && o.uid !in uids
  {
    if old_ != [] {
      GoneAre(old_[..|old_| - 1], uids, o);
      assert old_ == old_[..|old_| - 1] + [old_[|old_| - 1]];
    }
  }

  lemma UniqueFind(list: seq<UserInfo>, u: UserInfo)
    requires Unique(list) && u in list
    ensures Find(list, u.uid).Some? && list[Find(list, u.uid).value] == u
  {
    var i :| 0 <= i < |list| && list[i] == u;
  }

  /** The users whose old entry is removed. */
  ghost function Deleted(old_: seq<UserInfo>, new_: seq<UserInfo>): seq<UserInfo> {
    Replacements(old_, new_) + Gone(old_, Uids(new_))
  }

  /** A user is added exactly when its UID is new, or when more than the limits of the last old record of it changed. */
  lemma AdditionsAre(old_: seq<UserInfo>, new_: seq<UserInfo>, u: UserInfo)
    ensures u in Additions(old_, new_) <==>
      u in new_ && match Find(old_, u.uid)
                   case None => true
                   case Some(at) => u != old_[at].(speedLimit := u.speedLimit, deviceLimit := u.deviceLimit)
  {
    hide SameRuntimeUser;
    AddedFates(old_, new_, u);
    if Find(old_, u.uid).Some? {
      SameRuntimeIs(old_[Find(old_, u.uid).value], u);
    }
  }

  /** A user is re-limited exactly when the limits of the last old record of its UID changed and nothing else did. */
  lemma RelimitsAre(old_: seq<UserInfo>, new_: seq<UserInfo>, u: UserInfo)
    ensures u in Relimits(old_, new_) <==>
      u in new_ && match Find(old_, u.uid)
                   case None => false
                   case Some(at) =>
                     u != old_[at] && u == old_[at].(speedLimit := u.speedLimit, deviceLimit := u.deviceLimit)
  {
    hide SameRuntimeUser;
    RelimitedFates(old_, new_, u);
    if Find(old_, u.uid).Some? {
      SameRuntimeIs(old_[Find(old_, u.uid).value], u);
    }
  }

  /**
   For all lists, also with repeated UIDs: an old record is removed exactly when its UID is gone, or when it is the last
   old record of its UID and some new record of that UID differs from it in more than the limits.
   */
  lemma DeletedIff(old_: seq<UserInfo>, new_: seq<UserInfo>, o: UserInfo)
    ensures o in Deleted(old_, new_) <==>
      && o in old_
      && (o.uid in Uids(new_) ==>
        && Find(old_, o.uid).Some? && old_[Find(old_, o.uid).value] == o
        && exists u :: u in new_ && u.uid == o.uid
                       && u != o.(speedLimit := u.speedLimit, deviceLimit := u.deviceLimit))
  {
    hide SameRuntimeUser;
    ReplacementsAre(old_, new_, o);
    GoneAre(old_, Uids(new_), o);
    forall u ensures SameRuntimeUser(o, u) <==> u == o.(speedLimit := u.speedLimit, deviceLimit := u.deviceLimit) {
      SameRuntimeIs(o, u);
    }
    if exists u :: u in new_ && u.uid == o.uid && !SameRuntimeUser(o, u) {
      var u :| u in new_ && u.uid == o.uid && !SameRuntimeUser(o, u);
      assert Find(old_, o.uid).Some? && old_[Find(old_, o.uid).value] == o ==> FateOf(old_, u) == Replaced(o);
    }
  }

  /** An old user survives exactly when the new list has it with nothing but its limits changed. */
  lemma SurvivesIff(old_: seq<UserInfo>, new_: seq<UserInfo>, o: UserInfo)
    requires Unique(old_) && Unique(new_) && o in old_
    ensures o !in Deleted(old_, new_) <==>
      exists u :: u in new_ && u == o.(speedLimit := u.speedLimit, deviceLimit := u.deviceLimit)
  {
    hide Deleted;
    DeletedIff(old_, new_, o);
    UniqueFind(old_, o);
    if o.uid in Uids(new_) {
      var u :| u in new_ && u.uid == o.uid;
      forall v | v in new_ && v.uid == o.uid ensures v == u {
        UniqueFind(new_, v);
        UniqueFind(new_, u);
      }
    }
  }

  /**
   A mere limit change never touches running credentials: the user is neither removed nor added, and it is re-limited if
   and only if one of the two limits is another.
   */
  lemma LimitChangeOnly(old_: seq<UserInfo>, new_: seq<UserInfo>, o: UserInfo, n: UserInfo)
    requires Unique(old_) && Unique(new_) && o in old_ && n in new_
    requires n == o.(speedLimit := n.speedLimit, deviceLimit := n.deviceLimit)
    ensures o !in Deleted(old_, new_) && n !in Additions(old_, new_)
    ensures n in Relimits(old_, new_) <==> n.speedLimit != o.speedLimit || n.deviceLimit != o.deviceLimit
  {
    hide Deleted, Additions, Relimits;
    UniqueFind(old_, o);
    SurvivesIff(old_, new_, o);
    AdditionsAre(old_, new_, n);
    RelimitsAre(old_, new_, n);
  }
}
