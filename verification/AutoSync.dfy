/**
 The automatic speed limit and the panel's updates write to one limiter. The user monitor pushes slowed and released
 records, the node monitor synchronises with the panel's list, and neither looks at what the other has written.
 */
module AutoSync {
  import opened Api
  import opened Limiter
  import opened UserDiff
  import opened Sync
  import opened AutoLimit

  /** One inbound: the panel's list as last published, the limiter's user map, and the automatic limits. */
  datatype Joint = Joint(list: seq<UserInfo>, users: map<string, UserLimit>, st: AutoLimit.State)

  datatype Push =
    | Publish(list: seq<UserInfo>)
    | Lift(now: int, order: seq<UserInfo>)
    | Judge(now: int, sample: Sample)

  /** The released users in the order in which the map iteration yields them. */
  ghost predicate Lists(order: seq<UserInfo>, limited: Limited, now: int) {
    forall u :: u in order <==> u in limited && now > limited[u].end
  }

  /** What a step writes into the user map. */
  ghost function Written(cfg: Config, tag: string, w: Joint, step: Push): map<string, UserLimit> {
    match step
    case Publish(new_) => UserMap(tag, Changes(w.list, new_))
    case Lift(now, order) => UserMap(tag, order)
    case Judge(now, s) =>
      if s.user in TakeSample(cfg, now, w.st, s).limited && s.user !in w.st.limited
      then map[KeyFor(tag, s.user) := LimitOf(Slowed(cfg, s.user))] else map[]
  }

  ghost function Do(cfg: Config, tag: string, w: Joint, step: Push): Joint {
    match step
    case Publish(new_) => Joint(new_, AfterSync(w.users, tag, w.list, new_), w.st)
    case Lift(now, order) =>
      if cfg.limit > 0 && Lists(order, w.st.limited, now)
      then Joint(w.list, w.users + Written(cfg, tag, w, step), Unlocked(cfg, now, w.st)) else w
    case Judge(now, s) => Joint(w.list, w.users + Written(cfg, tag, w, step), TakeSample(cfg, now, w.st, s))
  }

  ghost function Run(cfg: Config, tag: string, list: seq<UserInfo>, steps: seq<Push>): Joint {
    if steps == [] then Joint(list, UserMap(tag, list), AutoLimit.State(map[], map[]))
    else Do(cfg, tag, Run(cfg, tag, list, steps[..|steps| - 1]), steps[|steps| - 1])
  }

  /** The panel publishes lists with unique UIDs, and every release names exactly the users that are due. */
  ghost predicate Proper(cfg: Config, w: Joint, step: Push) {
    match step
    case Publish(new_) => Unique(w.list) && Unique(new_)
    case Lift(now, order) => Unique(w.list) && cfg.limit > 0 && Lists(order, w.st.limited, now)
    case Judge(_, _) => Unique(w.list)
  }

  /******* Stale entries *******/

  /** The limiter knows exactly the users of the list. */
  ghost predicate KeysMatch(tag: string, w: Joint) {
    w.users.Keys == KeysIn(tag, w.list)
  }

  /** The user monitor pushes a user whose key is not, or no longer, on the list. */
  ghost predicate PushesUnlisted(cfg: Config, tag: string, w: Joint, step: Push) {
    !step.Publish? && !(Written(cfg, tag, w, step).Keys <= KeysIn(tag, w.list))
  }

  lemma StepKeys(cfg: Config, tag: string, w: Joint, step: Push)
    requires Proper(cfg, w, step) && KeysMatch(tag, w)
    ensures KeysMatch(tag, Do(cfg, tag, w, step)) <==> !PushesUnlisted(cfg, tag, w, step)
  {
    hide KeyFor, TakeSample, Unlocked, Unique, Slowed, LimitOf;
    if step.Publish? {
      IncrementalKeys(w.users, tag, w.list, step.list);
    }
  }

  ghost predicate ProperRun(cfg: Config, tag: string, list: seq<UserInfo>, steps: seq<Push>) {
    Unique(list) && forall n :: 0 <= n < |steps| ==> Proper(cfg, Run(cfg, tag, list, steps[..n]), steps[n])
  }

  lemma RunSnoc(cfg: Config, tag: string, list: seq<UserInfo>, steps: seq<Push>, n: nat)
    requires n < |steps|
    ensures Run(cfg, tag, list, steps[..n + 1]) == Do(cfg, tag, Run(cfg, tag, list, steps[..n]), steps[n])
  {
    hide Do;
    assert steps[..n + 1][..n] == steps[..n];
  }

  lemma StartKeys(cfg: Config, tag: string, list: seq<UserInfo>)
    ensures KeysMatch(tag, Run(cfg, tag, list, []))
  {
    hide KeyFor;
    forall x ensures x in UserMap(tag, list) <==> x in KeysIn(tag, list) {
      UserMapKeys(tag, list, x);
    }
  }

  lemma {:induction false} KeysPrefix(cfg: Config, tag: string, list: seq<UserInfo>, steps: seq<Push>, n: nat)
    requires ProperRun(cfg, tag, list, steps) && n <= |steps|
    requires forall m :: 0 <= m < |steps| ==> !PushesUnlisted(cfg, tag, Run(cfg, tag, list, steps[..m]), steps[m])
    ensures KeysMatch(tag, Run(cfg, tag, list, steps[..n]))
  {
    hide Do, Proper, PushesUnlisted, KeysMatch, Run;
    if n == 0 {
      StartKeys(cfg, tag, list);
      assert steps[..0] == [];
    } else {
      KeysPrefix(cfg, tag, list, steps, n - 1);
      RunSnoc(cfg, tag, list, steps, n - 1);
      StepKeys(cfg, tag, Run(cfg, tag, list, steps[..n - 1]), steps[n - 1]);
    }
  }

  /**
   Throughout a run the limiter knows exactly the users of the panel's list, if and only if the user monitor never
   pushes a user, released or limited, whose key is not on the list at that moment.
   */
  lemma NoStaleEntries(cfg: Config, tag: string, list: seq<UserInfo>, steps: seq<Push>)
    requires ProperRun(cfg, tag, list, steps)
    ensures (forall n :: 0 <= n <= |steps| ==> KeysMatch(tag, Run(cfg, tag, list, steps[..n])))
       <==> (forall n :: 0 <= n < |steps| ==> !PushesUnlisted(cfg, tag, Run(cfg, tag, list, steps[..n]), steps[n]))
  {
    hide Do, Proper, PushesUnlisted, KeysMatch, Run;
    if forall n :: 0 <= n < |steps| ==> !PushesUnlisted(cfg, tag, Run(cfg, tag, list, steps[..n]), steps[n]) {
      forall n | 0 <= n <= |steps| ensures KeysMatch(tag, Run(cfg, tag, list, steps[..n])) {
        KeysPrefix(cfg, tag, list, steps, n);
      }
    }
    if forall n :: 0 <= n <= |steps| ==> KeysMatch(tag, Run(cfg, tag, list, steps[..n])) {
      forall n | 0 <= n < |steps| ensures !PushesUnlisted(cfg, tag, Run(cfg, tag, list, steps[..n]), steps[n]) {
        assert KeysMatch(tag, Run(cfg, tag, list, steps[..n])) && KeysMatch(tag, Run(cfg, tag, list, steps[..n + 1]));
        RunSnoc(cfg, tag, list, steps, n);
        StepKeys(cfg, tag, Run(cfg, tag, list, steps[..n]), steps[n]);
      }
    }
  }

  /** A stale entry survives every later step that does not put its user back on the list. */
  lemma StaleStays(cfg: Config, tag: string, w: Joint, step: Push, x: string)
    requires x in w.users && x !in KeysIn(tag, w.list)
    ensures x in Do(cfg, tag, w, step).users
  {
    hide KeyFor, TakeSample, Unlocked, Deleted, Slowed, LimitOf;
    if step.Publish? {
      forall v | v in Deleted(w.list, step.list) ensures KeyFor(tag, v) != x {
        DeletedAreOld(w.list, step.list, v);
        assert KeyFor(tag, v) in KeysIn(tag, w.list);
      }
    }
  }

  /******* Values *******/

  /** What the list and the automatic limits call for. */
  ghost function InForce(cfg: Config, limited: Limited): UserInfo -> UserLimit {
    (u: UserInfo) => if u in limited then LimitOf(Slowed(cfg, u)) else LimitOf(u)
  }

  /** The user map is the list's map overlaid by the automatic limits. */
  ghost predicate Agrees(cfg: Config, tag: string, w: Joint) {
    Stores(w.users, tag, w.list, InForce(cfg, w.st.limited))
  }

  /** A user the panel changed is not under an automatic limit of another speed; a push is what the list calls for. */
  ghost predicate Fits(cfg: Config, tag: string, w: Joint, step: Push) {
    if step.Publish? then
      forall u :: u in Changes(w.list, step.list) ==> InForce(cfg, w.st.limited)(u) == LimitOf(u)
    else
      var written := Written(cfg, tag, w, step);
      forall x :: x in written ==> Called(tag, w.list, x, written[x], InForce(cfg, Do(cfg, tag, w, step).st.limited))
  }

  /** A user on the list owns the key and calls for just these limits. */
  ghost predicate Called(tag: string, list: seq<UserInfo>, x: string, limit: UserLimit,
                         inForce: UserInfo -> UserLimit) {
    exists v :: v in list && KeyFor(tag, v) == x && limit == inForce(v)
  }

  lemma OverlayIff(m: map<string, UserLimit>, written: map<string, UserLimit>, tag: string, list: seq<UserInfo>,
                   before: UserInfo -> UserLimit, after: UserInfo -> UserLimit)
    requires Unique(list) && Stores(m, tag, list, before)
    requires forall v :: v in list && KeyFor(tag, v) !in written ==> after(v) == before(v)
    ensures Stores(m + written, tag, list, after)
       <==> forall x :: x in written ==> Called(tag, list, x, written[x], after)
  {
    hide KeyFor, Unique;
    var all := m + written;
    if Stores(all, tag, list, after) {
      forall x | x in written ensures Called(tag, list, x, written[x], after) {
        assert x in all;
        var v :| v in list && KeyFor(tag, v) == x;
      }
    }
    if forall x :: x in written ==> Called(tag, list, x, written[x], after) {
      forall v | v in list ensures KeyFor(tag, v) in all && all[KeyFor(tag, v)] == after(v) {
        if KeyFor(tag, v) in written {
          assert Called(tag, list, KeyFor(tag, v), written[KeyFor(tag, v)], after);
          var u :| u in list && KeyFor(tag, u) == KeyFor(tag, v) && written[KeyFor(tag, v)] == after(u);
          KeyOwner(tag, list, u, v);
        }
      }
      forall x | x in all ensures exists u :: u in list && KeyFor(tag, u) == x {
        if x in written {
          assert Called(tag, list, x, written[x], after);
        }
      }
    }
  }

  lemma PublishAgrees(cfg: Config, tag: string, w: Joint, new_: seq<UserInfo>)
    requires Unique(w.list) && Unique(new_) && Agrees(cfg, tag, w)
    ensures Agrees(cfg, tag, Do(cfg, tag, w, Publish(new_))) <==> Fits(cfg, tag, w, Publish(new_))
  {
    hide KeyFor, Unique, AfterSync, Changes, LimitOf, Slowed;
    var inForce := InForce(cfg, w.st.limited);
    IncrementalKeeps(w.users, tag, w.list, new_, inForce);
    forall u ensures u in Changes(w.list, new_) <==> u in new_ && u !in w.list {
      ChangesAre(w.list, new_, u);
    }
  }

  lemma LiftAgrees(cfg: Config, tag: string, w: Joint, now: int, order: seq<UserInfo>)
    requires Proper(cfg, w, Lift(now, order)) && Agrees(cfg, tag, w)
    ensures Agrees(cfg, tag, Do(cfg, tag, w, Lift(now, order))) <==> Fits(cfg, tag, w, Lift(now, order))
  {
    hide KeyFor, Unique, LimitOf, Slowed, Stores, Called;
    var after := InForce(cfg, Unlocked(cfg, now, w.st).limited);
    forall v | v in w.list && KeyFor(tag, v) !in UserMap(tag, order)
      ensures after(v) == InForce(cfg, w.st.limited)(v)
    {
      UserMapKeys(tag, order, KeyFor(tag, v));
    }
    OverlayIff(w.users, UserMap(tag, order), tag, w.list, InForce(cfg, w.st.limited), after);
  }

  lemma JudgeFrame(cfg: Config, now: int, st: AutoLimit.State, s: Sample)
    ensures var limited := TakeSample(cfg, now, st, s).limited;
      && (s.user in st.limited || s.user !in limited ==> limited == st.limited)
      && (forall u :: u != s.user ==> (u in limited <==> u in st.limited))
  {
  }

  lemma JudgeAgrees(cfg: Config, tag: string, w: Joint, now: int, s: Sample)
    requires Proper(cfg, w, Judge(now, s)) && Agrees(cfg, tag, w)
    ensures Agrees(cfg, tag, Do(cfg, tag, w, Judge(now, s))) <==> Fits(cfg, tag, w, Judge(now, s))
  {
    hide KeyFor, Unique, LimitOf, Slowed, Stores, Called, TakeSample;
    JudgeFrame(cfg, now, w.st, s);
    var after := InForce(cfg, TakeSample(cfg, now, w.st, s).limited);
    OverlayIff(w.users, Written(cfg, tag, w, Judge(now, s)), tag, w.list, InForce(cfg, w.st.limited), after);
  }

  lemma StepAgrees(cfg: Config, tag: string, w: Joint, step: Push)
    requires Proper(cfg, w, step) && Agrees(cfg, tag, w)
    ensures Agrees(cfg, tag, Do(cfg, tag, w, step)) <==> Fits(cfg, tag, w, step)
  {
    hide Agrees, Fits, Do, Unique;
    match step
    case Publish(new_) => PublishAgrees(cfg, tag, w, new_);
    case Lift(now, order) => LiftAgrees(cfg, tag, w, now, order);
    case Judge(now, s) => JudgeAgrees(cfg, tag, w, now, s);
  }

  lemma StartAgrees(cfg: Config, tag: string, list: seq<UserInfo>)
    requires Unique(list)
    ensures Agrees(cfg, tag, Run(cfg, tag, list, []))
  {
    hide KeyFor, Unique;
    StoresBuilt(UserMap(tag, list), tag, list);
  }

  lemma {:induction false} AgreesPrefix(cfg: Config, tag: string, list: seq<UserInfo>, steps: seq<Push>, n: nat)
    requires ProperRun(cfg, tag, list, steps) && n <= |steps|
    requires forall m :: 0 <= m < |steps| ==> Fits(cfg, tag, Run(cfg, tag, list, steps[..m]), steps[m])
    ensures Agrees(cfg, tag, Run(cfg, tag, list, steps[..n]))
  {
    hide Do, Proper, Fits, Agrees, Run;
    if n == 0 {
      StartAgrees(cfg, tag, list);
      assert steps[..0] == [];
    } else {
      AgreesPrefix(cfg, tag, list, steps, n - 1);
      RunSnoc(cfg, tag, list, steps, n - 1);
      StepAgrees(cfg, tag, Run(cfg, tag, list, steps[..n - 1]), steps[n - 1]);
    }
  }

  /**
   Throughout a run the limits in the limiter are the list's, overlaid by the automatic ones, if and only if every
   push writes what the list calls for and the panel changes no user under an automatic limit of another speed.
   */
  lemma LimitsAgree(cfg: Config, tag: string, list: seq<UserInfo>, steps: seq<Push>)
    requires ProperRun(cfg, tag, list, steps)
    ensures (forall n :: 0 <= n <= |steps| ==> Agrees(cfg, tag, Run(cfg, tag, list, steps[..n])))
       <==> (forall n :: 0 <= n < |steps| ==> Fits(cfg, tag, Run(cfg, tag, list, steps[..n]), steps[n]))
  {
    hide Do, Proper, Fits, Agrees, Run;
    if forall n :: 0 <= n < |steps| ==> Fits(cfg, tag, Run(cfg, tag, list, steps[..n]), steps[n]) {
      forall n | 0 <= n <= |steps| ensures Agrees(cfg, tag, Run(cfg, tag, list, steps[..n])) {
        AgreesPrefix(cfg, tag, list, steps, n);
      }
    }
    if forall n :: 0 <= n <= |steps| ==> Agrees(cfg, tag, Run(cfg, tag, list, steps[..n])) {
      forall n | 0 <= n < |steps| ensures Fits(cfg, tag, Run(cfg, tag, list, steps[..n]), steps[n]) {
        assert Agrees(cfg, tag, Run(cfg, tag, list, steps[..n]));
        assert Agrees(cfg, tag, Run(cfg, tag, list, steps[..n + 1]));
        RunSnoc(cfg, tag, list, steps, n);
        StepAgrees(cfg, tag, Run(cfg, tag, list, steps[..n]), steps[n]);
      }
    }
  }

  /** Lifting and imposing limits on users who are still listed unchanged always fits. */
  lemma ListedPushesFit(cfg: Config, tag: string, w: Joint, step: Push)
    requires Proper(cfg, w, step) && !step.Publish?
    requires step.Lift? ==> forall u :: u in step.order ==> u in w.list
    requires step.Judge? ==> step.sample.user in w.list
    ensures Fits(cfg, tag, w, step)
  {
    hide KeyFor, Unique, LimitOf, Slowed;
    if step.Lift? {
      forall x | x in UserMap(tag, step.order)
        ensures Called(tag, w.list, x, UserMap(tag, step.order)[x], InForce(cfg, Do(cfg, tag, w, step).st.limited))
      {
        UserMapKeys(tag, step.order, x);
        var u :| u in step.order && KeyFor(tag, u) == x;
        forall v | v in step.order && KeyFor(tag, v) == KeyFor(tag, u) ensures v == u {
          KeyOwner(tag, w.list, v, u);
        }
        UserMapGet(tag, step.order, u);
      }
    }
  }

  /** A user is limited, leaves the list, and is released: the limiter knows a user the panel has removed. */
  lemma StaleRun(cfg: Config, tag: string, s: Sample, now: int)
    requires cfg.limit > 0 && cfg.warnTimes == 0 && Exceeds(cfg, s)
    ensures var end := now + 60 * cfg.limitDuration;
      var steps := [Judge(now, s), Publish([]), Lift(end + 1, [s.user])];
      && ProperRun(cfg, tag, [s.user], steps)
      && Run(cfg, tag, [s.user], steps).list == []
      && KeyFor(tag, s.user) in Run(cfg, tag, [s.user], steps).users
      && Run(cfg, tag, [s.user], steps).st.limited == map[]
  {
    hide KeyFor, Over, Exceeds, LimitOf, Slowed, AfterSync, UserMap;
    OverIs(cfg, s);
    var u := s.user;
    var judge, publish, lift := Judge(now, s), Publish([]), Lift(now + 60 * cfg.limitDuration + 1, [u]);
    var steps := [judge, publish, lift];
    RunSnoc(cfg, tag, [u], steps, 0);
    RunSnoc(cfg, tag, [u], steps, 1);
    RunSnoc(cfg, tag, [u], steps, 2);
    assert steps[..0] == [] && steps[..3] == steps;
    var w1 := Run(cfg, tag, [u], steps[..1]);
    assert w1.st.limited == map[u := NewLimit(cfg, now, u)] && w1.list == [u];
    var w2 := Run(cfg, tag, [u], steps[..2]);
    assert w2.st == w1.st && w2.list == [];
    assert Lists([u], w2.st.limited, lift.now);
    UserMapKeys(tag, [u], KeyFor(tag, u));
    assert ProperRun(cfg, tag, [u], steps);
    var w3 := Run(cfg, tag, [u], steps);
    assert w3.st.limited == map[];
  }
}
