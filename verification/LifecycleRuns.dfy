/** Particular runs: the pass that settles a retired user, and two runs in which bytes go missing. */
module LifecycleRuns {
  import opened Api
  import opened Lifecycle
  import opened LifecycleInvariant
  import opened LifecycleTheorems
  import opened LifecycleLoss

  lemma ExecNil(s: State)
    requires Wf(s)
    ensures Exec(s, []) == s
  {
  }

  lemma Extend(s: State, steps: seq<Step>, step: Step) returns (longer: seq<Step>)
    requires Wf(s)
    ensures longer == steps + [step] && Exec(s, longer) == Apply(Exec(s, steps), step)
  {
    hide Apply, Wf;
    longer := steps + [step];
    assert longer[..|longer| - 1] == steps;
  }

  /******* A retired user is settled by one undisturbed pass *******/

  /** What the user monitor does for one retired key in a pass whose report succeeds. */
  function SettlePass(k: Key): seq<Step> {
    DrainPart(k) + DetachPart(k) + [ClearRetired, EndPass]
  }

  function DrainPart(k: Key): seq<Step> {
    [Snapshot, Drain(k.email, Uplink), Drain(k.email, Downlink), ReportOk]
  }

  function DetachPart(k: Key): seq<Step> {
    [CheckIdle(k), Unregister(Uplink), Unregister(Downlink), Commit]
  }

  lemma DrainEmpties(s: State, e: string, d: Direction)
    requires Inv(s) && s.monitor.Draining?
    ensures var s' := Apply(s, Drain(e, d));
      && Empty(s', e, d)
      && (forall x :: Drained(s'.pending, x) + Visible(s'.stats, s'.counters, x)
                   == Drained(s.pending, x) + Visible(s.stats, s.counters, x))
      && s' == s.(counters := s'.counters, pending := s'.pending)
  {
    hide RefCounts, FlowsOk, RuntimesOk, RetiringOk, DeltasOk, MonitorOk, Money, FlowIds, RuntimeIds;
    var s' := Apply(s, Drain(e, d));
    if s' != s {
      assert s'.pending[..|s.pending|] == s.pending;
    }
  }

  /** A drained counter stays empty while others are drained. */
  lemma DrainKeepsEmpty(s: State, e: string, d: Direction, e': string, d': Direction)
    requires Wf(s) && Empty(s, e, d) && s.monitor.Draining?
    ensures Empty(Apply(s, Drain(e', d')), e, d)
  {
    hide RuntimeIds, FlowIds, DeltaIds;
  }

  lemma EmptyUnseen(s: State, e: string, d: Direction)
    requires Wf(s) && Empty(s, e, d)
    ensures Visible(s.stats, s.counters, (e, d)) == 0
  {
  }

  /** Draining and reporting takes exactly the visible bytes of each direction to the panel. */
  lemma DrainPhase(s: State, k: Key, d: Direction)
    requires Inv(s) && s.monitor.Idle?
    ensures var t := Exec(s, DrainPart(k));
      && t == s.(monitor := Finalizing(s.retiring), counters := t.counters, pending := [], ledger := t.ledger)
      && t.ledger == s.ledger.(reported := t.ledger.reported)
      && t.ledger.reported[(k.email, d)] == s.ledger.reported[(k.email, d)] + Visible(s.stats, s.counters, (k.email, d))
      && Empty(t, k.email, Uplink) && Empty(t, k.email, Downlink)
  {
    hide RefCounts, FlowsOk, NamesOk, RuntimesOk, RetiringOk, Money, Owned, FlowIds, RuntimeIds, StatsIds, DeltaIds,
      Exec, Visible, Empty;
    ExecNil(s);
    var e := k.email;
    var steps := Extend(s, [], Snapshot);
    StepInv(s, Snapshot);
    var s1 := Exec(s, steps);
    steps := Extend(s, steps, Drain(e, Uplink));
    DrainEmpties(s1, e, Uplink);
    StepInv(s1, Drain(e, Uplink));
    var s2 := Exec(s, steps);
    steps := Extend(s, steps, Drain(e, Downlink));
    DrainEmpties(s2, e, Downlink);
    DrainKeepsEmpty(s2, e, Uplink, e, Downlink);
    StepInv(s2, Drain(e, Downlink));
    var s3 := Exec(s, steps);
    EmptyUnseen(s3, e, d);
    hide DoDrain;
    steps := Extend(s, steps, ReportOk);
    CreditAllSum(s3.ledger.reported, s3.pending, (e, d));
    EmptyKept(s3, Exec(s, steps), e);
    assert steps == DrainPart(k);
  }

  lemma EmptyKept(s: State, t: State, e: string)
    requires Wf(s) && Wf(t) && t.stats == s.stats && t.counters == s.counters
    requires Empty(s, e, Uplink) && Empty(s, e, Downlink)
    ensures Empty(t, e, Uplink) && Empty(t, e, Downlink)
  {
  }

  /** Finalizing an idle, drained user removes its counters and its runtime and nothing else. */
  lemma DetachPhase(t: State, k: Key)
    requires Wf(t) && t.monitor.Finalizing? && k in t.monitor.snapshot && MayFinalize(t, k)
    ensures var u := Exec(t, DetachPart(k)); var snapshot := t.monitor.snapshot;
      u == t.(stats := t.stats - {(k.email, Uplink)} - {(k.email, Downlink)}, runtime := t.runtime - {k},
              monitor := Clearing(snapshot - {k}, k, snapshot[k]))
  {
    hide Wf, Owned, MayFinalize, Exec, DoRegister, DoRetire, DoAcquire, DoFetch, DoRelease, DoEndWriter, DoAddBytes,
      DoDrain, DoRestore, CreditAll;
    ExecNil(t);
    var snapshot := t.monitor.snapshot;
    var steps := Extend(t, [], CheckIdle(k));
    assert Exec(t, steps) == t.(monitor := Detaching(snapshot - {k}, k, snapshot[k], false, false));
    steps := Extend(t, steps, Unregister(Uplink));
    steps := Extend(t, steps, Unregister(Downlink));
    steps := Extend(t, steps, Commit);
    assert steps == DetachPart(k);
  }

  /** From a quiet state, the pass reports all visible bytes of an idle retired user and forgets the user. */
  lemma SettlesRetired(s: State, k: Key, d: Direction)
    requires Inv(s) && s.monitor.Idle?
    requires k in s.retiring && k in s.runtime && k !in s.current && s.active[s.runtime[k]] == 0
    ensures var s' := Exec(s, SettlePass(k));
      && k !in s'.runtime && k !in s'.retiring
      && (k.email, Uplink) !in s'.stats && (k.email, Downlink) !in s'.stats
      && s'.ledger.reported[(k.email, d)]
         == s.ledger.reported[(k.email, d)] + Visible(s.stats, s.counters, (k.email, d))
      && s'.ledger == s.ledger.(reported := s'.ledger.reported)
      && s'.monitor.Idle? && s'.pending == []
  {
    hide Apply, RefCounts, FlowsOk, NamesOk, RetiringOk, DeltasOk, MonitorOk, Money, Owned, Wf;
    var t := Exec(s, DrainPart(k));
    DrainPhase(s, k, d);
    assert MayFinalize(t, k);
    DetachPhase(t, k);
    ExecConcat(s, DrainPart(k), DetachPart(k));
    var u := Exec(s, DrainPart(k) + DetachPart(k));
    assert u.monitor == Clearing(s.retiring - {k}, k, s.retiring[k]) && u.retiring == s.retiring;
    ClearPhase(u, k);
    ExecConcat(s, DrainPart(k) + DetachPart(k), [ClearRetired, EndPass]);
  }

  lemma ClearPhase(u: State, k: Key)
    requires Wf(u) && u.monitor.Clearing? && u.monitor.key == k && k in u.retiring && u.retiring[k] == u.monitor.user
    ensures Exec(u, [ClearRetired, EndPass]) == u.(retiring := u.retiring - {k}, monitor := Idle)
  {
    hide Wf, Owned, Exec, DoRegister, DoRetire, DoAcquire, DoFetch, DoRelease, DoEndWriter, DoAddBytes, DoDrain,
      DoRestore, CreditAll;
    ExecNil(u);
    var steps := Extend(u, [], ClearRetired);
    steps := Extend(u, steps, EndPass);
    assert steps == [ClearRetired, EndPass];
  }

  /**
   The account of a removed user closes: in a disciplined run, once the user is no longer admitted and holds no
   reference, one undisturbed pass leaves no counter behind and every counted byte reported or discarded, except
   those that some step of the run had lost.
   */
  lemma RetiredAccountCloses(steps: seq<Step>, k: Key, d: Direction)
    requires Disciplined(steps)
    requires var s := After(steps);
      && s.toForget == {} && s.toRemember == map[] && s.monitor.Idle?
      && k in s.runtime && k !in s.current && s.active[s.runtime[k]] == 0
    ensures var s' := After(steps + SettlePass(k));
      && s'.ledger.counted[(k.email, d)]
         == s'.ledger.reported[(k.email, d)] + s'.ledger.discarded[(k.email, d)] + LostIn(steps, (k.email, d))
      && k !in s'.runtime && k !in s'.retiring
      && (k.email, Uplink) !in s'.stats && (k.email, Downlink) !in s'.stats
  {
    hide Apply, Inv, SettlePass, Disciplined, LostIn, Visible, Exec;
    AdmittedOrRetiring(steps, k);
    RunInv(steps);
    SettlesRetired(After(steps), k, d);
    ExecConcat(Init(), steps, SettlePass(k));
    TrafficAccount(steps, (k.email, d));
    IdleOwesNothing(After(steps));
  }

  lemma IdleOwesNothing(s: State)
    requires Inv(s) && s.monitor.Idle?
    ensures s.pending == []
  {
  }

  /******* A run that orphans a user *******/

  function NoBytes(): Ledger {
    Ledger(multiset{}, multiset{}, multiset{}, multiset{})
  }

  /** A new user is admitted. */
  lemma Admitted(s: State, steps: seq<Step>, k: Key) returns (longer: seq<Step>)
    requires Owned(k) && After(steps) == s && s.monitor.Idle? && s.toForget == {} && s.toRemember == map[]
    requires k !in s.runtime && k !in s.retiring
    ensures After(longer) == s.(managed := s.managed + {k.tag}, current := s.current + {k},
                                runtime := s.runtime[k := |s.active|], active := s.active + [0])
  {
    hide Owned, Wf, Exec, DoRetire, DoAcquire, DoFetch, DoRelease, DoEndWriter, DoAddBytes, DoDrain, DoRestore;
    var t := s.(managed := s.managed + {k.tag}, current := s.current + {k}, runtime := s.runtime[k := |s.active|],
                active := s.active + [0]);
    longer := Extend(Init(), steps, Register(k));
    assert After(longer) == t.(toForget := {k});
    longer := Extend(Init(), longer, Forget(k));
    assert s.retiring - {k} == s.retiring && {k} - {k} == {};
  }

  /** An admitted user is retired, and the monitor has reported and is about to finalize it. */
  lemma RetiredOnce(s: State, steps: seq<Step>, k: Key, u: UserInfo) returns (longer: seq<Step>)
    requires Owned(k) && After(steps) == s && s.monitor.Idle? && s.toForget == {} && s.toRemember == map[]
    requires s.pending == [] && k in s.runtime && k.tag in s.managed
    ensures After(longer) == s.(current := s.current - {k}, retiring := s.retiring[k := u],
                                monitor := Finalizing(s.retiring[k := u]))
  {
    hide Owned, Wf, Exec, DoRegister, DoAcquire, DoFetch, DoRelease, DoEndWriter, DoAddBytes, DoDrain, DoRestore;
    var t := s.(current := s.current - {k});
    assert s.managed + {k.tag} == s.managed;
    longer := Extend(Init(), steps, Retire(k, u));
    assert After(longer) == t.(toRemember := map[k := u]);
    longer := Extend(Init(), longer, Remember(k));
    assert After(longer) == t.(retiring := s.retiring[k := u]) by {
      assert map[k := u] - {k} == map[];
    }
    longer := Extend(Init(), longer, Snapshot);
    longer := Extend(Init(), longer, ReportOk);
  }

  /** The user is finalized and its stale list entry is still to be deleted. */
  lemma FinalizedNotCleared(k: Key, u: UserInfo) returns (steps: seq<Step>)
    requires Owned(k)
    ensures After(steps) == State({k.tag}, {}, map[], [0], map[], [], [], map[k := u], {}, map[],
                                  Clearing(map[], k, u), [], NoBytes())
  {
    hide Owned, Apply, Wf;
    var admitted := Admitted(Init(), [], k);
    assert After(admitted) == State({k.tag}, {k}, map[k := 0], [0], map[], [], [], map[], {}, map[],
                                    Idle, [], NoBytes());
    var retired := RetiredOnce(After(admitted), admitted, k, u);
    var t := After(retired);
    assert t == State({k.tag}, {}, map[k := 0], [0], map[], [], [], map[k := u], {}, map[],
                      Finalizing(map[k := u]), [], NoBytes());
    DetachPhase(t, k);
    ExecConcat(Init(), retired, DetachPart(k));
    steps := retired + DetachPart(k);
    assert map[k := u] - {k} == map[] && map[k := 0] - {k} == map[];
    assert t.stats - {(k.email, Uplink)} - {(k.email, Downlink)} == map[];
  }

  lemma ReadmittedWithFlow(k: Key, u: UserInfo) returns (steps: seq<Step>)
    requires Owned(k)
    ensures After(steps) == State({k.tag}, {k}, map[k := 1], [0, 1], map[], [], [NewFlow(k, true, 1)], map[], {}, map[],
                                  Clearing(map[], k, u), [], NoBytes())
  {
    hide Owned, Wf, Exec;
    steps := FinalizedNotCleared(k, u);
    steps := Extend(Init(), steps, Register(k));
    assert After(steps) == State({k.tag}, {k}, map[k := 1], [0, 0], map[], [], [], map[k := u], {k}, map[],
                                 Clearing(map[], k, u), [], NoBytes());
    steps := Extend(Init(), steps, Forget(k));
    assert After(steps).retiring == map[] && After(steps).toForget == {};
    steps := Extend(Init(), steps, Acquire(k));
    assert After(steps).active == [0, 1] && After(steps).managed == {k.tag};
  }

  lemma ReadmittedWithBytes(k: Key, u: UserInfo, n: nat) returns (steps: seq<Step>)
    requires Owned(k)
    ensures var s := After(steps);
      && s == State({k.tag}, {k}, map[k := 1], [0, 1], map[(k.email, Uplink) := 0], [Counter(k.email, Uplink, n)],
                    [NewFlow(k, true, 1).(up := Some(0))], map[], {}, map[], Clearing(map[], k, u), [], s.ledger)
  {
    hide Owned, Wf, Exec;
    steps := ReadmittedWithFlow(k, u);
    steps := Extend(Init(), steps, Fetch(0, Uplink));
    assert After(steps).counters == [Counter(k.email, Uplink, 0)];
    steps := Extend(Init(), steps, AddBytes(0, Uplink, n));
    assert After(steps).counters == [Counter(k.email, Uplink, n)];
  }

  /**
   The finalizer compares only the user value before it deletes the list entry. A user that is admitted and retired
   again in between is forgotten with bytes in its counter and a live flow.
   */
  lemma OrphanRun(k: Key, u: UserInfo, n: nat) returns (steps: seq<Step>)
    requires Owned(k)
    ensures var s := After(steps);
      && Orphan(s, k)
      && !Tracked(s)
      && Visible(s.stats, s.counters, (k.email, Uplink)) == n
      && |s.flows| == 1 && s.flows[0].Live()
  {
    hide Owned, Wf, Exec;
    steps := ReadmittedWithBytes(k, u, n);
    steps := Extend(Init(), steps, Retire(k, u));
    assert k in After(steps).runtime && k !in After(steps).current;
    steps := Extend(Init(), steps, Remember(k));
    assert After(steps).retiring == map[k := u] && After(steps).toRemember == map[];
    steps := Extend(Init(), steps, ClearRetired);
    assert After(steps).retiring == map[];
  }

  /******* A run with stray bytes *******/

  /** A piped flow of an admitted user, before its writers end. */
  lemma PipedFlow(k: Key) returns (steps: seq<Step>)
    requires Owned(k)
    ensures After(steps) == State({k.tag}, {k}, map[k := 0], [1], map[(k.email, Uplink) := 0],
                                  [Counter(k.email, Uplink, 0)], [NewFlow(k, true, 0).(up := Some(0), link := Piped)],
                                  map[], {}, map[], Idle, [], NoBytes())
  {
    hide Owned, Wf, Exec;
    ExecNil(Init());
    steps := Admitted(Init(), [], k);
    assert After(steps) == State({k.tag}, {k}, map[k := 0], [0], map[], [], [], map[], {}, map[],
                                 Idle, [], NoBytes());
    steps := Extend(Init(), steps, Acquire(k));
    assert After(steps).active == [1] && After(steps).managed == {k.tag};
    steps := Extend(Init(), steps, Fetch(0, Uplink));
    assert After(steps).counters == [Counter(k.email, Uplink, 0)];
    steps := Extend(Init(), steps, Attach(0, Piped));
  }

  /** Both writers have ended, and the flow has given back its reference. */
  lemma ReleasedFlow(k: Key) returns (steps: seq<Step>)
    requires Owned(k)
    ensures var f := NewFlow(k, true, 0).(up := Some(0), link := Piped, upEnded := true, downEnded := true,
                                          remaining := 0, released := true);
      After(steps) == State({k.tag}, {k}, map[k := 0], [0], map[(k.email, Uplink) := 0],
                            [Counter(k.email, Uplink, 0)], [f], map[], {}, map[], Idle, [], NoBytes())
  {
    hide Owned, Wf, Exec;
    steps := PipedFlow(k);
    steps := Extend(Init(), steps, EndWriter(0, Uplink));
    assert After(steps).flows[0].remaining == 1 && !After(steps).flows[0].released;
    steps := Extend(Init(), steps, EndWriter(0, Downlink));
  }

  /**
   A write that was under way when both writers were closed is counted after the flow gave back its reference. If the
   user is retired and finalized in between, the counter is detached and the bytes are never reported.
   */
  lemma StrayRun(k: Key, u: UserInfo, n: nat) returns (steps: seq<Step>)
    requires Owned(k)
    ensures var s := After(steps);
      && Stray(s.stats, s.counters, (k.email, Uplink)) == n
      && Visible(s.stats, s.counters, (k.email, Uplink)) == 0
      && s.ledger.counted[(k.email, Uplink)] == n == s.ledger.late[(k.email, Uplink)]
      && |s.flows| == 1 && s.flows[0].managed && s.flows[0].released
  {
    hide Owned, Wf, Exec;
    var before := ReleasedFlow(k);
    var retired := RetiredOnce(After(before), before, k, u);
    var t := After(retired);
    DetachPhase(t, k);
    ExecConcat(Init(), retired, DetachPart(k));
    steps := retired + DetachPart(k);
    assert (k.email, Uplink) !in After(steps).stats && (k.email, Downlink) !in After(steps).stats;
    steps := Extend(Init(), steps, AddBytes(0, Uplink, n));
    assert After(steps).counters == [Counter(k.email, Uplink, n)];
    assert Stored([Counter(k.email, Uplink, n)], (k.email, Uplink)) == n by {
      assert [Counter(k.email, Uplink, n)][..0] == [];
    }
  }
}
