/** Exactly which steps make bytes invisible to the monitor, and how many. */
module LifecycleLoss {
  import opened Lifecycle
  import opened LifecycleInvariant
  import opened LifecycleTheorems

  /** A write through a handle that is no longer, or was never, the registered one. */
  ghost predicate WritesAside(s: State, step: Step, x: Name)
    requires Wf(s)
  {
    && step.AddBytes? && step.flow < |s.flows| && (s.flows[step.flow].key.email, step.dir) == x
    && s.flows[step.flow].Handle(step.dir).Some?
    && !(x in s.stats && s.stats[x] == s.flows[step.flow].Handle(step.dir).value)
  }

  /** The finalizer drops a name whose counter was written to after it was found empty. */
  ghost predicate DropsBytes(s: State, step: Step, x: Name)
    requires Wf(s)
  {
    step.Unregister? && s.monitor.Detaching? && (s.monitor.key.email, step.dir) == x && x in s.stats
  }

  /** Bytes one step puts out of the monitor's sight. */
  ghost function Lost(s: State, step: Step, x: Name): int
    requires Wf(s)
  {
    if WritesAside(s, step, x) then step.bytes
    else if DropsBytes(s, step, x) then s.counters[s.stats[x]].value
    else 0
  }

  lemma AddStray(s: State, i: nat, d: Direction, n: nat, x: Name)
    requires Inv(s) && i < |s.flows| && s.flows[i].Handle(d).Some?
    ensures var s' := DoAddBytes(s, i, d, n);
      Stray(s'.stats, s'.counters, x) == Stray(s.stats, s.counters, x) + Lost(s, AddBytes(i, d, n), x)
  {
    hide Owned, RefCounts, FlowsOk, RuntimesOk, RetiringOk, DeltasOk, MonitorOk, Money, Stored, Visible;
    HandleEmail(s, i, d);
    var c := s.flows[i].Handle(d).value;
    StoredUpdate(s.counters, c, s.counters[c].(value := s.counters[c].value + n), x);
    VisibleUpdate(s.stats, s.counters, c, s.counters[c].value + n, x);
  }

  lemma FetchStray(s: State, name: Name, x: Name)
    requires Inv(s)
    ensures var s' := EnsureCounter(s, name); Stray(s'.stats, s'.counters, x) == Stray(s.stats, s.counters, x)
  {
    hide Owned, RefCounts, FlowsOk, RuntimesOk, RetiringOk, DeltasOk, MonitorOk, Money;
    var s' := EnsureCounter(s, name);
    if name !in s.stats {
      assert s'.counters[..|s.counters|] == s.counters;
    }
  }

  /** Taking bytes from a registered counter, or giving them back to one, moves no byte out of sight. */
  lemma MoveStray(s: State, c: nat, v: int, x: Name)
    requires Inv(s) && c < |s.counters| && s.counters[c].Name() in s.stats && s.stats[s.counters[c].Name()] == c
    ensures var counters := s.counters[c := s.counters[c].(value := v)];
      Stray(s.stats, counters, x) == Stray(s.stats, s.counters, x)
  {
    hide Owned, RefCounts, FlowsOk, RuntimesOk, RetiringOk, DeltasOk, MonitorOk, Money, Stored, Visible;
    StoredUpdate(s.counters, c, s.counters[c].(value := v), x);
    VisibleUpdate(s.stats, s.counters, c, v, x);
  }

  lemma DrainStray(s: State, e: string, d: Direction, x: Name)
    requires Inv(s)
    ensures var s' := DoDrain(s, e, d); Stray(s'.stats, s'.counters, x) == Stray(s.stats, s.counters, x)
  {
    hide Owned, RefCounts, FlowsOk, RuntimesOk, RetiringOk, DeltasOk, MonitorOk, Money, Stray;
    if (e, d) in s.stats {
      MoveStray(s, s.stats[(e, d)], 0, x);
    }
  }

  lemma RestoreStray(s: State, x: Name)
    requires Inv(s)
    ensures var s' := DoRestore(s); Stray(s'.stats, s'.counters, x) == Stray(s.stats, s.counters, x)
  {
    hide Owned, RefCounts, FlowsOk, RuntimesOk, RetiringOk, MonitorOk, Money, Stray;
    if s.pending != [] {
      var c := s.pending[0].counter;
      MoveStray(s, c, s.counters[c].value + s.pending[0].value, x);
    }
  }

  lemma UnregisterStray(s: State, d: Direction, x: Name)
    requires Inv(s) && s.monitor.Detaching?
    ensures var stats := s.stats - {(s.monitor.key.email, d)};
      Stray(stats, s.counters, x) == Stray(s.stats, s.counters, x) + Lost(s, Unregister(d), x)
  {
    hide Owned, RefCounts, FlowsOk, RuntimesOk, RetiringOk, DeltasOk, MonitorOk, Money, Stored;
  }

  lemma OtherFrame(s: State, step: Step)
    requires Wf(s)
    requires !step.AddBytes? && !step.Fetch? && !step.Drain? && !step.Restore? && !step.Unregister?
    ensures Apply(s, step).stats == s.stats && Apply(s, step).counters == s.counters
  {
    hide Wf, Owned, MayFinalize, CreditAll;
  }

  /** Every step adds to the stray bytes exactly what it loses. */
  lemma StepStray(s: State, step: Step, x: Name)
    requires Inv(s)
    ensures var s' := Apply(s, step);
      Stray(s'.stats, s'.counters, x) == Stray(s.stats, s.counters, x) + Lost(s, step, x)
  {
    hide Owned, RefCounts, FlowsOk, NamesOk, RuntimesOk, RetiringOk, DeltasOk, MonitorOk, Money, Stray, MayFinalize,
      CreditAll, DoAddBytes, EnsureCounter, DoDrain, DoRestore, DoRelease, DoEndWriter, DoAcquire, DoRegister,
      DoRetire;
    match step
    case AddBytes(i, d, n) =>
      if i < |s.flows| && s.flows[i].Handle(d).Some? {
        AddStray(s, i, d, n, x);
      }
    case Fetch(i, d) =>
      if i < |s.flows| {
        FetchStray(s, (s.flows[i].key.email, d), x);
      }
    case Drain(e, d) => DrainStray(s, e, d, x);
    case Restore => RestoreStray(s, x);
    case Unregister(d) =>
      if s.monitor.Detaching? {
        UnregisterStray(s, d, x);
      }
    case _ => OtherFrame(s, step);
  }

  /** Bytes a run loses, step by step. */
  ghost function LostIn(steps: seq<Step>, x: Name): int {
    if steps == [] then 0
    else
      var before := steps[..|steps| - 1];
      LostIn(before, x) + Lost(After(before), steps[|steps| - 1], x)
  }

  lemma {:induction false} StrayIsLost(steps: seq<Step>, x: Name)
    ensures var s := After(steps); Stray(s.stats, s.counters, x) == LostIn(steps, x)
    decreases |steps|
  {
    hide Inv, Lost, Stray, Apply;
    if steps == [] {
      NothingStored(x);
    } else {
      var before := steps[..|steps| - 1];
      assert steps == before + [steps[|steps| - 1]];
      StrayIsLost(before, x);
      RunInv(before);
      Snoc(before, steps[|steps| - 1]);
      StepStray(After(before), steps[|steps| - 1], x);
    }
  }

  lemma NothingStored(x: Name)
    ensures Stray(After([]).stats, After([]).counters, x) == 0
  {
  }

  /** The full account: what is not reported, discarded, drained or visible is what the run's steps lost. */
  lemma TrafficAccount(steps: seq<Step>, x: Name)
    ensures var s := After(steps);
      s.ledger.counted[x] == s.ledger.reported[x] + s.ledger.discarded[x] + Drained(s.pending, x)
                             + Visible(s.stats, s.counters, x) + LostIn(steps, x)
  {
    hide After, LostIn, Visible, Drained, Stray;
    TrafficConserved(steps, x);
    StrayIsLost(steps, x);
  }

  /** A step loses bytes: something is written aside, or a name goes with bytes in its counter. */
  ghost predicate Strays(s: State, step: Step, x: Name)
    requires Wf(s)
  {
    || (WritesAside(s, step, x) && step.bytes > 0)
    || (DropsBytes(s, step, x) && s.counters[s.stats[x]].value > 0)
  }

  lemma LostWhenStrays(s: State, step: Step, x: Name)
    requires Inv(s)
    ensures Lost(s, step, x) >= 0
    ensures Lost(s, step, x) > 0 <==> Strays(s, step, x)
  {
    hide RefCounts, FlowsOk, RuntimesOk, RetiringOk, DeltasOk, MonitorOk, Money;
  }

  lemma {:induction false} LostPrefixes(steps: seq<Step>, x: Name, m: nat)
    requires m <= |steps|
    ensures LostIn(steps[..m], x) >= 0
    ensures LostIn(steps[..m], x) == 0
       <==> forall n :: 0 <= n < m ==> !Strays(After(steps[..n]), steps[n], x)
  {
    hide Inv, Lost, Strays, After;
    if m == 0 {
      assert steps[..0] == [];
    } else {
      LostPrefixes(steps, x, m - 1);
      RunInv(steps[..m - 1]);
      LostWhenStrays(After(steps[..m - 1]), steps[m - 1], x);
      assert steps[..m][..m - 1] == steps[..m - 1];
    }
  }

  /**
   Nothing counted under a name is lost if and only if, throughout the run, no flow wrote under it through a handle
   that is not the registered one and the finalizer never dropped the name with bytes in its counter.
   */
  lemma NothingLostIff(steps: seq<Step>, x: Name)
    ensures (var s := After(steps);
             s.ledger.counted[x] == s.ledger.reported[x] + s.ledger.discarded[x] + Drained(s.pending, x)
                                    + Visible(s.stats, s.counters, x))
       <==> forall n :: 0 <= n < |steps| ==> !Strays(After(steps[..n]), steps[n], x)
  {
    hide After, LostIn, Visible, Drained, Strays;
    TrafficAccount(steps, x);
    LostPrefixes(steps, x, |steps|);
    assert steps[..|steps|] == steps;
  }

  /** A flow that holds a managed reference never writes aside. */
  lemma LiveWritesStayVisible(steps: seq<Step>, i: nat, d: Direction, n: nat, x: Name)
    requires i < |After(steps).flows| && After(steps).flows[i].Live()
    ensures !WritesAside(After(steps), AddBytes(i, d, n), x)
  {
    HandleSafety(steps, i, d);
  }
}
