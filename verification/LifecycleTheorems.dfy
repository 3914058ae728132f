/** What holds in every run of the lifecycle system. */
module LifecycleTheorems {
  import opened Lifecycle
  import opened LifecycleInvariant

  /** The state a run reaches from a freshly started process. */
  ghost function After(steps: seq<Step>): (s: State)
    ensures Wf(s)
  {
    Exec(Init(), steps)
  }

  lemma {:induction false} RunInv(steps: seq<Step>)
    ensures Inv(After(steps))
    decreases |steps|
  {
    hide RefCounts, FlowsOk, NamesOk, RuntimesOk, RetiringOk, DeltasOk, MonitorOk, Money, Apply;
    if steps == [] {
      InitInv();
    } else {
      RunInv(steps[..|steps| - 1]);
      StepInv(After(steps[..|steps| - 1]), steps[|steps| - 1]);
    }
  }

  lemma Snoc(steps: seq<Step>, step: Step)
    ensures After(steps + [step]) == Apply(After(steps), step)
  {
    hide Apply;
    assert (steps + [step])[..|steps + [step]| - 1] == steps;
  }

  /******* Conservation *******/

  /**
   Every byte counted for a user in one direction is reported, discarded because uploads are disabled, drained and
   waiting for its report, in a counter the monitor can see, or stray. Stray bytes are at most those written by flows
   that no longer hold a reference or never had a managed one.
   */
  lemma TrafficConserved(steps: seq<Step>, e: Name)
    ensures var s := After(steps);
      && s.ledger.counted[e] == s.ledger.reported[e] + s.ledger.discarded[e] + Drained(s.pending, e)
                                + Visible(s.stats, s.counters, e) + Stray(s.stats, s.counters, e)
      && 0 <= Stray(s.stats, s.counters, e) <= s.ledger.late[e]
  {
    RunInv(steps);
    var s := After(steps);
    assert Balanced(s.ledger, s.pending, s.stats, s.counters, s.monitor, e);
    assert 0 <= Visible(s.stats, s.counters, e);
  }

  /** As long as only live flows write, nothing is ever lost. */
  lemma NothingLost(steps: seq<Step>, e: Name)
    requires After(steps).ledger.late[e] == 0
    ensures var s := After(steps);
      s.ledger.counted[e]
      == s.ledger.reported[e] + s.ledger.discarded[e] + Drained(s.pending, e) + Visible(s.stats, s.counters, e)
  {
    TrafficConserved(steps, e);
  }

  /** Counters never go negative, so the branch that puts a negative value back is dead. */
  lemma CountersNonNegative(steps: seq<Step>, c: nat)
    requires c < |After(steps).counters|
    ensures After(steps).counters[c].value >= 0
  {
    RunInv(steps);
  }

  /******* Handles and references *******/

  /** The runtime and the counters a live flow uses are the ones the registry and the stats manager know. */
  lemma HandleSafety(steps: seq<Step>, i: nat, d: Direction)
    requires i < |After(steps).flows| && After(steps).flows[i].Live()
    ensures var s := After(steps); var f := s.flows[i];
      && f.key in s.runtime && s.runtime[f.key] == f.runtime
      && (f.Handle(d).Some? ==> (f.key.email, d) in s.stats && s.stats[(f.key.email, d)] == f.Handle(d).value)
  {
    RunInv(steps);
    var s := After(steps);
    assert FlowOk(s.flows[i], s.runtime, s.stats, s.counters);
  }

  /** A delta that may be given back goes to a counter that is still registered. */
  lemma RestoreIsVisible(steps: seq<Step>, j: nat)
    requires j < |After(steps).pending|
    ensures var s := After(steps); var delta := s.pending[j];
      delta.Name() in s.stats && s.stats[delta.Name()] == delta.counter
  {
    RunInv(steps);
  }

  /** Each reference count equals the number of unreleased flows, and a release never meets a zero count. */
  lemma ReferencesExact(steps: seq<Step>)
    ensures var s := After(steps);
      && (forall r :: 0 <= r < |s.active| ==> s.active[r] == Holders(s.flows, r))
      && (forall i :: 0 <= i < |s.flows| && !s.flows[i].released ==> s.active[s.flows[i].runtime] > 0)
      && (forall i :: 0 <= i < |s.flows| && s.flows[i].link.Piped? ==>
            (s.flows[i].released <==> s.flows[i].upEnded && s.flows[i].downEnded))
  {
    RunInv(steps);
    var s := After(steps);
    forall i | 0 <= i < |s.flows|
      ensures !s.flows[i].released ==> s.active[s.flows[i].runtime] > 0
      ensures s.flows[i].link.Piped? ==> (s.flows[i].released <==> s.flows[i].upEnded && s.flows[i].downEnded)
    {
      assert FlowOk(s.flows[i], s.runtime, s.stats, s.counters);
      if !s.flows[i].released {
        HolderCounts(s.flows, i);
      }
    }
  }

  /******* No orphaned counters *******/

  /** Some list the monitor walks, or is about to walk, names every key that owns a runtime. */
  ghost predicate Tracked(s: State) {
    forall k :: k in s.runtime ==> k in s.current || k in s.retiring || k in s.toRemember
  }

  /** The finalized user was admitted and retired again before its stale list entry is deleted. */
  ghost predicate ClearRace(s: State) {
    && s.monitor.Clearing?
    && s.monitor.key in s.retiring && s.retiring[s.monitor.key] == s.monitor.user
    && s.monitor.key in s.runtime
    && s.monitor.key !in s.current && s.monitor.key !in s.toRemember
  }

  lemma StepTracked(s: State, step: Step)
    requires Inv(s) && Tracked(s)
    ensures Tracked(Apply(s, step)) <==> !(step.ClearRetired? && ClearRace(s))
  {
    hide Wf, RefCounts, FlowsOk, NamesOk, DeltasOk, Money, MonitorOk, RuntimesOk, Owned, MayFinalize, CreditAll,
      DoFetch, DoRelease, DoEndWriter, DoAddBytes, DoDrain;
    var s' := Apply(s, step);
    if step.ClearRetired? && ClearRace(s) {
      assert s.monitor.key in s'.runtime && s.monitor.key !in s'.retiring;
    }
  }

  /** Every key keeps being visited throughout a run exactly when no stale deletion hits a re-retired key. */
  lemma NoOrphans(steps: seq<Step>)
    ensures (forall n :: 0 <= n <= |steps| ==> Tracked(After(steps[..n])))
       <==> (forall n :: 0 <= n < |steps| ==> !(steps[n].ClearRetired? && ClearRace(After(steps[..n]))))
  {
    hide Apply, Tracked, ClearRace, Inv, After;
    if forall n :: 0 <= n < |steps| ==> !(steps[n].ClearRetired? && ClearRace(After(steps[..n]))) {
      forall n | 0 <= n <= |steps| ensures Tracked(After(steps[..n])) {
        TrackedPrefix(steps, n);
      }
    }
    if forall n :: 0 <= n <= |steps| ==> Tracked(After(steps[..n])) {
      forall n | 0 <= n < |steps| ensures !(steps[n].ClearRetired? && ClearRace(After(steps[..n]))) {
        assert Tracked(After(steps[..n])) && Tracked(After(steps[..n + 1]));
        OneMore(steps, n);
        StepTracked(After(steps[..n]), steps[n]);
      }
    }
  }

  lemma OneMore(steps: seq<Step>, n: nat)
    requires n < |steps|
    ensures After(steps[..n + 1]) == Apply(After(steps[..n]), steps[n])
    ensures Inv(After(steps[..n]))
  {
    hide Apply, Inv;
    assert steps[..n + 1] == steps[..n] + [steps[n]];
    Snoc(steps[..n], steps[n]);
    RunInv(steps[..n]);
  }

  lemma {:induction false} TrackedPrefix(steps: seq<Step>, n: nat)
    requires n <= |steps|
    requires forall m :: 0 <= m < |steps| ==> !(steps[m].ClearRetired? && ClearRace(After(steps[..m])))
    ensures Tracked(After(steps[..n]))
  {
    hide Apply, ClearRace, Inv;
    if n == 0 {
      assert steps[..0] == [];
    } else {
      TrackedPrefix(steps, n - 1);
      OneMore(steps, n - 1);
      StepTracked(After(steps[..n - 1]), steps[n - 1]);
    }
  }

  /** A discipline the node monitor could keep: it retires no key whose stale entry is about to be deleted. */
  ghost predicate Disciplined(steps: seq<Step>) {
    forall n :: 0 <= n < |steps| && steps[n].Retire? ==>
      !(After(steps[..n]).monitor.Clearing? && After(steps[..n]).monitor.key == steps[n].key)
  }

  /** The key whose entry is to be deleted has no runtime, unless it has been admitted anew. */
  ghost predicate ClearingGone(s: State) {
    s.monitor.Clearing? ==> s.monitor.key !in s.runtime || s.monitor.key in s.current
  }

  lemma StepClearingGone(s: State, step: Step)
    requires Wf(s) && ClearingGone(s)
    requires !(step.Retire? && s.monitor.Clearing? && s.monitor.key == step.key)
    ensures ClearingGone(Apply(s, step))
  {
    hide Wf, Owned, MayFinalize, CreditAll, DoFetch, DoRelease, DoEndWriter, DoAddBytes, DoDrain;
  }

  lemma {:induction false} RunClearingGone(steps: seq<Step>, n: nat)
    requires Disciplined(steps) && n <= |steps|
    ensures ClearingGone(After(steps[..n]))
  {
    hide Apply, Inv, Wf;
    if n == 0 {
      assert steps[..0] == [];
    } else {
      RunClearingGone(steps, n - 1);
      OneMore(steps, n - 1);
      StepClearingGone(After(steps[..n - 1]), steps[n - 1]);
    }
  }

  /**
   Under that discipline, whenever the node monitor is between operations, a key with a runtime is either admitted
   or retiring and never both, and every admitted key has a runtime.
   */
  lemma AdmittedOrRetiring(steps: seq<Step>, k: Key)
    requires Disciplined(steps)
    requires After(steps).toForget == {} && After(steps).toRemember == map[]
    ensures var s := After(steps);
      && (k in s.runtime ==> k in s.current || k in s.retiring)
      && !(k in s.current && k in s.retiring)
      && (k in s.current ==> k in s.runtime)
  {
    hide Apply;
    forall n | 0 <= n < |steps| ensures !(steps[n].ClearRetired? && ClearRace(After(steps[..n]))) {
      RunClearingGone(steps, n);
    }
    NoOrphans(steps);
    RunInv(steps);
    assert steps[..|steps|] == steps;
  }

  /** Owns a runtime, and no list the monitor holds or will snapshot names it. */
  ghost predicate Orphan(s: State, k: Key) {
    && k in s.runtime && k !in s.current && k !in s.retiring && k !in s.toRemember
    && (s.monitor.Draining? || s.monitor.Finalizing? || s.monitor.Detaching? || s.monitor.Clearing? ==>
          k !in s.monitor.snapshot)
    && (s.monitor.Detaching? ==> s.monitor.key != k)
  }

  lemma StepOrphan(s: State, step: Step, k: Key)
    requires Wf(s) && Orphan(s, k)
    requires !((step.Register? || step.Retire?) && step.key == k)
    ensures Orphan(Apply(s, step), k)
  {
    hide Wf, Owned, MayFinalize, CreditAll, DoFetch, DoRelease, DoEndWriter, DoAddBytes, DoDrain;
  }

  /** An orphan is never visited again: only a new registration or retirement of the key ends it. */
  lemma {:induction false} OrphanForever(s: State, steps: seq<Step>, k: Key)
    requires Wf(s) && Orphan(s, k)
    requires forall n :: 0 <= n < |steps| && (steps[n].Register? || steps[n].Retire?) ==> steps[n].key != k
    ensures Orphan(Exec(s, steps), k)
    decreases |steps|
  {
    hide Apply, Wf;
    if steps != [] {
      OrphanForever(s, steps[..|steps| - 1], k);
      StepOrphan(Exec(s, steps[..|steps| - 1]), steps[|steps| - 1], k);
    }
  }
}
