/** What one whole pass of the user monitor does, for any list of current and retired users. */
module MonitorPass {
  import opened UserKey
  import opened Lifecycle
  import opened LifecycleInvariant
  import opened LifecycleRuns
  import opened Controller

  /******* A failed report changes nothing *******/

  /** Bytes taken from one counter and not given back. */
  function Owed(pending: seq<Delta>, c: nat): int {
    if pending == [] then 0
    else
      var last := pending[|pending| - 1];
      Owed(pending[..|pending| - 1], c) + if last.counter == c then last.value else 0
  }

  lemma {:induction false} OwedHead(pending: seq<Delta>, c: nat)
    requires pending != []
    ensures Owed(pending, c) == (if pending[0].counter == c then pending[0].value else 0) + Owed(pending[1..], c)
  {
    var n := |pending| - 1;
    if n > 0 {
      OwedHead(pending[..n], c);
      assert pending[..n][1..] == pending[1..][..n - 1];
    } else {
      assert pending[1..] == [];
    }
  }

  predicate AccountedAt(was: seq<Counter>, now: seq<Counter>, pending: seq<Delta>, c: nat)
    requires c < |was| && c < |now|
  {
    was[c] == now[c].(value := now[c].value + Owed(pending, c))
  }

  /** Giving back all that is owed would restore the counters; nothing else has changed. */
  ghost predicate Accounted(s0: State, s: State) {
    && s == s0.(counters := s.counters, pending := s.pending, monitor := s.monitor)
    && |s.counters| == |s0.counters|
    && forall c :: 0 <= c < |s.counters| ==> AccountedAt(s0.counters, s.counters, s.pending, c)
  }

  lemma DrainAccounted(s0: State, s: State, e: string, d: Direction)
    requires Wf(s) && Accounted(s0, s) && s.monitor.Draining?
    ensures Accounted(s0, Apply(s, Drain(e, d)))
    ensures Apply(s, Drain(e, d)).monitor == s.monitor
  {
    hide RuntimeIds, FlowIds, DeltaIds;
    var s' := Apply(s, Drain(e, d));
    if s' != s {
      assert s'.pending[..|s.pending|] == s.pending;
      forall c | 0 <= c < |s'.counters|
        ensures AccountedAt(s0.counters, s'.counters, s'.pending, c)
      {
        assert AccountedAt(s0.counters, s.counters, s.pending, c);
      }
    }
  }

  lemma RestoreAccounted(s0: State, s: State)
    requires Wf(s) && Accounted(s0, s) && s.monitor.Restoring? && s.pending != []
    ensures var s' := Apply(s, Restore); Accounted(s0, s') && s'.monitor == s.monitor && s'.pending == s.pending[1..]
  {
    hide RuntimeIds, FlowIds, StatsIds;
    var s' := Apply(s, Restore);
    forall c | 0 <= c < |s'.counters|
      ensures AccountedAt(s0.counters, s'.counters, s'.pending, c)
    {
      assert AccountedAt(s0.counters, s.counters, s.pending, c);
      OwedHead(s.pending, c);
    }
  }

  lemma {:induction false} DrainRun(s0: State, s: State, entries: seq<Entry>)
    requires Wf(s) && Accounted(s0, s) && s.monitor.Draining?
    ensures Accounted(s0, Exec(s, DrainSteps(entries)))
    ensures Exec(s, DrainSteps(entries)).monitor == s.monitor
  {
    hide Apply, Wf, Accounted, FormatUserKey, Exec;
    if entries == [] {
      NoSteps(s, DrainSteps(entries));
    } else {
      var n := |entries| - 1;
      DrainRun(s0, s, entries[..n]);
      DrainStepsSnoc(s, entries, n);
      assert entries[..n + 1] == entries;
      var t := Exec(s, DrainSteps(entries[..n]));
      DrainAccounted(s0, t, entries[n].Email(), Uplink);
      DrainAccounted(s0, Apply(t, Drain(entries[n].Email(), Uplink)), entries[n].Email(), Downlink);
    }
  }

  lemma {:induction false} RestoreRun(s0: State, s: State, steps: seq<Step>, n: nat)
    requires Wf(s) && Accounted(s0, s) && s.monitor.Restoring?
    requires n <= |s.pending| && steps == seq(|s.pending| + 1, i => Restore)
    ensures var t := Exec(s, steps[..n]);
      Accounted(s0, t) && t.monitor.Restoring? && t.pending == s.pending[n..]
  {
    hide Apply, Wf, Accounted;
    if n == 0 {
      NoSteps(s, steps[..0]);
    } else {
      RestoreRun(s0, s, steps, n - 1);
      Unroll(s, steps, n - 1);
      RestoreAccounted(s0, Exec(s, steps[..n - 1]));
    }
  }

  lemma NothingOwed(s0: State, s: State)
    requires Accounted(s0, s) && s.pending == [] && s0.pending == [] && s.monitor == s0.monitor
    ensures s == s0
  {
    forall c | 0 <= c < |s.counters|
      ensures s.counters[c] == s0.counters[c]
    {
      assert AccountedAt(s0.counters, s.counters, s.pending, c);
    }
  }

  lemma RestoreEnds(s0: State, s: State)
    requires Wf(s) && Accounted(s0, s) && s.monitor.Restoring? && s0.pending == [] && s0.monitor.Idle?
    ensures Exec(s, seq(|s.pending| + 1, i => Restore)) == s0
  {
    hide Wf, Exec;
    var steps := seq(|s.pending| + 1, i => Restore);
    var n := |s.pending|;
    RestoreRun(s0, s, steps, n);
    Unroll(s, steps, n);
    assert steps[..n + 1] == steps;
    var t := Exec(s, steps[..n]);
    NothingOwed(s0, t.(monitor := Idle));
  }

  /** A pass whose report fails or panics gives every byte back to the counter it came from, whatever was drained. */
  lemma FailedPassInvisible(s: State, entries: seq<Entry>, retired: seq<Entry>)
    requires Wf(s) && s.monitor.Idle? && s.pending == []
    ensures var drained := Exec(s, [Snapshot] + DrainSteps(entries)).pending;
      Exec(s, PassSteps(entries, retired, false, false, |drained|)) == s
  {
    hide Wf, Exec, DrainSteps, Accounted;
    var before := [Snapshot] + DrainSteps(entries);
    SnapshotFirst(s);
    ExecConcat(s, [Snapshot], DrainSteps(entries));
    StartAccounted(s);
    var s1 := Exec(s, [Snapshot]);
    DrainRun(s, s1, entries);
    var t := Exec(s, before);
    var restores := seq(|t.pending| + 1, i => Restore);
    ExecConcat(s, before, [ReportFails] + restores);
    ExecConcat(t, [ReportFails], restores);
    FailStep(s, t);
    RestoreEnds(s, Exec(t, [ReportFails]));
    assert PassSteps(entries, retired, false, false, |t.pending|) == before + ([ReportFails] + restores);
  }

  lemma StartAccounted(s: State)
    requires Wf(s) && s.monitor.Idle? && s.pending == []
    ensures var t := Apply(s, Snapshot); Accounted(s, t) && t.monitor.Draining?
  {
    hide Wf;
  }

  lemma FailStep(s0: State, t: State)
    requires Wf(t) && Accounted(s0, t) && t.monitor.Draining?
    ensures var u := Exec(t, [ReportFails]); Accounted(s0, u) && u.monitor.Restoring? && u.pending == t.pending
  {
    hide Wf;
    assert [ReportFails][..0] == [];
  }

  /**
   What is settled where: with uploads disabled all drained bytes are discarded and none reported, after an accepted
   report all are reported and none discarded, and either way nothing is left to give back and the counters stay.
   */
  lemma SettlingIs(s: State, disabled: bool, x: Name)
    requires Inv(s) && s.monitor.Draining?
    ensures var t := Exec(s, FlushSteps(disabled, true, |s.pending|));
      && t == s.(monitor := Finalizing(s.monitor.snapshot), pending := [], ledger := t.ledger)
      && t.ledger.counted == s.ledger.counted && t.ledger.late == s.ledger.late
      && t.ledger.discarded[x] == s.ledger.discarded[x] + (if disabled then Drained(s.pending, x) else 0)
      && t.ledger.reported[x] == s.ledger.reported[x] + (if disabled then 0 else Drained(s.pending, x))
  {
    hide RefCounts, FlowsOk, NamesOk, RuntimesOk, RetiringOk, MonitorOk, Money, Wf;
    var steps := FlushSteps(disabled, true, |s.pending|);
    assert steps[..0] == [];
    CreditAllSum(s.ledger.discarded, s.pending, x);
    CreditAllSum(s.ledger.reported, s.pending, x);
  }

  /******* A settled report finalizes every idle retired user, and no other *******/

  lemma {:induction false} RunKeepsInv(s: State, steps: seq<Step>)
    requires Inv(s)
    ensures Inv(Exec(s, steps))
    decreases |steps|
  {
    hide RefCounts, FlowsOk, NamesOk, RuntimesOk, RetiringOk, DeltasOk, MonitorOk, Money, Apply;
    if steps != [] {
      RunKeepsInv(s, steps[..|steps| - 1]);
      StepInv(Exec(s, steps[..|steps| - 1]), steps[|steps| - 1]);
    }
  }

  lemma DrainBoth(s: State, e: string)
    requires Inv(s) && s.monitor.Draining?
    ensures var t := Apply(Apply(s, Drain(e, Uplink)), Drain(e, Downlink));
      && Empty(t, e, Uplink) && Empty(t, e, Downlink)
      && t == s.(counters := t.counters, pending := t.pending)
  {
    hide Inv, Apply, Empty;
    DrainEmpties(s, e, Uplink);
    StepInv(s, Drain(e, Uplink));
    InvWf(s);
    var s1 := Apply(s, Drain(e, Uplink));
    InvWf(s1);
    DrainEmpties(s1, e, Downlink);
    DrainKeepsEmpty(s1, e, Uplink, e, Downlink);
  }

  lemma InvWf(s: State)
    requires Inv(s)
    ensures Wf(s)
  {
  }

  lemma {:induction false} DrainedAll(s: State, entries: seq<Entry>, i: nat, d: Direction)
    requires Inv(s) && s.monitor.Draining? && i < |entries|
    ensures var t := Exec(s, DrainSteps(entries));
      && t == s.(counters := t.counters, pending := t.pending)
      && Empty(t, entries[i].Email(), d)
    decreases |entries|
  {
    hide Inv, Apply, Empty, FormatUserKey, DrainSteps, Wf;
    InvWf(s);
    var n := |entries| - 1;
    DrainStepsSnoc(s, entries, n);
    assert entries[..n + 1] == entries;
    var t := Exec(s, DrainSteps(entries[..n]));
    RunKeepsInv(s, DrainSteps(entries[..n]));
    if n == 0 {
      NothingToDrain(s, entries[..0]);
    } else {
      DrainedAll(s, entries[..n], if i < n then i else 0, d);
    }
    var e := entries[n].Email();
    DrainBoth(t, e);
    if i < n {
      DrainKeepsEmpty(t, entries[i].Email(), d, e, Uplink);
      DrainFrame(t, e, Uplink);
      DrainKeepsEmpty(Apply(t, Drain(e, Uplink)), entries[i].Email(), d, e, Downlink);
    }
  }

  lemma NothingToDrain(s: State, none: seq<Entry>)
    requires Wf(s) && none == []
    ensures Exec(s, DrainSteps(none)) == s
  {
    NoSteps(s, DrainSteps(none));
  }

  lemma DrainFrame(s: State, e: string, d: Direction)
    requires Wf(s)
    ensures Apply(s, Drain(e, d)).monitor == s.monitor
  {
    hide Wf;
  }

  /** On the list the monitor walks, unchanged since its snapshot. */
  ghost predicate Filed(t: State, k: Key) {
    && t.monitor.Finalizing? && Owned(k)
    && k in t.retiring && k in t.monitor.snapshot && t.retiring[k] == t.monitor.snapshot[k]
  }

  ghost predicate Settled(t: State, k: Key) {
    k !in t.runtime && k !in t.retiring && (k.email, Uplink) !in t.stats && (k.email, Downlink) !in t.stats
  }

  function FinalizeTry(k: Key): seq<Step> {
    DetachPart(k) + [ClearRetired]
  }

  lemma TrySelf(t: State, k: Key)
    requires Wf(t) && Filed(t, k)
    ensures var u := Exec(t, FinalizeTry(k));
      && u.monitor.Finalizing?
      && (MayFinalize(t, k) ==>
        && u == t.(stats := t.stats - {(k.email, Uplink)} - {(k.email, Downlink)}, runtime := t.runtime - {k},
                   retiring := t.retiring - {k}, monitor := Finalizing(t.monitor.snapshot - {k})))
      && (!MayFinalize(t, k) ==> u == t)
  {
    hide Wf, MayFinalize, Exec, Owned, DetachPart;
    ClearAfter(t, k);
    if MayFinalize(t, k) {
      DetachPhase(t, k);
    } else {
      NotIdlePhase(t, k);
    }
  }

  /** Trying one key leaves the standing of every other key alone. */
  lemma TryOther(t: State, k: Key, k': Key)
    requires Wf(t) && Filed(t, k) && k' != k && Owned(k')
    ensures var u := Exec(t, FinalizeTry(k));
      && (MayFinalize(u, k') <==> MayFinalize(t, k'))
      && (k' in u.runtime <==> k' in t.runtime)
      && (Filed(t, k') ==> Filed(u, k'))
      && (k' in t.retiring ==> k' in u.retiring)
      && (Settled(t, k') ==> Settled(u, k'))
  {
    hide Wf, Exec, TagOf, FinalizeTry;
    TrySelf(t, k);
    assert k.email != k'.email;
  }

  lemma {:induction false} FinalizePrefix(t: State, keys: seq<Key>, n: nat, j: nat)
    requires Wf(t) && n <= |keys| && j < |keys| && NoDuplicates(keys) && t.monitor.Finalizing?
    requires forall i :: 0 <= i < |keys| ==> Filed(t, keys[i]) && Owned(keys[i])
    ensures var u := Exec(t, FinalizeSteps(keys[..n]));
      && u.monitor.Finalizing?
      && (n <= j ==>
        && Filed(u, keys[j]) && (MayFinalize(u, keys[j]) <==> MayFinalize(t, keys[j]))
        && (keys[j] in u.runtime <==> keys[j] in t.runtime))
      && (n > j ==>
        if MayFinalize(t, keys[j]) then Settled(u, keys[j])
        else keys[j] in u.retiring && (keys[j] in u.runtime <==> keys[j] in t.runtime))
  {
    hide Wf, MayFinalize, Exec, Owned, DetachPart, FinalizeSteps, Filed;
    if n == 0 {
      NothingToFinalize(t, keys[..0]);
    } else {
      FinalizePrefix(t, keys, n - 1, j);
      FinalizePrefix(t, keys, n - 1, n - 1);
      FinalizeStepsSnoc(t, keys, n - 1);
      var u := Exec(t, FinalizeSteps(keys[..n - 1]));
      FinalizeNext(t, u, keys, n - 1, j);
    }
  }

  lemma NothingToFinalize(t: State, none: seq<Key>)
    requires Wf(t) && none == []
    ensures Exec(t, FinalizeSteps(none)) == t
  {
    NoSteps(t, FinalizeSteps(none));
  }

  lemma FinalizeNext(t: State, u: State, keys: seq<Key>, n: nat, j: nat)
    requires Wf(t) && Wf(u) && n < |keys| && j < |keys| && NoDuplicates(keys)
    requires Filed(u, keys[n]) && Owned(keys[j]) && (MayFinalize(u, keys[n]) <==> MayFinalize(t, keys[n]))
    requires (keys[n] in u.runtime <==> keys[n] in t.runtime)
    requires n <= j ==>
      && Filed(u, keys[j]) && (MayFinalize(u, keys[j]) <==> MayFinalize(t, keys[j]))
      && (keys[j] in u.runtime <==> keys[j] in t.runtime)
    requires n > j ==>
      if MayFinalize(t, keys[j]) then Settled(u, keys[j])
      else keys[j] in u.retiring && (keys[j] in u.runtime <==> keys[j] in t.runtime)
    ensures var v := Exec(u, FinalizeTry(keys[n]));
      && v.monitor.Finalizing?
      && (n + 1 <= j ==>
        && Filed(v, keys[j]) && (MayFinalize(v, keys[j]) <==> MayFinalize(t, keys[j]))
        && (keys[j] in v.runtime <==> keys[j] in t.runtime))
      && (n + 1 > j ==>
        if MayFinalize(t, keys[j]) then Settled(v, keys[j])
        else keys[j] in v.retiring && (keys[j] in v.runtime <==> keys[j] in t.runtime))
  {
    hide Wf, MayFinalize, Exec, Owned, FinalizeTry;
    TrySelf(u, keys[n]);
    if j != n {
      assert keys[j] != keys[n];
      TryOther(u, keys[n], keys[j]);
    }
  }

  /** After draining, a retired user may be finalized exactly when it is closed to new flows and holds none. */
  lemma DrainedMayFinalize(s: State, t: State, k: Key)
    requires Inv(s) && Wf(t) && Empty(t, k.email, Uplink) && Empty(t, k.email, Downlink)
    requires t.managed == s.managed && t.current == s.current && t.runtime == s.runtime && t.active == s.active
    ensures MayFinalize(t, k) <==> k in s.runtime && k !in s.current && s.active[s.runtime[k]] == 0
  {
    hide RefCounts, FlowsOk, NamesOk, RetiringOk, DeltasOk, MonitorOk, Money, Empty, Owned;
  }

  /** The state in which finalization starts. */
  lemma DrainedAndSettled(s: State, entries: seq<Entry>, disabled: bool, deltas: nat, i: nat)
    requires Inv(s) && s.monitor.Idle? && i < |entries|
    ensures var t := Exec(s, [Snapshot] + DrainSteps(entries) + FlushSteps(disabled, true, deltas));
      && t == s.(monitor := Finalizing(s.retiring), counters := t.counters, pending := [], ledger := t.ledger)
      && Empty(t, entries[i].Email(), Uplink) && Empty(t, entries[i].Email(), Downlink)
  {
    hide Inv, Exec, DrainSteps, FormatUserKey, Apply, Empty;
    InvWf(s);
    SnapshotFirst(s);
    StepInv(s, Snapshot);
    var s1 := Apply(s, Snapshot);
    SnapshotShape(s);
    DrainedAll(s1, entries, i, Uplink);
    DrainedAll(s1, entries, i, Downlink);
    ExecConcat(s, [Snapshot], DrainSteps(entries));
    ExecConcat(s, [Snapshot] + DrainSteps(entries), FlushSteps(disabled, true, deltas));
    SettleShape(Exec(s1, DrainSteps(entries)), disabled, deltas, entries[i].Email());
  }

  lemma SnapshotShape(s: State)
    requires Wf(s) && s.monitor.Idle?
    ensures Apply(s, Snapshot) == s.(monitor := Draining(s.retiring))
  {
    hide Wf;
  }

  lemma SettleShape(t: State, disabled: bool, deltas: nat, e: string)
    requires Wf(t) && t.monitor.Draining? && Empty(t, e, Uplink) && Empty(t, e, Downlink)
    ensures var u := Exec(t, FlushSteps(disabled, true, deltas));
      && u == t.(monitor := Finalizing(t.monitor.snapshot), pending := [], ledger := u.ledger)
      && Empty(u, e, Uplink) && Empty(u, e, Downlink)
  {
    hide Wf;
    var steps := FlushSteps(disabled, true, deltas);
    assert steps[..0] == [];
  }

  /**
   A pass whose report is settled takes each retired user off all books exactly when nobody is admitted under its key
   and no flow holds it; every other retired user stays on the list for the next pass.
   */
  lemma SettledPassFinalizes(s: State, entries: seq<Entry>, retired: seq<Entry>, disabled: bool, deltas: nat, j: nat)
    requires Inv(s) && s.monitor.Idle? && NoDuplicates(EntryKeys(retired)) && j < |retired|
    requires forall i :: 0 <= i < |retired| ==>
      && retired[i] in entries && '|' !in retired[i].tag
      && EntryKeys(retired)[i] in s.retiring
    ensures var k := EntryKeys(retired)[j];
      var t := Exec(s, PassSteps(entries, retired, disabled, true, deltas));
      && t.monitor.Idle?
      && if k in s.runtime && k !in s.current && s.active[s.runtime[k]] == 0 then Settled(t, k)
         else k in t.retiring && (k in t.runtime <==> k in s.runtime)
  {
    hide Inv, Exec, DrainSteps, FormatUserKey, Apply, Empty, MayFinalize, FlushSteps, FinalizeSteps, Owned;
    InvWf(s);
    var before := [Snapshot] + DrainSteps(entries) + FlushSteps(disabled, true, deltas);
    var t := Exec(s, before);
    var keys := EntryKeys(retired);
    assert retired[j] in entries;
    var at :| 0 <= at < |entries| && entries[at] == retired[j];
    DrainedAndSettled(s, entries, disabled, deltas, at);
    DrainedMayFinalize(s, t, keys[j]);
    forall i | 0 <= i < |keys|
      ensures Filed(t, keys[i]) && Owned(keys[i])
    {
      KeyIsOwned(retired[i]);
    }
    FinalizePrefix(t, keys, |keys|, j);
    assert keys[..|keys|] == keys;
    ExecConcat(s, before, FinalizeSteps(keys));
    EndsIdle(s, before + FinalizeSteps(keys));
  }

  lemma KeyIsOwned(entry: Entry)
    requires '|' !in entry.tag
    ensures Owned(KeyOf(entry.tag, entry.user))
  {
    TagOfKey(entry.tag, entry.user.email, entry.user.uid);
  }

  lemma EndsIdle(s: State, steps: seq<Step>)
    requires Wf(s) && Exec(s, steps).monitor.Finalizing?
    ensures Exec(s, steps + [EndPass]) == Exec(s, steps).(monitor := Idle)
  {
    hide Wf, Exec;
    var longer := Extend(s, steps, EndPass);
  }
}
