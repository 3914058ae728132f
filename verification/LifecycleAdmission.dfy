/** When a connection is let in: what registration opens and retirement closes. */
module LifecycleAdmission {
  import opened Api
  import opened Lifecycle
  import opened LifecycleInvariant
  import opened LifecycleTheorems

  /** No flow beyond the first `n` carries the key. */
  predicate NoNewFlow(flows: seq<Flow>, n: nat, k: Key) {
    n <= |flows| && forall i :: n <= i < |flows| ==> flows[i].key != k
  }

  /** Managed, and not admitted. */
  predicate Closed(s: State, k: Key) {
    k.tag in s.managed && k !in s.current
  }

  lemma StaysClosed(s: State, step: Step, k: Key)
    requires Wf(s) && Closed(s, k) && step != Register(k)
    ensures Closed(Apply(s, step), k)
  {
    hide Wf, Owned, MayFinalize, CreditAll, DoAddBytes, DoDrain, DoFetch, DoRelease, DoEndWriter;
  }

  predicate SameKeys(before: seq<Flow>, after: seq<Flow>) {
    |after| == |before| && forall i :: 0 <= i < |before| ==> after[i].key == before[i].key
  }

  lemma FlowStepKeys(s: State, i: nat, d: Direction)
    requires Wf(s) && i < |s.flows|
    ensures SameKeys(s.flows, DoFetch(s, i, d).flows) && SameKeys(s.flows, DoRelease(s, i).flows)
    ensures SameKeys(s.flows, DoEndWriter(s, i, d).flows)
  {
    hide RuntimeIds, StatsIds, DeltaIds;
  }

  /** Only `Acquire` makes flows; no step changes whose they are. */
  lemma FlowKeys(s: State, step: Step)
    requires Wf(s) && !step.Acquire?
    ensures SameKeys(s.flows, Apply(s, step).flows)
  {
    hide Wf, Owned, MayFinalize, CreditAll, DoAddBytes, DoDrain, DoAcquire, EnsureRuntime, EnsureCounter, DoFetch,
      DoRelease, DoEndWriter;
    match step
    case Fetch(i, d) => if i < |s.flows| { FlowStepKeys(s, i, d); }
    case Release(i) => if i < |s.flows| { FlowStepKeys(s, i, Uplink); }
    case EndWriter(i, d) => if i < |s.flows| { FlowStepKeys(s, i, d); }
    case _ =>
  }

  lemma StepClosed(s: State, step: Step, n: nat, k: Key)
    requires Wf(s) && Closed(s, k) && NoNewFlow(s.flows, n, k) && step != Register(k)
    ensures Closed(Apply(s, step), k) && NoNewFlow(Apply(s, step).flows, n, k)
  {
    hide Wf, Apply, LockFree;
    StaysClosed(s, step, k);
    if !step.Acquire? {
      FlowKeys(s, step);
    } else if LockFree(s) {
      AcquireIff(s, step.key);
    } else {
      Waits(s, step.key);
    }
  }

  lemma Waits(s: State, k: Key)
    requires Wf(s) && !LockFree(s)
    ensures Apply(s, Acquire(k)) == s
  {
    hide Wf;
  }

  /**
   Retirement closes admission: whatever happens, as long as a user of a managed inbound is not registered again, no
   connection of that user is let in.
   */
  lemma {:induction false} ClosedAdmitsNobody(s: State, steps: seq<Step>, k: Key)
    requires Wf(s) && Closed(s, k)
    requires Register(k) !in steps
    ensures Closed(Exec(s, steps), k) && NoNewFlow(Exec(s, steps).flows, |s.flows|, k)
    decreases |steps|
  {
    hide Wf, Apply, Closed;
    if steps != [] {
      var before, last := steps[..|steps| - 1], steps[|steps| - 1];
      assert steps == before + [last];
      ClosedAdmitsNobody(s, before, k);
      StepClosed(Exec(s, before), last, |s.flows|, k);
    }
  }

  /** A registration takes effect at once: the user is admitted and has a runtime, an old one if there is one. */
  lemma RegisterOpens(s: State, k: Key)
    requires Wf(s) && LockFree(s) && s.toRemember == map[] && Owned(k)
    ensures var t := Apply(s, Register(k));
      && k.tag in t.managed && t.current == s.current + {k}
      && k in t.runtime && (k in s.runtime ==> t.runtime == s.runtime && t.active == s.active)
      && (k !in s.runtime ==> t.runtime == s.runtime[k := |s.active|] && t.active == s.active + [0])
  {
    hide Wf, Owned;
  }

  /** A retirement takes effect at once, whatever state it meets, and leaves a runtime to be finalized. */
  lemma RetireCloses(s: State, k: Key, u: UserInfo)
    requires Wf(s) && LockFree(s) && s.toForget == {} && Owned(k)
    ensures var t := Apply(s, Retire(k, u));
      && Closed(t, k) && t.current == s.current - {k}
      && k in t.runtime && (k in s.runtime ==> t.runtime == s.runtime && t.active == s.active)
      && (k !in s.runtime ==> t.runtime == s.runtime[k := |s.active|] && t.active == s.active + [0])
  {
    hide Wf, Owned;
  }

  /** References counted on a runtime, zero for one that does not exist yet. */
  function Count(active: seq<int>, r: nat): int {
    if r < |active| then active[r] else 0
  }

  /**
   A connection is let in if and only if its inbound is not managed or its user is admitted: then there is one more
   flow, unreleased, of that user, and one more reference, on its runtime. Otherwise nothing changes.
   */
  lemma AcquireIff(s: State, k: Key)
    requires Wf(s) && LockFree(s)
    ensures var t := Apply(s, Acquire(k));
      if k.tag in s.managed && k !in s.current then t == s
      else
        && |t.flows| == |s.flows| + 1 && t.flows[..|s.flows|] == s.flows
        && var f := t.flows[|s.flows|];
           && f.key == k && !f.released && f.up.None? && f.down.None?
           && (f.managed <==> k.tag in s.managed)
           && (f.managed && k in s.runtime ==> f.runtime == s.runtime[k])
           && (!f.managed || k !in s.runtime ==> f.runtime == |s.active|)
           && forall r: nat :: Count(t.active, r) == Count(s.active, r) + if r == f.runtime then 1 else 0
  {
    hide FlowIds, StatsIds, DeltaIds;
  }

  /** The first connection after a retirement is turned away, however the run got there. */
  lemma RetiredIsTurnedAway(steps: seq<Step>, k: Key, u: UserInfo, later: seq<Step>)
    requires LockFree(After(steps)) && After(steps).toForget == {} && Owned(k) && Register(k) !in later
    ensures var s := After(steps + [Retire(k, u)] + later);
      LockFree(s) ==> Apply(s, Acquire(k)) == s
  {
    hide Wf, Apply, Owned, LockFree, Exec;
    var s1 := After(steps + [Retire(k, u)]);
    Snoc(steps, Retire(k, u));
    RetireCloses(After(steps), k, u);
    ClosedAdmitsNobody(s1, later, k);
    ExecConcat(Init(), steps + [Retire(k, u)], later);
    var s := After(steps + [Retire(k, u)] + later);
    if LockFree(s) {
      AcquireIff(s, k);
    }
  }

  /** A counted byte is counted once, under the flow's own user and direction, and shows in the counter it goes to. */
  lemma BytesAreCounted(s: State, i: nat, d: Direction, n: nat)
    requires Wf(s) && i < |s.flows| && s.flows[i].Handle(d).Some?
    ensures var c := s.flows[i].Handle(d).value; var t := Apply(s, AddBytes(i, d, n));
      && |t.counters| == |s.counters|
      && (forall j :: 0 <= j < |s.counters| ==>
            t.counters[j] == s.counters[j].(value := s.counters[j].value + if j == c then n else 0))
      && (forall x :: t.ledger.counted[x] == s.ledger.counted[x] + if x == s.counters[c].Name() then n else 0)
  {
    hide RuntimeIds, StatsIds, DeltaIds;
  }

  /******* What else a connection does *******/

  /**
   While a connection is set up it gets the counter registered under its user and the direction: the one that is there,
   or a new one that holds nothing. Nothing else of it changes, and no other flow or counter does.
   */
  lemma FetchIs(s: State, i: nat, d: Direction)
    requires Wf(s) && i < |s.flows| && s.flows[i].link.Opening? && !s.flows[i].released
    ensures var t := Apply(s, Fetch(i, d)); var name := (s.flows[i].key.email, d);
      && name in t.stats && t.flows[i].Handle(d) == Some(t.stats[name])
      && t.flows == s.flows[i := if d.Uplink? then s.flows[i].(up := Some(t.stats[name]))
                                 else s.flows[i].(down := Some(t.stats[name]))]
      && (name in s.stats ==> t.stats == s.stats && t.counters == s.counters)
      && (name !in s.stats ==>
        t.stats == s.stats[name := |s.counters|] && t.counters == s.counters + [Counter(name.0, name.1, 0)])
  {
    hide RuntimeIds, DeltaIds;
  }

  /** The connection is then either piped or handed over as a direct socket. */
  lemma AttachIs(s: State, i: nat, link: Link)
    requires Wf(s) && i < |s.flows| && s.flows[i].link.Opening? && !s.flows[i].released
    ensures Apply(s, Attach(i, link)) == s.(flows := s.flows[i := s.flows[i].(link := link)])
  {
    hide Wf;
  }

  /** One reference less, on the flow's own runtime. */
  ghost predicate GivesBack(s: State, t: State, i: nat)
    requires i < |s.flows| == |t.flows|
  {
    && t.flows[i].released
    && |t.active| == |s.active|
    && forall r :: 0 <= r < |s.active| ==> t.active[r] == s.active[r] - if r == s.flows[i].runtime then 1 else 0
  }

  /** A flow that is not piped is released by its owner: once, and then never again. */
  lemma ReleaseIs(s: State, i: nat)
    requires Inv(s) && i < |s.flows| && !s.flows[i].link.Piped?
    ensures var t := Apply(s, Release(i));
      && |t.flows| == |s.flows|
      && (s.flows[i].released ==> t == s)
      && (!s.flows[i].released ==> GivesBack(s, t, i) && t.flows[i] == s.flows[i].(released := true))
  {
    hide FlowsOk, NamesOk, RuntimesOk, RetiringOk, DeltasOk, MonitorOk, Money;
    if !s.flows[i].released {
      HolderCounts(s.flows, i);
    }
  }

  /** A piped flow is released by the end of its second writer, and ending a writer twice is ending it once. */
  lemma EndWriterIs(s: State, i: nat, d: Direction)
    requires Inv(s) && i < |s.flows| && s.flows[i].link.Piped?
    ensures var t := Apply(s, EndWriter(i, d)); var other := if d.Uplink? then Downlink else Uplink;
      && |t.flows| == |s.flows|
      && t.flows[i].Ended(d) && (t.flows[i].Ended(other) <==> s.flows[i].Ended(other))
      && (s.flows[i].Ended(d) ==> t == s)
      && (!s.flows[i].Ended(d) && s.flows[i].Ended(other) ==> GivesBack(s, t, i))
      && (!s.flows[i].Ended(d) && !s.flows[i].Ended(other) ==> !t.flows[i].released && t.active == s.active)
  {
    hide NamesOk, RuntimesOk, RetiringOk, DeltasOk, MonitorOk, Money, HandleOk;
    assert FlowOk(s.flows[i], s.runtime, s.stats, s.counters);
    if !s.flows[i].released {
      HolderCounts(s.flows, i);
    }
  }
}
