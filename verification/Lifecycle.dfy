/**
 User lifecycle and traffic accounting as one transition system.

 The threads are the data path (any number of flows), the node monitor (admits and retires users) and the
 user monitor (drains counters, reports, finalizes). A step is one critical section or one atomic access of the
 program, and a run is any sequence of steps: a step whose thread is elsewhere, or whose lock is taken, changes
 nothing, so quantifying over step sequences quantifies over all interleavings.

 Runtime records and counters are objects whose identity matters. They live in the arenas `active` and
 `counters`, and a handle is an index.
 */
module Lifecycle {
  import opened Api
  import opened UserKey

  /******* State *******/

  datatype Direction = Uplink | Downlink

  /** A user of one inbound; `email` is the full textual key. */
  datatype Key = Key(tag: string, email: string)

  /** The textual key names its own inbound, which holds for every formatted key whose tag has no separator. */
  predicate Owned(k: Key) {
    k.tag == TagOf(k.email)
  }

  /** What a counter is registered under: the user key and the direction. */
  type Name = (string, Direction)

  datatype Counter = Counter(email: string, dir: Direction, value: int)
  {
    function Name(): Name {
      (email, dir)
    }
  }

  /** How a flow is released: not yet decided, by its two writers, or by the owner of a direct socket. */
  datatype Link = Opening | Piped | Direct

  /** A `userIO` with the two-owner lifecycle of a piped connection. */
  datatype Flow = Flow(
    key: Key,
    managed: bool,
    runtime: nat,
    up: Option<nat>,
    down: Option<nat>,
    link: Link,
    upEnded: bool,
    downEnded: bool,
    remaining: int,
    released: bool
  )
  {
    function Handle(d: Direction): Option<nat> {
      if d.Uplink? then up else down
    }

    predicate Ended(d: Direction) {
      if d.Uplink? then upEnded else downEnded
    }

    predicate HandlesBelow(n: nat) {
      (up.Some? ==> up.value < n) && (down.Some? ==> down.value < n)
    }

    /** Registered by a panel controller and still holding its reference. */
    predicate Live() {
      managed && !released
    }
  }

  /** Bytes taken out of a counter and neither reported nor given back. */
  datatype Delta = Delta(email: string, dir: Direction, counter: nat, value: int)
  {
    function Name(): Name {
      (email, dir)
    }
  }

  /** Where the user monitor stands; the registry lock is held exactly while it is `Detaching`. */
  datatype Monitor =
    | Idle
    | Draining(snapshot: map<Key, UserInfo>)
    | Restoring
    | Finalizing(snapshot: map<Key, UserInfo>)
    | Detaching(snapshot: map<Key, UserInfo>, key: Key, user: UserInfo, upGone: bool, downGone: bool)
    | Clearing(snapshot: map<Key, UserInfo>, key: Key, user: UserInfo)

  /** Totals per counter name since the start; the program does not keep them. */
  datatype Ledger = Ledger(
    counted: multiset<Name>,
    late: multiset<Name>,
    reported: multiset<Name>,
    discarded: multiset<Name>
  )

  datatype State = State(
    managed: set<string>,
    current: set<Key>,
    runtime: map<Key, nat>,
    active: seq<int>,
    stats: map<Name, nat>,
    counters: seq<Counter>,
    flows: seq<Flow>,
    retiring: map<Key, UserInfo>,
    toForget: set<Key>,
    toRemember: map<Key, UserInfo>,
    monitor: Monitor,
    pending: seq<Delta>,
    ledger: Ledger
  )

  ghost predicate RuntimeIds(runtime: map<Key, nat>, n: nat) {
    forall k :: k in runtime ==> runtime[k] < n
  }

  ghost predicate StatsIds(stats: map<Name, nat>, n: nat) {
    forall name :: name in stats ==> stats[name] < n
  }

  ghost predicate FlowIds(flows: seq<Flow>, runtimes: nat, counters: nat) {
    forall i :: 0 <= i < |flows| ==> flows[i].runtime < runtimes && flows[i].HandlesBelow(counters)
  }

  ghost predicate DeltaIds(pending: seq<Delta>, n: nat) {
    forall j :: 0 <= j < |pending| ==> pending[j].counter < n
  }

  /** Every handle points into its arena. */
  ghost predicate Wf(s: State) {
    && RuntimeIds(s.runtime, |s.active|)
    && StatsIds(s.stats, |s.counters|)
    && FlowIds(s.flows, |s.active|, |s.counters|)
    && DeltaIds(s.pending, |s.counters|)
  }

  ghost function Init(): (s: State)
    ensures Wf(s)
  {
    State({}, {}, map[], [], map[], [], [], map[], {}, map[], Idle, [],
          Ledger(multiset{}, multiset{}, multiset{}, multiset{}))
  }

  /******* Steps *******/

  datatype Step =
    // node monitor
    | Manage(tag: string)
    | Register(key: Key)
    | Forget(key: Key)
    | Retire(key: Key, user: UserInfo)
    | Remember(key: Key)
    // data path
    | Acquire(key: Key)
    | Fetch(flow: nat, dir: Direction)
    | Attach(flow: nat, link: Link)
    | Release(flow: nat)
    | EndWriter(flow: nat, dir: Direction)
    | AddBytes(flow: nat, dir: Direction, bytes: nat)
    // user monitor
    | Snapshot
    | Drain(email: string, dir: Direction)
    | ReportOk
    | ReportDisabled
    | ReportFails
    | Restore
    | CheckIdle(key: Key)
    | Unregister(dir: Direction)
    | Commit
    | ClearRetired
    | EndPass

  predicate LockFree(s: State) {
    !s.monitor.Detaching?
  }

  /** The node entry is created on first use and a missing runtime is allocated; an existing one is kept. */
  ghost function EnsureRuntime(s: State, k: Key): (s': State)
    requires Wf(s)
    ensures Wf(s') && k in s'.runtime
    ensures s' == s.(managed := s'.managed, runtime := s'.runtime, active := s'.active)
  {
    var s1 := s.(managed := s.managed + {k.tag});
    if k in s.runtime then s1
    else s1.(runtime := s.runtime[k := |s.active|], active := s.active + [0])
  }

  ghost function DoRegister(s: State, k: Key): (s': State)
    requires Wf(s)
    ensures Wf(s')
  {
    var s1 := EnsureRuntime(s, k);
    s1.(current := s.current + {k}, toForget := s.toForget + {k})
  }

  ghost function DoRetire(s: State, k: Key, u: UserInfo): (s': State)
    requires Wf(s)
    ensures Wf(s')
  {
    var s1 := EnsureRuntime(s, k);
    s1.(current := s.current - {k}, toRemember := s.toRemember[k := u])
  }

  function NewFlow(k: Key, managed: bool, r: nat): Flow {
    Flow(k, managed, r, None, None, Opening, false, false, 2, false)
  }

  /** An unmanaged inbound gets a private runtime; a managed one admits current users only. */
  ghost function DoAcquire(s: State, k: Key): (s': State)
    requires Wf(s)
    ensures Wf(s')
    ensures s' == s.(managed := s'.managed, runtime := s'.runtime, active := s'.active, flows := s'.flows)
  {
    if k.tag !in s.managed then
      s.(active := s.active + [1], flows := s.flows + [NewFlow(k, false, |s.active|)])
    else if k !in s.current then
      s
    else
      var s1 := EnsureRuntime(s, k);
      var r := s1.runtime[k];
      s1.(active := s1.active[r := s1.active[r] + 1], flows := s.flows + [NewFlow(k, true, r)])
  }

  function WithHandle(f: Flow, d: Direction, c: nat): Flow {
    if d.Uplink? then f.(up := Some(c)) else f.(down := Some(c))
  }

  /** `GetOrRegisterCounter`: a flow that holds its runtime never loses the name to a finalization. */
  ghost function EnsureCounter(s: State, name: Name): (s': State)
    requires Wf(s)
    ensures Wf(s') && name in s'.stats
    ensures s' == s.(stats := s'.stats, counters := s'.counters)
  {
    if name in s.stats then s
    else s.(stats := s.stats[name := |s.counters|], counters := s.counters + [Counter(name.0, name.1, 0)])
  }

  ghost function DoFetch(s: State, i: nat, d: Direction): (s': State)
    requires Wf(s) && i < |s.flows|
    ensures Wf(s')
    ensures s' == s.(stats := s'.stats, counters := s'.counters, flows := s'.flows)
  {
    var f := s.flows[i];
    var s1 := EnsureCounter(s, (f.key.email, d));
    s1.(flows := s.flows[i := WithHandle(f, d, s1.stats[(f.key.email, d)])])
  }

  /** `userIO.Release`: once per flow, and never below zero. */
  ghost function DoRelease(s: State, i: nat): (s': State)
    requires Wf(s) && i < |s.flows|
    ensures Wf(s')
    ensures s' == s.(active := s'.active, flows := s'.flows)
  {
    var f := s.flows[i];
    if f.released then s
    else
      var a := s.active[f.runtime];
      s.(active := s.active[f.runtime := if a <= 0 then a else a - 1],
         flows := s.flows[i := f.(released := true)])
  }

  /** `lifecycleWriter.Close` or `Interrupt`: the first end of each writer drops one of the two owners. */
  ghost function DoEndWriter(s: State, i: nat, d: Direction): (s': State)
    requires Wf(s) && i < |s.flows|
    ensures Wf(s')
    ensures s' == s.(active := s'.active, flows := s'.flows)
  {
    var f := s.flows[i];
    if f.Ended(d) then s
    else
      var f1 := if d.Uplink? then f.(upEnded := true) else f.(downEnded := true);
      var f2 := f1.(remaining := f.remaining - 1);
      var s1 := s.(flows := s.flows[i := f2]);
      if f2.remaining == 0 then DoRelease(s1, i) else s1
  }

  function Credit(m: multiset<Name>, x: Name, n: nat): multiset<Name> {
    m[x := m[x] + n]
  }

  ghost function DoAddBytes(s: State, i: nat, d: Direction, n: nat): (s': State)
    requires Wf(s) && i < |s.flows| && s.flows[i].Handle(d).Some?
    ensures Wf(s')
    ensures s' == s.(counters := s'.counters, ledger := s'.ledger)
  {
    var f := s.flows[i];
    var c := f.Handle(d).value;
    var old_ := s.counters[c];
    var late := if f.Live() then s.ledger.late else Credit(s.ledger.late, old_.Name(), n);
    s.(counters := s.counters[c := old_.(value := old_.value + n)],
       ledger := s.ledger.(counted := Credit(s.ledger.counted, old_.Name(), n), late := late))
  }

  /** Only a positive value is taken; a negative one is put back. */
  ghost function DoDrain(s: State, e: string, d: Direction): (s': State)
    requires Wf(s)
    ensures Wf(s')
    ensures s' == s.(counters := s'.counters, pending := s'.pending)
  {
    if (e, d) !in s.stats then s
    else
      var c := s.stats[(e, d)];
      var v := s.counters[c].value;
      if v <= 0 then s
      else s.(counters := s.counters[c := s.counters[c].(value := 0)], pending := s.pending + [Delta(e, d, c, v)])
  }

  function CreditAll(m: multiset<Name>, deltas: seq<Delta>): multiset<Name> {
    if deltas == [] then m
    else
      var last := deltas[|deltas| - 1];
      Credit(CreditAll(m, deltas[..|deltas| - 1]), last.Name(), if last.value > 0 then last.value else 0)
  }

  ghost function DoRestore(s: State): (s': State)
    requires Wf(s)
    ensures Wf(s')
  {
    if s.pending == [] then s.(monitor := Idle)
    else
      var first := s.pending[0];
      var old_ := s.counters[first.counter];
      s.(counters := s.counters[first.counter := old_.(value := old_.value + first.value)], pending := s.pending[1..])
  }

  ghost predicate Empty(s: State, e: string, d: Direction)
    requires Wf(s)
  {
    (e, d) in s.stats ==> s.counters[s.stats[(e, d)]].value == 0
  }

  /** Admission closed, no reference left, both counters drained. */
  ghost predicate MayFinalize(s: State, k: Key)
    requires Wf(s)
  {
    && k.tag in s.managed
    && k !in s.current
    && k in s.runtime
    && s.active[s.runtime[k]] == 0
    && Empty(s, k.email, Uplink)
    && Empty(s, k.email, Downlink)
  }

  ghost function Apply(s: State, step: Step): (s': State)
    requires Wf(s)
    ensures Wf(s')
  {
    match step
    case Manage(tag) =>
      if LockFree(s) then s.(managed := s.managed + {tag}) else s
    case Register(k) =>
      if LockFree(s) && s.toRemember == map[] && Owned(k) then DoRegister(s, k) else s
    case Forget(k) =>
      if k in s.toForget then s.(retiring := s.retiring - {k}, toForget := s.toForget - {k}) else s
    case Retire(k, u) =>
      if LockFree(s) && s.toForget == {} && Owned(k) then DoRetire(s, k, u) else s
    case Remember(k) =>
      if k in s.toRemember
      then s.(retiring := s.retiring[k := s.toRemember[k]], toRemember := s.toRemember - {k}) else s
    case Acquire(k) =>
      if LockFree(s) then DoAcquire(s, k) else s
    case Fetch(i, d) =>
      if i < |s.flows| && s.flows[i].link.Opening? && !s.flows[i].released then DoFetch(s, i, d) else s
    case Attach(i, link) =>
      if i < |s.flows| && s.flows[i].link.Opening? && !s.flows[i].released
      then s.(flows := s.flows[i := s.flows[i].(link := link)]) else s
    case Release(i) =>
      if i < |s.flows| && !s.flows[i].link.Piped? then DoRelease(s, i) else s
    case EndWriter(i, d) =>
      if i < |s.flows| && s.flows[i].link.Piped? then DoEndWriter(s, i, d) else s
    case AddBytes(i, d, n) =>
      if i < |s.flows| && s.flows[i].Handle(d).Some? then DoAddBytes(s, i, d, n) else s
    case Snapshot =>
      if s.monitor.Idle? then s.(monitor := Draining(s.retiring)) else s
    case Drain(e, d) =>
      if s.monitor.Draining? then DoDrain(s, e, d) else s
    case ReportOk =>
      if s.monitor.Draining? then
        s.(monitor := Finalizing(s.monitor.snapshot), pending := [],
           ledger := s.ledger.(reported := CreditAll(s.ledger.reported, s.pending))) else s
    case ReportDisabled =>
      if s.monitor.Draining? then
        s.(monitor := Finalizing(s.monitor.snapshot), pending := [],
           ledger := s.ledger.(discarded := CreditAll(s.ledger.discarded, s.pending))) else s
    case ReportFails =>
      if s.monitor.Draining? then s.(monitor := Restoring) else s
    case Restore =>
      if s.monitor.Restoring? then DoRestore(s) else s
    case CheckIdle(k) =>
      if s.monitor.Finalizing? && k in s.monitor.snapshot && MayFinalize(s, k)
      then s.(monitor := Detaching(s.monitor.snapshot - {k}, k, s.monitor.snapshot[k], false, false)) else s
    case Unregister(d) =>
      if s.monitor.Detaching? then
        s.(stats := s.stats - {(s.monitor.key.email, d)},
           monitor := if d.Uplink? then s.monitor.(upGone := true) else s.monitor.(downGone := true)) else s
    case Commit =>
      if s.monitor.Detaching? && s.monitor.upGone && s.monitor.downGone then
        s.(runtime := s.runtime - {s.monitor.key},
           monitor := Clearing(s.monitor.snapshot, s.monitor.key, s.monitor.user)) else s
    case ClearRetired =>
      if s.monitor.Clearing? then
        s.(retiring := if s.monitor.key in s.retiring && s.retiring[s.monitor.key] == s.monitor.user
                       then s.retiring - {s.monitor.key} else s.retiring,
           monitor := Finalizing(s.monitor.snapshot)) else s
    case EndPass =>
      if s.monitor.Finalizing? then s.(monitor := Idle) else s
  }

  /** The state after a run; later steps are at the end of the sequence. */
  ghost function Exec(s: State, steps: seq<Step>): (s': State)
    requires Wf(s)
    ensures Wf(s')
    decreases |steps|
  {
    if steps == [] then s else Apply(Exec(s, steps[..|steps| - 1]), steps[|steps| - 1])
  }

  lemma {:induction false} ExecConcat(s: State, a: seq<Step>, b: seq<Step>)
    requires Wf(s)
    ensures Exec(s, a + b) == Exec(Exec(s, a), b)
    decreases |b|
  {
    if b == [] {
      assert a + b == a;
    } else {
      ExecConcat(s, a, b[..|b| - 1]);
      assert (a + b)[..|a + b| - 1] == a + b[..|b| - 1];
    }
  }

  lemma Unroll(s: State, p: seq<Step>, n: nat)
    requires Wf(s) && n < |p|
    ensures Exec(s, p[..n + 1]) == Apply(Exec(s, p[..n]), p[n])
  {
    hide Apply, Wf;
    assert p[..n + 1][..n] == p[..n];
  }
}
