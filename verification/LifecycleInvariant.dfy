/** The inductive invariant of the lifecycle system, one group of facts at a time. */
module LifecycleInvariant {
  import opened Api
  import opened UserKey
  import opened Lifecycle

  /******* Sums *******/

  /** References held on runtime `r`. */
  function Holders(flows: seq<Flow>, r: nat): nat {
    if flows == [] then 0
    else
      var last := flows[|flows| - 1];
      Holders(flows[..|flows| - 1], r) + if !last.released && last.runtime == r then 1 else 0
  }

  /** Bytes in all counters ever created under a name, registered or not. */
  function Stored(counters: seq<Counter>, e: Name): int {
    if counters == [] then 0
    else
      var last := counters[|counters| - 1];
      Stored(counters[..|counters| - 1], e) + if last.Name() == e then last.value else 0
  }

  /** Bytes drained under a name and not yet settled. */
  function Drained(deltas: seq<Delta>, e: Name): int {
    if deltas == [] then 0
    else
      var last := deltas[|deltas| - 1];
      Drained(deltas[..|deltas| - 1], e) + if last.Name() == e then last.value else 0
  }

  lemma {:induction false} HoldersUpdate(flows: seq<Flow>, i: nat, f: Flow, r: nat)
    requires i < |flows|
    ensures Holders(flows[i := f], r)
         == Holders(flows, r) - (if !flows[i].released && flows[i].runtime == r then 1 else 0)
                              + (if !f.released && f.runtime == r then 1 else 0)
  {
    var n := |flows| - 1;
    if i < n {
      HoldersUpdate(flows[..n], i, f, r);
      assert flows[i := f][..n] == flows[..n][i := f];
    } else {
      assert flows[i := f][..n] == flows[..n];
    }
  }

  lemma {:induction false} HolderCounts(flows: seq<Flow>, i: nat)
    requires i < |flows| && !flows[i].released
    ensures Holders(flows, flows[i].runtime) >= 1
  {
    if i < |flows| - 1 {
      HolderCounts(flows[..|flows| - 1], i);
    }
  }

  lemma {:induction false} NoHolders(flows: seq<Flow>, r: nat)
    requires forall i :: 0 <= i < |flows| ==> flows[i].runtime < r
    ensures Holders(flows, r) == 0
  {
    if flows != [] {
      NoHolders(flows[..|flows| - 1], r);
    }
  }

  lemma {:induction false} StoredUpdate(counters: seq<Counter>, c: nat, x: Counter, e: Name)
    requires c < |counters| && x.Name() == counters[c].Name()
    ensures Stored(counters[c := x], e)
         == Stored(counters, e) + if x.Name() == e then x.value - counters[c].value else 0
  {
    var n := |counters| - 1;
    if c < n {
      StoredUpdate(counters[..n], c, x, e);
      assert counters[c := x][..n] == counters[..n][c := x];
    } else {
      assert counters[c := x][..n] == counters[..n];
    }
  }

  lemma {:induction false} DrainedHead(deltas: seq<Delta>, e: Name)
    requires deltas != []
    ensures Drained(deltas, e) == (if deltas[0].Name() == e then deltas[0].value else 0) + Drained(deltas[1..], e)
  {
    var n := |deltas| - 1;
    if n > 0 {
      DrainedHead(deltas[..n], e);
      assert deltas[..n][1..] == deltas[1..][..n - 1];
    } else {
      assert deltas[1..] == [];
    }
  }

  lemma {:induction false} CreditAllSum(m: multiset<Name>, deltas: seq<Delta>, e: Name)
    requires forall j :: 0 <= j < |deltas| ==> deltas[j].value > 0
    ensures CreditAll(m, deltas)[e] == m[e] + Drained(deltas, e)
  {
    if deltas != [] {
      CreditAllSum(m, deltas[..|deltas| - 1], e);
    }
  }

  /******* The invariant *******/

  // Each group takes only the components it speaks about, so a step that leaves them alone keeps it for free.

  /** Each runtime counts exactly the flows that hold it. */
  ghost predicate RefCounts(active: seq<int>, flows: seq<Flow>) {
    forall r :: 0 <= r < |active| ==> active[r] == Holders(flows, r)
  }

  /** The two-owner lifecycle: a piped flow is released exactly when both writers have ended. */
  predicate LifecycleOk(f: Flow) {
    && f.remaining == 2 - (if f.upEnded then 1 else 0) - (if f.downEnded then 1 else 0)
    && (f.link.Piped? ==> (f.released <==> f.upEnded && f.downEnded))
    && (!f.link.Piped? ==> !f.upEnded && !f.downEnded)
  }

  type Stats = map<Name, nat>

  predicate HandleOk(f: Flow, d: Direction, stats: Stats, counters: seq<Counter>) {
    f.Handle(d).Some? ==>
      && f.Handle(d).value < |counters|
      && counters[f.Handle(d).value].email == f.key.email
      && counters[f.Handle(d).value].dir == d
      && (f.Live() ==> (f.key.email, d) in stats && stats[(f.key.email, d)] == f.Handle(d).value)
  }

  /** A live flow's runtime is the registry's, and its counters are the registered ones. */
  predicate FlowOk(f: Flow, runtime: map<Key, nat>, stats: Stats, counters: seq<Counter>) {
    && LifecycleOk(f)
    && (f.Live() ==> f.key in runtime && runtime[f.key] == f.runtime)
    && HandleOk(f, Uplink, stats, counters)
    && HandleOk(f, Downlink, stats, counters)
  }

  ghost predicate FlowsOk(flows: seq<Flow>, runtime: map<Key, nat>, stats: Stats, counters: seq<Counter>) {
    forall i :: 0 <= i < |flows| ==> FlowOk(flows[i], runtime, stats, counters)
  }

  ghost predicate NamesOk(stats: Stats, counters: seq<Counter>) {
    && (forall n :: n in stats ==>
          && stats[n] < |counters|
          && counters[stats[n]].email == n.0
          && counters[stats[n]].dir == n.1)
    && (forall c :: 0 <= c < |counters| ==> counters[c].value >= 0)
  }

  ghost predicate RuntimesOk(managed: set<string>, current: set<Key>, runtime: map<Key, nat>) {
    && (forall k :: k in runtime ==> Owned(k) && k.tag in managed)
    && (forall k :: k in current ==> k in runtime)
  }

  /** Admitted and retiring at once only between the two critical sections of a registration. */
  ghost predicate RetiringOk(current: set<Key>, retiring: map<Key, UserInfo>, toForget: set<Key>,
                             toRemember: map<Key, UserInfo>) {
    && (toForget == {} || toRemember == map[])
    && (forall k :: k in toForget ==> k in current)
    && (forall k :: k in toRemember ==> k !in current)
    && (forall k :: k in current && k in retiring ==> k in toForget)
  }

  /** What has been drained came from counters that are still registered. */
  ghost predicate DeltasOk(pending: seq<Delta>, stats: Stats) {
    forall j :: 0 <= j < |pending| ==>
      && pending[j].value > 0
      && (pending[j].email, pending[j].dir) in stats
      && stats[(pending[j].email, pending[j].dir)] == pending[j].counter
  }

  ghost predicate MonitorOk(monitor: Monitor, pending: seq<Delta>, current: set<Key>, runtime: map<Key, nat>,
                            active: seq<int>) {
    && (!monitor.Draining? && !monitor.Restoring? ==> pending == [])
    && (monitor.Detaching? ==>
          && monitor.key in runtime
          && monitor.key !in current
          && runtime[monitor.key] < |active|
          && active[runtime[monitor.key]] == 0)
  }

  /** Bytes in the counter the monitor can see. */
  function Visible(stats: Stats, counters: seq<Counter>, e: Name): int {
    if e in stats && stats[e] < |counters| then counters[stats[e]].value else 0
  }

  /** Bytes in counters that are no longer registered. */
  function Stray(stats: Stats, counters: seq<Counter>, e: Name): int {
    Stored(counters, e) - Visible(stats, counters, e)
  }

  /** Bytes that are stray already, or may become so when the finalization in progress commits. */
  function AtRisk(stats: Stats, counters: seq<Counter>, monitor: Monitor, e: Name): int {
    if monitor.Detaching? && monitor.key.email == e.0 then Stored(counters, e) else Stray(stats, counters, e)
  }

  predicate Balanced(ledger: Ledger, pending: seq<Delta>, stats: Stats, counters: seq<Counter>, monitor: Monitor,
                     e: Name) {
    && ledger.counted[e] == ledger.reported[e] + ledger.discarded[e] + Drained(pending, e) + Stored(counters, e)
    && 0 <= Stray(stats, counters, e)
    && AtRisk(stats, counters, monitor, e) <= ledger.late[e]
  }

  ghost predicate Money(ledger: Ledger, pending: seq<Delta>, stats: Stats, counters: seq<Counter>, monitor: Monitor) {
    forall e :: Balanced(ledger, pending, stats, counters, monitor, e)
  }

  ghost predicate Inv(s: State) {
    && Wf(s)
    && RefCounts(s.active, s.flows)
    && FlowsOk(s.flows, s.runtime, s.stats, s.counters)
    && NamesOk(s.stats, s.counters)
    && RuntimesOk(s.managed, s.current, s.runtime)
    && RetiringOk(s.current, s.retiring, s.toForget, s.toRemember)
    && DeltasOk(s.pending, s.stats)
    && MonitorOk(s.monitor, s.pending, s.current, s.runtime, s.active)
    && Money(s.ledger, s.pending, s.stats, s.counters, s.monitor)
  }

  lemma InitInv()
    ensures Inv(Init())
  {
  }

  /******* Preservation, step by step *******/

  lemma EnsureRuntimeInv(s: State, k: Key)
    requires Inv(s) && Owned(k)
    ensures Inv(EnsureRuntime(s, k))
  {
    hide Owned, TagOf, NamesOk, RetiringOk, DeltasOk, Money;
    var s' := EnsureRuntime(s, k);
    if k !in s.runtime {
      NoHolders(s.flows, |s.active|);
      assert FlowsOk(s'.flows, s'.runtime, s'.stats, s'.counters) by {
        forall i | 0 <= i < |s.flows| ensures FlowOk(s.flows[i], s'.runtime, s.stats, s.counters) {
          assert FlowOk(s.flows[i], s.runtime, s.stats, s.counters);
        }
      }
    }
  }

  lemma RegisterInv(s: State, k: Key)
    requires Inv(s)
    ensures Inv(Apply(s, Register(k)))
  {
    hide Owned, TagOf, RefCounts, FlowsOk, NamesOk, DeltasOk, Money, RuntimeIds, StatsIds, FlowIds, DeltaIds;
    if LockFree(s) && s.toRemember == map[] && Owned(k) {
      EnsureRuntimeInv(s, k);
    }
  }

  lemma RetireInv(s: State, k: Key, u: UserInfo)
    requires Inv(s)
    ensures Inv(Apply(s, Retire(k, u)))
  {
    hide Owned, TagOf, RefCounts, FlowsOk, NamesOk, DeltasOk, Money, RuntimeIds, StatsIds, FlowIds, DeltaIds;
    if LockFree(s) && s.toForget == {} && Owned(k) {
      EnsureRuntimeInv(s, k);
    }
  }

  lemma ListInv(s: State, step: Step)
    requires Inv(s) && (step.Manage? || step.Forget? || step.Remember?)
    ensures Inv(Apply(s, step))
  {
    hide Owned, TagOf, RefCounts, FlowsOk, NamesOk, DeltasOk, MonitorOk, Money, RuntimeIds, StatsIds, FlowIds,
      DeltaIds;
  }

  lemma AcquireInv(s: State, k: Key)
    requires Inv(s)
    ensures Inv(Apply(s, Acquire(k)))
  {
    hide Owned, TagOf, NamesOk, RetiringOk, DeltasOk, Money;
    if LockFree(s) {
      if k.tag !in s.managed {
        NoHolders(s.flows, |s.active|);
        JoinInv(s.(active := s.active + [0]), k, false, |s.active|);
        assert s.active + [1] == (s.active + [0])[|s.active| := 1];
      } else if k in s.current {
        JoinInv(s, k, true, s.runtime[k]);
        assert s.managed + {k.tag} == s.managed;
      }
    }
  }

  /** A new flow takes one reference on runtime `r`. */
  lemma JoinInv(s: State, k: Key, managed: bool, r: nat)
    requires Inv(s) && LockFree(s) && r < |s.active|
    requires managed ==> k in s.runtime && s.runtime[k] == r
    ensures Inv(s.(active := s.active[r := s.active[r] + 1], flows := s.flows + [NewFlow(k, managed, r)]))
  {
    hide Owned, TagOf, NamesOk, RuntimesOk, RetiringOk, DeltasOk, Money;
    var f := NewFlow(k, managed, r);
    var flows := s.flows + [f];
    var active := s.active[r := s.active[r] + 1];
    assert RefCounts(active, flows) by {
      assert flows[..|s.flows|] == s.flows;
    }
    assert FlowsOk(flows, s.runtime, s.stats, s.counters) by {
      forall i | 0 <= i < |flows| ensures FlowOk(flows[i], s.runtime, s.stats, s.counters) {
        if i < |s.flows| {
          assert FlowOk(s.flows[i], s.runtime, s.stats, s.counters);
        } else {
          NewFlowOk(k, managed, r, s.runtime, s.stats, s.counters);
        }
      }
    }
  }

  lemma NewFlowOk(k: Key, managed: bool, r: nat, runtime: map<Key, nat>, stats: Stats, counters: seq<Counter>)
    requires managed ==> k in runtime && runtime[k] == r
    ensures FlowOk(NewFlow(k, managed, r), runtime, stats, counters)
  {
  }

  lemma FlowUpdate(s: State, s': State, i: nat, f: Flow)
    requires Inv(s) && i < |s.flows|
    requires s'.flows == s.flows[i := f] && f.runtime == s.flows[i].runtime && f.released == s.flows[i].released
    requires s'.active == s.active
    ensures RefCounts(s'.active, s'.flows)
  {
    forall r | 0 <= r < |s.active| ensures s.active[r] == Holders(s'.flows, r) {
      HoldersUpdate(s.flows, i, f, r);
    }
  }

  lemma EnsureCounterInv(s: State, name: Name)
    requires Inv(s)
    ensures Inv(EnsureCounter(s, name))
  {
    hide Owned, TagOf, RefCounts, FlowsOk, RuntimesOk, RetiringOk, MonitorOk, Money;
    if name !in s.stats {
      EnsureCounterFlows(s, name);
      EnsureCounterMoney(s, name);
    }
  }

  lemma EnsureCounterFlows(s: State, name: Name)
    requires Inv(s) && name !in s.stats
    ensures var s' := EnsureCounter(s, name); FlowsOk(s'.flows, s'.runtime, s'.stats, s'.counters)
  {
    hide Owned, TagOf, RefCounts, NamesOk, RuntimesOk, RetiringOk, DeltasOk, MonitorOk, Money;
    var s' := EnsureCounter(s, name);
    forall i | 0 <= i < |s.flows| ensures FlowOk(s.flows[i], s'.runtime, s'.stats, s'.counters) {
      assert FlowOk(s.flows[i], s.runtime, s.stats, s.counters);
    }
  }

  lemma EnsureCounterMoney(s: State, name: Name)
    requires Inv(s) && name !in s.stats
    ensures var s' := EnsureCounter(s, name); Money(s'.ledger, s'.pending, s'.stats, s'.counters, s'.monitor)
  {
    hide Owned, TagOf, RefCounts, FlowsOk, RuntimesOk, RetiringOk, DeltasOk, MonitorOk;
    var s' := EnsureCounter(s, name);
    forall e ensures Balanced(s'.ledger, s'.pending, s'.stats, s'.counters, s'.monitor, e) {
      assert Balanced(s.ledger, s.pending, s.stats, s.counters, s.monitor, e);
      assert s'.counters[..|s.counters|] == s.counters;
    }
  }

  lemma SetHandleOk(f: Flow, d: Direction, runtime: map<Key, nat>, stats: Stats, counters: seq<Counter>)
    requires FlowOk(f, runtime, stats, counters) && NamesOk(stats, counters) && (f.key.email, d) in stats
    ensures FlowOk(WithHandle(f, d, stats[(f.key.email, d)]), runtime, stats, counters)
  {
  }

  lemma FetchInv(s: State, i: nat, d: Direction)
    requires Inv(s)
    ensures Inv(Apply(s, Fetch(i, d)))
  {
    hide FlowOk, RuntimeIds, StatsIds, DeltaIds, Owned, TagOf, RefCounts, RuntimesOk, RetiringOk, DeltasOk, MonitorOk,
      Money;
    if i < |s.flows| {
      var s1 := EnsureCounter(s, (s.flows[i].key.email, d));
      EnsureCounterInv(s, (s.flows[i].key.email, d));
      var f := WithHandle(s.flows[i], d, s1.stats[(s.flows[i].key.email, d)]);
      assert FlowOk(s1.flows[i], s1.runtime, s1.stats, s1.counters);
      SetHandleOk(s1.flows[i], d, s1.runtime, s1.stats, s1.counters);
      FlowUpdate(s1, s1.(flows := s1.flows[i := f]), i, f);
    }
  }

  lemma AttachInv(s: State, i: nat, link: Link)
    requires Inv(s)
    ensures Inv(Apply(s, Attach(i, link)))
  {
    hide Owned, TagOf, Wf, RefCounts, NamesOk, RuntimesOk, RetiringOk, DeltasOk, MonitorOk, Money;
    var s' := Apply(s, Attach(i, link));
    if i < |s.flows| {
      FlowUpdate(s, s', i, s'.flows[i]);
      assert FlowOk(s.flows[i], s.runtime, s.stats, s.counters);
    }
  }

  /** Releasing a flow whose lifecycle already says so. */
  lemma ReleaseInv(s: State, i: nat, f: Flow)
    requires Inv(s) && i < |s.flows| && !s.flows[i].released
    requires f.released && LifecycleOk(f) && f.key == s.flows[i].key && f.runtime == s.flows[i].runtime
    requires f.up == s.flows[i].up && f.down == s.flows[i].down && f.managed == s.flows[i].managed
    ensures s.active[f.runtime] > 0
    ensures Inv(s.(flows := s.flows[i := f], active := s.active[f.runtime := s.active[f.runtime] - 1]))
  {
    hide Owned, TagOf, NamesOk, RuntimesOk, RetiringOk, DeltasOk, Money;
    HolderCounts(s.flows, i);
    var s' := s.(flows := s.flows[i := f], active := s.active[f.runtime := s.active[f.runtime] - 1]);
    assert RefCounts(s'.active, s'.flows) by {
      forall r | 0 <= r < |s.active| ensures s'.active[r] == Holders(s'.flows, r) {
        HoldersUpdate(s.flows, i, f, r);
      }
    }
    assert FlowOk(s.flows[i], s.runtime, s.stats, s.counters);
  }

  lemma ReleaseStepInv(s: State, i: nat)
    requires Inv(s)
    ensures Inv(Apply(s, Release(i)))
  {
    hide Owned, TagOf, Wf, RefCounts, NamesOk, RuntimesOk, RetiringOk, DeltasOk, MonitorOk, Money;
    if i < |s.flows| && !s.flows[i].link.Piped? && !s.flows[i].released {
      assert FlowOk(s.flows[i], s.runtime, s.stats, s.counters);
      ReleaseInv(s, i, s.flows[i].(released := true));
    }
  }

  lemma EndWriterInv(s: State, i: nat, d: Direction)
    requires Inv(s)
    ensures Inv(Apply(s, EndWriter(i, d)))
  {
    hide Owned, TagOf, Wf, RefCounts, NamesOk, RuntimesOk, RetiringOk, DeltasOk, MonitorOk, Money, RuntimeIds,
      StatsIds, DeltaIds;
    if i < |s.flows| && s.flows[i].link.Piped? && !s.flows[i].Ended(d) {
      var f := s.flows[i];
      assert FlowOk(f, s.runtime, s.stats, s.counters);
      var f1 := if d.Uplink? then f.(upEnded := true) else f.(downEnded := true);
      var f2 := f1.(remaining := f.remaining - 1);
      if f2.remaining == 0 {
        ReleaseInv(s, i, f2.(released := true));
        assert s.flows[i := f2][i := f2.(released := true)] == s.flows[i := f2.(released := true)];
      } else {
        FlowUpdate(s, s.(flows := s.flows[i := f2]), i, f2);
      }
    }
  }

  /** While a key is being detached nobody live writes under its email. */
  lemma DetachingIsQuiet(s: State, i: nat)
    requires Inv(s) && s.monitor.Detaching? && i < |s.flows| && s.flows[i].key.email == s.monitor.key.email
    ensures !s.flows[i].Live()
  {
    hide TagOf;
    assert FlowOk(s.flows[i], s.runtime, s.stats, s.counters);
    if s.flows[i].Live() {
      HolderCounts(s.flows, i);
    }
  }

  /** Changing one counter's value keeps every name and handle. */
  lemma CounterUpdate(s: State, c: nat, v: int)
    requires Inv(s) && c < |s.counters| && v >= 0
    ensures var counters' := s.counters[c := s.counters[c].(value := v)];
      NamesOk(s.stats, counters') && FlowsOk(s.flows, s.runtime, s.stats, counters')
  {
    var counters' := s.counters[c := s.counters[c].(value := v)];
    forall i | 0 <= i < |s.flows| ensures FlowOk(s.flows[i], s.runtime, s.stats, counters') {
      assert FlowOk(s.flows[i], s.runtime, s.stats, s.counters);
    }
  }

  lemma AddBytesInv(s: State, i: nat, d: Direction, n: nat)
    requires Inv(s)
    ensures Inv(Apply(s, AddBytes(i, d, n)))
  {
    hide Owned, TagOf, RefCounts, FlowsOk, RuntimesOk, RetiringOk, DeltasOk, MonitorOk, Money;
    if i < |s.flows| && s.flows[i].Handle(d).Some? {
      var c := s.flows[i].Handle(d).value;
      assert s.counters[c].value >= 0;
      CounterUpdate(s, c, s.counters[c].value + n);
      AddBytesMoney(s, i, d, n);
    }
  }

  lemma AddBytesMoney(s: State, i: nat, d: Direction, n: nat)
    requires Inv(s) && i < |s.flows| && s.flows[i].Handle(d).Some?
    ensures var s' := DoAddBytes(s, i, d, n); Money(s'.ledger, s'.pending, s'.stats, s'.counters, s'.monitor)
  {
    hide Owned, Balanced, RefCounts, FlowsOk, NamesOk, RuntimesOk, RetiringOk, DeltasOk, MonitorOk;
    var s' := DoAddBytes(s, i, d, n);
    forall e ensures Balanced(s'.ledger, s'.pending, s'.stats, s'.counters, s'.monitor, e) {
      AddBytesBalanced(s, i, d, n, e);
    }
  }

  /** A flow's handle carries its own email. */
  lemma HandleEmail(s: State, i: nat, d: Direction)
    requires Inv(s) && i < |s.flows| && s.flows[i].Handle(d).Some?
    ensures var f := s.flows[i]; var c := f.Handle(d).value;
      && s.counters[c].email == f.key.email
      && s.counters[c].dir == d
      && (f.Live() ==> (f.key.email, d) in s.stats && s.stats[(f.key.email, d)] == c)
  {
    hide RefCounts, NamesOk, RuntimesOk, RetiringOk, DeltasOk, MonitorOk, Money;
    assert FlowOk(s.flows[i], s.runtime, s.stats, s.counters);
  }

  /** Bytes written to a registered counter nobody is detaching stay visible; all others count as late. */
  lemma AddBalanced(ledger: Ledger, pending: seq<Delta>, stats: Stats, counters: seq<Counter>, monitor: Monitor,
                    c: nat, n: nat, live: bool, e: Name)
    requires Balanced(ledger, pending, stats, counters, monitor, e) && NamesOk(stats, counters) && c < |counters|
    requires live ==> counters[c].Name() in stats && stats[counters[c].Name()] == c
    requires live && monitor.Detaching? ==> monitor.key.email != counters[c].email
    ensures var x := counters[c];
      var late := if live then ledger.late else Credit(ledger.late, x.Name(), n);
      Balanced(ledger.(counted := Credit(ledger.counted, x.Name(), n), late := late), pending, stats,
               counters[c := x.(value := x.value + n)], monitor, e)
  {
    hide Stored, Visible, Drained, NamesOk;
    var x := counters[c];
    StoredUpdate(counters, c, x.(value := x.value + n), e);
    VisibleUpdate(stats, counters, c, x.value + n, e);
  }

  lemma AddBytesBalanced(s: State, i: nat, d: Direction, n: nat, e: Name)
    requires Inv(s) && i < |s.flows| && s.flows[i].Handle(d).Some?
    ensures var s' := DoAddBytes(s, i, d, n); Balanced(s'.ledger, s'.pending, s'.stats, s'.counters, s'.monitor, e)
  {
    hide Balanced, Owned, TagOf, RuntimeIds, StatsIds, DeltaIds, RefCounts, FlowsOk, NamesOk, RuntimesOk, RetiringOk,
      DeltasOk, MonitorOk;
    var f := s.flows[i];
    HandleEmail(s, i, d);
    assert Balanced(s.ledger, s.pending, s.stats, s.counters, s.monitor, e);
    if s.monitor.Detaching? && f.key.email == s.monitor.key.email {
      DetachingIsQuiet(s, i);
    }
    AddBalanced(s.ledger, s.pending, s.stats, s.counters, s.monitor, f.Handle(d).value, n, f.Live(), e);
  }

  lemma VisibleUpdate(stats: Stats, counters: seq<Counter>, c: nat, v: int, e: Name)
    requires NamesOk(stats, counters) && c < |counters|
    ensures Visible(stats, counters[c := counters[c].(value := v)], e)
         == Visible(stats, counters, e) + if e in stats && stats[e] == c then v - counters[c].value else 0
    ensures e in stats && stats[e] == c ==> counters[c].Name() == e
  {
  }

  lemma DrainInv(s: State, x: string, d: Direction)
    requires Inv(s)
    ensures Inv(Apply(s, Drain(x, d)))
  {
    hide Owned, TagOf, RefCounts, FlowsOk, NamesOk, RuntimesOk, RetiringOk, Money;
    if s.monitor.Draining? && (x, d) in s.stats {
      CounterUpdate(s, s.stats[(x, d)], 0);
      DrainMoney(s, x, d);
    }
  }

  lemma DrainMoney(s: State, x: string, d: Direction)
    requires Inv(s) && s.monitor.Draining?
    ensures var s' := DoDrain(s, x, d); Money(s'.ledger, s'.pending, s'.stats, s'.counters, s'.monitor)
  {
    hide Owned, TagOf, RefCounts, FlowsOk, RuntimesOk, RetiringOk, DeltasOk, MonitorOk;
    var s' := DoDrain(s, x, d);
    if s' != s {
      var c := s.stats[(x, d)];
      forall e ensures Balanced(s'.ledger, s'.pending, s'.stats, s'.counters, s'.monitor, e) {
        assert Balanced(s.ledger, s.pending, s.stats, s.counters, s.monitor, e);
        StoredUpdate(s.counters, c, s.counters[c].(value := 0), e);
        VisibleUpdate(s.stats, s.counters, c, 0, e);
        assert s'.pending[..|s.pending|] == s.pending;
      }
    }
  }

  lemma RestoreInv(s: State)
    requires Inv(s)
    ensures Inv(Apply(s, Restore))
  {
    hide Owned, TagOf, RefCounts, FlowsOk, RuntimesOk, RetiringOk, Money;
    if s.monitor.Restoring? {
      if s.pending != [] {
        CounterUpdate(s, s.pending[0].counter, s.counters[s.pending[0].counter].value + s.pending[0].value);
      }
      RestoreMoney(s);
    }
  }

  lemma RestoreMoney(s: State)
    requires Inv(s) && s.monitor.Restoring?
    ensures var s' := DoRestore(s); Money(s'.ledger, s'.pending, s'.stats, s'.counters, s'.monitor)
  {
    hide Owned, Balanced, RefCounts, FlowsOk, NamesOk, RuntimesOk, RetiringOk, DeltasOk, MonitorOk;
    var s' := DoRestore(s);
    forall e ensures Balanced(s'.ledger, s'.pending, s'.stats, s'.counters, s'.monitor, e) {
      RestoreBalanced(s, e);
    }
  }

  lemma RestoreBalanced(s: State, e: Name)
    requires Inv(s) && s.monitor.Restoring?
    ensures var s' := DoRestore(s); Balanced(s'.ledger, s'.pending, s'.stats, s'.counters, s'.monitor, e)
  {
    hide Stored, Visible, Drained, Owned, TagOf, RefCounts, FlowsOk, RuntimesOk, RetiringOk, MonitorOk;
    assert Balanced(s.ledger, s.pending, s.stats, s.counters, s.monitor, e);
    if s.pending != [] {
      var c := s.pending[0].counter;
      var v := s.counters[c].value + s.pending[0].value;
      StoredUpdate(s.counters, c, s.counters[c].(value := v), e);
      VisibleUpdate(s.stats, s.counters, c, v, e);
      DrainedHead(s.pending, e);
    }
  }

  lemma ReportInv(s: State, step: Step)
    requires Inv(s) && (step.ReportOk? || step.ReportDisabled?)
    ensures Inv(Apply(s, step))
  {
    hide Owned, TagOf, Wf, RefCounts, FlowsOk, NamesOk, RuntimesOk, RetiringOk;
    var s' := Apply(s, step);
    if s.monitor.Draining? {
      forall e ensures Balanced(s'.ledger, s'.pending, s'.stats, s'.counters, s'.monitor, e) {
        assert Balanced(s.ledger, s.pending, s.stats, s.counters, s.monitor, e);
        CreditAllSum(s.ledger.reported, s.pending, e);
        CreditAllSum(s.ledger.discarded, s.pending, e);
      }
    }
  }

  lemma UnregisterInv(s: State, d: Direction)
    requires Inv(s)
    ensures Inv(Apply(s, Unregister(d)))
  {
    hide Owned, TagOf, RefCounts, FlowsOk, RuntimesOk, RetiringOk, Money;
    if s.monitor.Detaching? {
      UnregisterFlows(s, d);
      UnregisterMoney(s, d);
    }
  }

  lemma UnregisterFlows(s: State, d: Direction)
    requires Inv(s) && s.monitor.Detaching?
    ensures FlowsOk(s.flows, s.runtime, s.stats - {(s.monitor.key.email, d)}, s.counters)
  {
    var stats' := s.stats - {(s.monitor.key.email, d)};
    forall i | 0 <= i < |s.flows| ensures FlowOk(s.flows[i], s.runtime, stats', s.counters) {
      assert FlowOk(s.flows[i], s.runtime, s.stats, s.counters);
      if s.flows[i].key.email == s.monitor.key.email {
        DetachingIsQuiet(s, i);
      }
    }
  }

  lemma UnregisterMoney(s: State, d: Direction)
    requires Inv(s) && s.monitor.Detaching?
    ensures var s' := Apply(s, Unregister(d)); Money(s'.ledger, s'.pending, s'.stats, s'.counters, s'.monitor)
  {
    hide Owned, TagOf, RefCounts, FlowsOk, RuntimesOk, RetiringOk, DeltasOk, MonitorOk;
    var s' := Apply(s, Unregister(d));
    forall e ensures Balanced(s'.ledger, s'.pending, s'.stats, s'.counters, s'.monitor, e) {
      assert Balanced(s.ledger, s.pending, s.stats, s.counters, s.monitor, e);
    }
  }

  lemma CommitInv(s: State)
    requires Inv(s)
    ensures Inv(Apply(s, Commit))
  {
    hide Owned, TagOf, RefCounts, RetiringOk, DeltasOk;
    var s' := Apply(s, Commit);
    if s' != s {
      assert FlowsOk(s'.flows, s'.runtime, s'.stats, s'.counters) by {
        forall i | 0 <= i < |s.flows| ensures FlowOk(s.flows[i], s'.runtime, s'.stats, s'.counters) {
          assert FlowOk(s.flows[i], s.runtime, s.stats, s.counters);
          if s.flows[i].key == s.monitor.key {
            DetachingIsQuiet(s, i);
          }
        }
      }
      forall e ensures Balanced(s'.ledger, s'.pending, s'.stats, s'.counters, s'.monitor, e) {
        assert Balanced(s.ledger, s.pending, s.stats, s.counters, s.monitor, e);
      }
    }
  }

  /** Moving the monitor between phases that hold no lock changes no balance. */
  lemma PhaseMoney(s: State, monitor: Monitor)
    requires Inv(s) && !s.monitor.Detaching? && !monitor.Detaching?
    ensures Money(s.ledger, s.pending, s.stats, s.counters, monitor)
  {
    forall e ensures Balanced(s.ledger, s.pending, s.stats, s.counters, monitor, e) {
      assert Balanced(s.ledger, s.pending, s.stats, s.counters, s.monitor, e);
    }
  }

  lemma PhaseInv(s: State, step: Step)
    requires Inv(s)
    requires step.Snapshot? || step.ReportFails? || step.ClearRetired? || step.EndPass?
    ensures Inv(Apply(s, step))
  {
    hide Owned, TagOf, Wf, RefCounts, FlowsOk, NamesOk, RuntimesOk, DeltasOk, Money, RuntimeIds, StatsIds, FlowIds,
      DeltaIds;
    if !s.monitor.Detaching? {
      PhaseMoney(s, Apply(s, step).monitor);
    }
  }

  lemma CheckIdleInv(s: State, k: Key)
    requires Inv(s)
    ensures Inv(Apply(s, CheckIdle(k)))
  {
    hide Owned, TagOf, RefCounts, FlowsOk, RuntimesOk, RetiringOk, DeltasOk;
    var s' := Apply(s, CheckIdle(k));
    if s.monitor.Finalizing? && k in s.monitor.snapshot && MayFinalize(s, k) {
      forall e ensures Balanced(s.ledger, s.pending, s.stats, s.counters, s'.monitor, e) {
        assert Balanced(s.ledger, s.pending, s.stats, s.counters, s.monitor, e);
      }
    }
  }

  lemma StepInv(s: State, step: Step)
    requires Inv(s)
    ensures Inv(Apply(s, step))
  {
    hide Owned, TagOf, Wf, RefCounts, FlowsOk, NamesOk, RuntimesOk, RetiringOk, DeltasOk, MonitorOk, Money,
      RuntimeIds, StatsIds, FlowIds, DeltaIds;
    match step
    case Manage(_) => ListInv(s, step);
    case Register(k) => RegisterInv(s, k);
    case Forget(_) => ListInv(s, step);
    case Retire(k, u) => RetireInv(s, k, u);
    case Remember(_) => ListInv(s, step);
    case Acquire(k) => AcquireInv(s, k);
    case Fetch(i, d) => FetchInv(s, i, d);
    case Attach(i, link) => AttachInv(s, i, link);
    case Release(i) => ReleaseStepInv(s, i);
    case EndWriter(i, d) => EndWriterInv(s, i, d);
    case AddBytes(i, d, n) => AddBytesInv(s, i, d, n);
    case Drain(e, d) => DrainInv(s, e, d);
    case Restore => RestoreInv(s);
    case ReportOk => ReportInv(s, step);
    case ReportDisabled => ReportInv(s, step);
    case Unregister(d) => UnregisterInv(s, d);
    case Commit => CommitInv(s);
    case CheckIdle(k) => CheckIdleInv(s, k);
    case _ => PhaseInv(s, step);
  }
}
