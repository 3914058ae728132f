/**
 The controller's loops over the shared dispatcher state, each proved to be a run of the lifecycle system. What
 holds in every run therefore holds for these methods and for anything interleaved with them.
 */
module Controller {
  import opened Api
  import opened UserKey
  import opened Lifecycle
  import opened LifecycleRuns
  import Report

  function KeyOf(tag: string, user: UserInfo): Key {
    Key(tag, FormatUserKey(tag, user.email, user.uid))
  }

  /** The textual keys of a user list, computed before any lock is taken. */
  method RuntimeUserKeys(tag: string, users: seq<UserInfo>) returns (keys: seq<Key>)
    ensures keys == KeysOf(tag, users)
  {
    keys := [];
    for n := 0 to |users|
      invariant keys == KeysOf(tag, users[..n])
    {
      keys := keys + [KeyOf(tag, users[n])];
    }
    assert users[..|users|] == users;
  }

  function KeysOf(tag: string, users: seq<UserInfo>): (keys: seq<Key>)
    ensures |keys| == |users|
  {
    seq(|users|, i requires 0 <= i < |users| => KeyOf(tag, users[i]))
  }

  function RegisterSteps(keys: seq<Key>): seq<Step> {
    seq(|keys|, i requires 0 <= i < |keys| => Register(keys[i]))
  }

  function ForgetSteps(keys: seq<Key>): seq<Step> {
    seq(|keys|, i requires 0 <= i < |keys| => Forget(keys[i]))
  }

  function RetireSteps(keys: seq<Key>, users: seq<UserInfo>): seq<Step>
    requires |keys| == |users|
  {
    seq(|keys|, i requires 0 <= i < |keys| => Retire(keys[i], users[i]))
  }

  function RememberSteps(keys: seq<Key>): seq<Step> {
    seq(|keys|, i requires 0 <= i < |keys| => Remember(keys[i]))
  }

  /** Admitting users: the tag, then all registrations, then all removals from the retiring list. */
  function AdmitSteps(tag: string, keys: seq<Key>): seq<Step> {
    [Manage(tag)] + RegisterSteps(keys) + ForgetSteps(keys)
  }

  /** Dismissing users: all retirements, then all entries of the retiring list. */
  function DismissSteps(keys: seq<Key>, users: seq<UserInfo>): seq<Step>
    requires |keys| == |users|
  {
    RetireSteps(keys, users) + RememberSteps(keys)
  }

  class Backend {
    // userFlowRegistry
    var managed: set<string>
    var current: set<Key>
    var runtime: map<Key, nat>
    var active: seq<int>
    // stats manager
    var stats: map<Name, nat>
    var counters: seq<Counter>
    var flows: seq<Flow>
    // controller
    var retiring: map<Key, UserInfo>
    var pending: seq<Delta>
    // positions of the two monitors, and the totals
    ghost var toForget: set<Key>
    ghost var toRemember: map<Key, UserInfo>
    ghost var monitor: Monitor
    ghost var ledger: Ledger

    ghost function View(): State
      reads this
    {
      State(managed, current, runtime, active, stats, counters, flows, retiring, toForget, toRemember, monitor,
            pending, ledger)
    }

    ghost predicate NodeIdle()
      reads this
    {
      !monitor.Detaching? && toForget == {} && toRemember == map[]
    }

    /** The body shared by the registry's `register` and `retire`: a missing runtime is created. */
    method EnsureEntry(k: Key)
      requires Wf(View())
      modifies this`managed, this`runtime, this`active
      ensures View() == EnsureRuntime(old(View()), k)
    {
      managed := managed + {k.tag};
      if k !in runtime {
        runtime := runtime[k := |active|];
        active := active + [0];
      }
    }

    method RegisterOne(k: Key)
      requires Wf(View()) && !monitor.Detaching? && toRemember == map[] && Owned(k)
      modifies this`managed, this`runtime, this`active, this`current, this`toForget
      ensures View() == Apply(old(View()), Lifecycle.Register(k))
      ensures toForget == old(toForget) + {k}
    {
      EnsureEntry(k);
      current := current + {k};
      toForget := toForget + {k};
    }

    method ForgetOne(k: Key)
      requires Wf(View()) && (k in toForget || k !in retiring)
      modifies this`retiring, this`toForget
      ensures View() == Apply(old(View()), Forget(k))
      ensures retiring == old(retiring) - {k} && toForget == old(toForget) - {k}
    {
      assert k !in toForget ==> retiring - {k} == retiring;
      retiring := retiring - {k};
      toForget := toForget - {k};
    }

    /** Admission opens for all users before they leave the retiring list. */
    method RegisterManagedUsers(tag: string, users: seq<UserInfo>)
      requires Wf(View()) && NodeIdle() && '|' !in tag
      modifies this
      ensures View() == Exec(old(View()), AdmitSteps(tag, KeysOf(tag, users)))
      ensures NodeIdle()
      ensures old(RetiringKeyed()) ==> RetiringKeyed()
    {
      hide Apply, Wf, KeyOf, KeysOf, Exec, RegisterSteps, ForgetSteps;
      var keys := RuntimeUserKeys(tag, users);
      KeysOwned(tag, users);
      ghost var s0 := View();
      ManageTag(tag);
      ExecNil(s0);
      var first := Extend(s0, [], Lifecycle.Manage(tag));
      assert first == [Lifecycle.Manage(tag)];
      RegisterAll(keys);
      ExecConcat(s0, first, RegisterSteps(keys));
      ForgetAll(keys);
      ExecConcat(s0, first + RegisterSteps(keys), ForgetSteps(keys));
    }

    /** The registry's `node`: the tag is managed from now on, even without users. */
    method ManageTag(tag: string)
      requires Wf(View()) && !monitor.Detaching?
      modifies this`managed
      ensures View() == Apply(old(View()), Lifecycle.Manage(tag))
    {
      managed := managed + {tag};
    }

    method RegisterAll(keys: seq<Key>)
      requires Wf(View()) && NodeIdle() && forall i :: 0 <= i < |keys| ==> Owned(keys[i])
      modifies this`managed, this`runtime, this`active, this`current, this`toForget
      ensures View() == Exec(old(View()), RegisterSteps(keys))
      ensures forall k :: k in toForget <==> k in keys
    {
      hide Apply, Wf, Owned;
      ghost var s0 := View();
      ghost var steps := RegisterSteps(keys);
      for n := 0 to |keys|
        invariant View() == Exec(s0, steps[..n])
        invariant forall k :: k in toForget <==> k in keys[..n]
      {
        Unroll(s0, steps, n);
        RegisterOne(keys[n]);
      }
      assert keys[..|keys|] == keys && steps[..|keys|] == steps;
    }

    method ForgetAll(keys: seq<Key>)
      requires Wf(View()) && forall k :: k in toForget <==> k in keys
      modifies this`retiring, this`toForget
      ensures View() == Exec(old(View()), ForgetSteps(keys))
      ensures toForget == {} && forall k :: k in keys ==> k !in retiring
      ensures forall k :: k in retiring ==> k in old(retiring) && retiring[k] == old(retiring)[k]
    {
      hide Apply, Wf;
      ghost var s0 := View();
      ghost var steps := ForgetSteps(keys);
      for n := 0 to |keys|
        invariant View() == Exec(s0, steps[..n])
        invariant forall k :: k in toForget ==> k in keys[n..]
        invariant forall k :: k in keys[n..] && k !in toForget ==> k !in retiring
        invariant forall k :: k in keys[..n] ==> k !in retiring
        invariant forall k :: k in retiring ==> k in old(retiring) && retiring[k] == old(retiring)[k]
      {
        Unroll(s0, steps, n);
        assert keys[n..] == [keys[n]] + keys[n + 1..];
        ForgetOne(keys[n]);
      }
      assert keys[..|keys|] == keys && steps[..|keys|] == steps;
    }

    method RetireOne(k: Key, u: UserInfo)
      requires Wf(View()) && !monitor.Detaching? && toForget == {} && Owned(k)
      modifies this`managed, this`runtime, this`active, this`current, this`toRemember
      ensures View() == Apply(old(View()), Lifecycle.Retire(k, u))
      ensures toRemember == old(toRemember)[k := u]
    {
      EnsureEntry(k);
      current := current - {k};
      toRemember := toRemember[k := u];
    }

    /** Admission closes for all users before they enter the retiring list; an empty list touches nothing. */
    method RetireManagedUsers(tag: string, users: seq<UserInfo>)
      requires Wf(View()) && NodeIdle() && '|' !in tag
      modifies this
      ensures View() == Exec(old(View()), DismissSteps(KeysOf(tag, users), users))
      ensures NodeIdle()
      ensures old(RetiringKeyed()) ==> RetiringKeyed()
    {
      hide Apply, Wf, KeyOf, Exec;
      ghost var s0 := View();
      if |users| == 0 {
        NoSteps(s0, RetireSteps([], users) + RememberSteps([]));
        assert KeysOf(tag, users) == [];
        return;
      }
      var keys := RuntimeUserKeys(tag, users);
      KeysOwned(tag, users);
      RetireAll(keys, users);
      RememberAll(keys, users);
      LastUserKeyed(tag, users, |users|);
      ExecConcat(s0, RetireSteps(keys, users), RememberSteps(keys));
    }

    method RetireAll(keys: seq<Key>, users: seq<UserInfo>)
      requires Wf(View()) && NodeIdle() && forall i :: 0 <= i < |keys| ==> Owned(keys[i])
      requires |keys| == |users|
      modifies this`managed, this`runtime, this`active, this`current, this`toRemember
      ensures View() == Exec(old(View()), RetireSteps(keys, users))
      ensures toRemember == LastUser(keys, users, |keys|)
    {
      hide Apply, Wf, Owned;
      ghost var s0 := View();
      ghost var steps := RetireSteps(keys, users);
      for n := 0 to |keys|
        invariant View() == Exec(s0, steps[..n])
        invariant toRemember == LastUser(keys, users, n)
      {
        Unroll(s0, steps, n);
        RetireOne(keys[n], users[n]);
      }
      assert steps[..|keys|] == steps;
    }

    /** Every key ends up filed under its last user, also when the list names it twice. */
    method RememberAll(keys: seq<Key>, users: seq<UserInfo>)
      requires Wf(View()) && |keys| == |users| && toRemember == LastUser(keys, users, |keys|)
      modifies this`retiring, this`toRemember
      ensures View() == Exec(old(View()), RememberSteps(keys))
      ensures toRemember == map[] && retiring == old(retiring) + LastUser(keys, users, |keys|)
    {
      hide Apply, Wf, Exec;
      for n := 0 to |keys|
        invariant retiring == old(retiring) + LastUser(keys, users, n)
      {
        retiring := retiring[keys[n] := users[n]];
      }
      RememberRun(old(View()), keys, users, |keys|);
      assert RememberSteps(keys)[..|keys|] == RememberSteps(keys);
      toRemember := map[];
    }

    /** `drainTrafficCounter` on a registered name: swap with zero, and put a negative value back. */
    method DrainCounter(email: string, d: Direction) returns (value: int)
      requires Wf(View()) && monitor.Draining?
      modifies this`counters, this`pending
      ensures View() == Apply(old(View()), Drain(email, d))
      ensures value >= 0
      ensures pending == old(pending) + DeltaOf(email, d, if (email, d) in stats then stats[(email, d)] else 0, value)
    {
      value := 0;
      if (email, d) !in stats {
        return;
      }
      var c := stats[(email, d)];
      var x := counters[c];
      counters := counters[c := x.(value := 0)];
      if x.value <= 0 {
        if x.value < 0 {
          counters := counters[c := counters[c].(value := counters[c].value + x.value)];
        }
        assert counters == old(counters);
        return;
      }
      value := x.value;
      pending := pending + [Delta(email, d, c, value)];
    }

    /**
     Drains a list of users, current or retired, into the report. Per UID and direction the rows gain exactly what
     the new deltas hold, so report and deltas settle the same bytes.
     */
    method DrainUsers(entries: seq<Entry>, report: Report.TrafficReport)
      requires Wf(View()) && monitor.Draining? && report.Valid()
      modifies this`counters, this`pending, report
      ensures View() == Exec(old(View()), DrainSteps(entries))
      ensures report.Valid()
      ensures report.rows != [] || (report.rows == old(report.rows) && pending == old(pending))
      ensures forall uid, d :: Report.RowSum(report.rows, uid, SideOf(d)) - DeltaSum(pending, uid, d)
                             == Report.RowSum(old(report.rows), uid, SideOf(d)) - DeltaSum(old(pending), uid, d)
    {
      hide Apply, Wf, Exec;
      ghost var s0 := View();
      NoSteps(s0, DrainSteps(entries[..0]));
      for n := 0 to |entries|
        invariant View() == Exec(s0, DrainSteps(entries[..n]))
        invariant report.Valid()
        invariant report.rows != [] || (report.rows == old(report.rows) && pending == old(pending))
        invariant forall uid, d :: Report.RowSum(report.rows, uid, SideOf(d)) - DeltaSum(pending, uid, d)
                                 == Report.RowSum(old(report.rows), uid, SideOf(d)) - DeltaSum(old(pending), uid, d)
      {
        DrainStepsSnoc(s0, entries, n);
        DrainUser(entries[n], report);
      }
      assert entries[..|entries|] == entries;
    }

    method DrainUser(entry: Entry, report: Report.TrafficReport)
      requires Wf(View()) && monitor.Draining? && report.Valid()
      modifies this`counters, this`pending, report
      ensures View() == Apply(Apply(old(View()), Drain(entry.Email(), Uplink)), Drain(entry.Email(), Downlink))
      ensures report.Valid()
      ensures report.rows != [] || (report.rows == old(report.rows) && pending == old(pending))
      ensures forall uid, d :: Report.RowSum(report.rows, uid, SideOf(d)) - DeltaSum(pending, uid, d)
                             == Report.RowSum(old(report.rows), uid, SideOf(d)) - DeltaSum(old(pending), uid, d)
    {
      hide Apply, Wf, Report.AddRow, Report.RowSum, DeltaSum, DeltaOf, Report.IndexOk;
      var email := entry.Email();
      var up := DrainCounter(email, Uplink);
      var down := DrainCounter(email, Downlink);
      ghost var sample := Report.Sample(entry.user, up, down);
      ghost var c := if (email, Uplink) in stats then stats[(email, Uplink)] else 0;
      ghost var c' := if (email, Downlink) in stats then stats[(email, Downlink)] else 0;
      forall uid, d
        ensures Report.RowSum(Report.AddRow(report.rows, report.index, sample), uid, SideOf(d))
             - DeltaSum(pending, uid, d)
             == Report.RowSum(report.rows, uid, SideOf(d)) - DeltaSum(old(pending), uid, d)
      {
        DrainGain(report.rows, report.index, entry, up, down, old(pending), c, c', uid, d);
      }
      RowAdded(report.rows, report.index, sample, email, c, c');
      report.Append(entry.user, up, down);
    }

    /** A disabled upload or an accepted report ends the drain; only the totals tell the two apart. */
    method Settle(disabled: bool)
      requires Wf(View()) && monitor.Draining?
      modifies this`pending, this`monitor, this`ledger
      ensures View() == Apply(old(View()), if disabled then ReportDisabled else ReportOk)
      ensures monitor == Finalizing(old(monitor).snapshot) && pending == []
    {
      if disabled {
        ledger := ledger.(discarded := CreditAll(ledger.discarded, pending));
      } else {
        ledger := ledger.(reported := CreditAll(ledger.reported, pending));
      }
      pending := [];
      monitor := Finalizing(monitor.snapshot);
    }

    ghost method ReportFailed()
      requires Wf(View()) && monitor.Draining?
      modifies this`monitor
      ensures View() == Apply(old(View()), ReportFails) && monitor.Restoring?
    {
      monitor := Restoring;
    }

    /** `flushUserTraffic`: discarded when disabled, committed when accepted, else given back delta by delta. */
    method FlushUserTraffic(disabled: bool, accepted: bool) returns (ok: bool)
      requires Wf(View()) && monitor.Draining?
      modifies this`counters, this`pending, this`monitor, this`ledger
      ensures ok == (disabled || accepted)
      ensures View() == Exec(old(View()), FlushSteps(disabled, accepted, |old(pending)|))
      ensures ok ==> monitor == Finalizing(old(monitor).snapshot)
      ensures !ok ==> monitor.Idle?
      ensures pending == []
    {
      hide Exec, Wf, Apply;
      ghost var s0 := View();
      ghost var steps := FlushSteps(disabled, accepted, |pending|);
      Unroll(s0, steps, 0);
      NoSteps(s0, steps[..0]);
      if disabled || accepted {
        Settle(disabled);
        assert steps[..1] == steps;
        return true;
      }
      ReportFailed();
      RestoreTraffic(s0, steps);
      return false;
    }

    /** Without rows there is nothing to send, and the pass goes on as after a report. */
    ghost method NothingToReport(disabled: bool)
      requires Wf(View()) && monitor.Draining? && pending == []
      modifies this`monitor, this`ledger
      ensures View() == Exec(old(View()), FlushSteps(disabled, true, 0))
      ensures monitor == Finalizing(old(monitor).snapshot) && ledger == old(ledger) && pending == []
    {
      hide Wf, Exec;
      ghost var s0 := View();
      Unroll(s0, FlushSteps(disabled, true, 0), 0);
      NoSteps(s0, FlushSteps(disabled, true, 0)[..0]);
      assert FlushSteps(disabled, true, 0)[..1] == FlushSteps(disabled, true, 0);
      monitor := Finalizing(monitor.snapshot);
    }

    method RestoreOne()
      requires Wf(View()) && monitor.Restoring? && pending != []
      modifies this`counters, this`pending
      ensures View() == Apply(old(View()), Restore)
      ensures pending == old(pending)[1..]
    {
      var delta := pending[0];
      var x := counters[delta.counter];
      counters := counters[delta.counter := x.(value := x.value + delta.value)];
      pending := pending[1..];
    }

    ghost method RestoreDone()
      requires Wf(View()) && monitor.Restoring? && pending == []
      modifies this`monitor
      ensures View() == Apply(old(View()), Restore) && monitor.Idle?
    {
      monitor := Idle;
    }

    method RestoreTraffic(ghost s0: State, ghost steps: seq<Step>)
      requires Wf(View()) && monitor.Restoring? && Wf(s0) && steps == FlushSteps(false, false, |pending|)
      requires View() == Exec(s0, steps[..1])
      modifies this`counters, this`pending, this`monitor
      ensures View() == Exec(s0, steps) && monitor.Idle? && pending == []
    {
      hide Exec, Apply, Wf;
      ghost var total := |pending|;
      while pending != []
        invariant |pending| <= total && monitor.Restoring?
        invariant View() == Exec(s0, steps[..1 + total - |pending|])
        decreases |pending|
      {
        Unroll(s0, steps, 1 + total - |pending|);
        RestoreOne();
      }
      Unroll(s0, steps, 1 + total);
      RestoreDone();
      assert steps[..2 + total] == steps;
    }

    /** `FinalizeRetiredUser`: the registry's conditions, then the counters', then both names and the runtime go. */
    method FinalizeRetiredUser(k: Key) returns (done: bool)
      requires Wf(View()) && monitor.Finalizing? && k in monitor.snapshot
      modifies this`stats, this`runtime, this`monitor
      ensures done == MayFinalize(old(View()), k)
      ensures View() == Exec(old(View()), DetachPart(k))
      ensures done ==> monitor == Clearing(old(monitor).snapshot - {k}, k, old(monitor).snapshot[k])
      ensures !done ==> View() == old(View())
    {
      ghost var s0 := View();
      done := CheckFinalize(k);
      if done {
        DetachPhase(s0, k);
        hide Exec, Wf, MayFinalize;
        stats := stats - {(k.email, Uplink)};
        stats := stats - {(k.email, Downlink)};
        runtime := runtime - {k};
        monitor := Clearing(monitor.snapshot - {k}, k, monitor.snapshot[k]);
      } else {
        NotIdlePhase(s0, k);
      }
    }

    method CheckFinalize(k: Key) returns (idle: bool)
      requires Wf(View())
      ensures idle == MayFinalize(View(), k)
    {
      if k.tag !in managed || k in current || k !in runtime || active[runtime[k]] != 0 {
        return false;
      }
      var up, down := (k.email, Uplink), (k.email, Downlink);
      idle := (up !in stats || counters[stats[up]].value == 0) && (down !in stats || counters[stats[down]].value == 0);
    }

    method FinalizeOne(k: Key, u: UserInfo)
      requires Wf(View()) && monitor.Finalizing? && k in monitor.snapshot && monitor.snapshot[k] == u
      modifies this`stats, this`runtime, this`monitor, this`retiring
      ensures View() == Exec(old(View()), DetachPart(k) + [ClearRetired])
      ensures monitor.Finalizing?
      ensures monitor.snapshot == old(monitor).snapshot - {k} || monitor.snapshot == old(monitor).snapshot
      ensures retiring == old(retiring) || retiring == old(retiring) - {k}
    {
      hide Exec, Wf, MayFinalize, DetachPart;
      ghost var s0 := View();
      var done := FinalizeRetiredUser(k);
      ClearAfter(s0, k);
      if done {
        if k in retiring && retiring[k] == u {
          retiring := retiring - {k};
        }
        monitor := Finalizing(monitor.snapshot);
      }
    }

    /** `finalizeRetiringUsers`: each entry of the snapshot is tried once. */
    method FinalizeRetiringUsers(entries: seq<Entry>)
      requires Wf(View()) && monitor.Finalizing? && NoDuplicates(EntryKeys(entries))
      requires forall i :: 0 <= i < |entries| ==>
        EntryKeys(entries)[i] in monitor.snapshot && monitor.snapshot[EntryKeys(entries)[i]] == entries[i].user
      modifies this`stats, this`runtime, this`monitor, this`retiring
      ensures View() == Exec(old(View()), FinalizeSteps(EntryKeys(entries)))
      ensures monitor.Finalizing?
      ensures forall k :: k in retiring ==> k in old(retiring) && retiring[k] == old(retiring)[k]
    {
      hide Exec, Wf, Apply, DetachPart;
      ghost var s0 := View();
      ghost var keys := EntryKeys(entries);
      NoSteps(s0, FinalizeSteps(keys[..0]));
      for n := 0 to |entries|
        invariant monitor.Finalizing? && View() == Exec(s0, FinalizeSteps(keys[..n]))
        invariant forall k :: k in retiring ==> k in old(retiring) && retiring[k] == old(retiring)[k]
        invariant forall i :: n <= i < |keys| ==>
          keys[i] in monitor.snapshot && monitor.snapshot[keys[i]] == entries[i].user
      {
        FinalizeStepsSnoc(s0, keys, n);
        FinalizeOne(KeyOf(entries[n].tag, entries[n].user), entries[n].user);
      }
      assert keys[..|keys|] == keys;
    }

    /** Every retiring entry is filed under the key its user prints. */
    ghost predicate RetiringKeyed()
      reads this
    {
      forall k :: k in retiring ==> k == KeyOf(k.tag, retiring[k])
    }

    /** `retiringUserSnapshot`: all entries, each once, in any order. */
    method RetiringUserSnapshot() returns (entries: seq<Entry>)
      requires RetiringKeyed()
      ensures NoDuplicates(EntryKeys(entries))
      ensures forall i :: 0 <= i < |entries| ==>
        EntryKeys(entries)[i] in retiring && retiring[EntryKeys(entries)[i]] == entries[i].user
      ensures forall k :: k in retiring ==> k in EntryKeys(entries)
    {
      hide KeyOf;
      entries := [];
      var rest := retiring.Keys;
      while rest != {}
        invariant rest <= retiring.Keys && NoDuplicates(EntryKeys(entries))
        invariant forall k :: k in EntryKeys(entries) ==> k in retiring && k !in rest
        invariant forall i :: 0 <= i < |entries| ==>
          EntryKeys(entries)[i] in retiring && retiring[EntryKeys(entries)[i]] == entries[i].user
        invariant forall k :: k in retiring ==> k in rest || k in EntryKeys(entries)
        decreases |rest|
      {
        var k :| k in rest;
        assert EntryKeys(entries + [Entry(k.tag, retiring[k])]) == EntryKeys(entries) + [k];
        entries := entries + [Entry(k.tag, retiring[k])];
        rest := rest - {k};
      }
    }

    ghost method BeginPass()
      requires Wf(View()) && monitor.Idle?
      modifies this`monitor
      ensures View() == Apply(old(View()), Snapshot) && monitor == Draining(retiring)
    {
      monitor := Draining(retiring);
    }

    ghost method FinishPass()
      requires Wf(View()) && monitor.Finalizing?
      modifies this`monitor
      ensures View() == Apply(old(View()), EndPass) && monitor.Idle?
    {
      monitor := Idle;
    }

    /**
     The traffic half of one `userInfoMonitor` pass: current users and all retiring users are drained, the rows are
     reported, and only after a settled report are retired users finalized. The rows hold, per UID and direction,
     exactly the drained deltas, each UID once.
     */
    method UserInfoMonitor(tag: string, users: seq<UserInfo>, disabled: bool, accepted: bool)
      returns (rows: seq<UserTraffic>, ghost retired: seq<Entry>, ghost drained: seq<Delta>)
      requires Wf(View()) && monitor.Idle? && pending == [] && RetiringKeyed()
      modifies this
      ensures var entries := EntriesOf(tag, users) + retired;
        View() == Exec(old(View()), PassSteps(entries, retired, disabled, accepted || rows == [], |drained|))
      ensures forall k :: k in old(retiring) ==> k in EntryKeys(retired)
      ensures drained == Exec(old(View()), [Snapshot] + DrainSteps(EntriesOf(tag, users) + retired)).pending
      ensures Report.Distinct(rows)
      ensures forall uid, d :: Report.RowSum(rows, uid, SideOf(d)) == DeltaSum(drained, uid, d)
      ensures rows == [] ==> drained == []
      ensures monitor.Idle? && pending == [] && RetiringKeyed()
    {
      hide Exec, Apply, Wf, KeyOf, EntryKeys, DrainSteps, FinalizeSteps, FlushSteps, DeltaSum;
      ghost var s0 := View();
      var entries := RetiringUserSnapshot();
      retired := entries;
      BeginPass();
      SnapshotFirst(s0);
      var report := new Report.TrafficReport();
      NothingDrained();
      var all := EntriesOf(tag, users) + entries;
      DrainUsers(all, report);
      ExecConcat(s0, [Snapshot], DrainSteps(all));
      drained := pending;
      rows := report.rows;
      ghost var s1 := View();
      ghost var settled := accepted || rows == [];
      var ok := true;
      if |rows| > 0 {
        ok := FlushUserTraffic(disabled, accepted);
      } else {
        NothingToReport(disabled);
      }
      ExecConcat(s0, [Snapshot] + DrainSteps(all), FlushSteps(disabled, settled, |drained|));
      if ok {
        FinalizeRetiringUsers(entries);
        ghost var before := [Snapshot] + DrainSteps(all) + FlushSteps(disabled, settled, |drained|);
        ExecConcat(s0, before, FinalizeSteps(EntryKeys(entries)));
        FinishPass();
        var _ := Extend(s0, before + FinalizeSteps(EntryKeys(entries)), EndPass);
      }
    }
  }

  /** For each of the first `n` keys, the user listed last under it. */
  function LastUser(keys: seq<Key>, users: seq<UserInfo>, n: nat): map<Key, UserInfo>
    requires |keys| == |users| && n <= |keys|
  {
    if n == 0 then map[] else LastUser(keys, users, n - 1)[keys[n - 1] := users[n - 1]]
  }

  lemma {:induction false} LastUserKeys(keys: seq<Key>, users: seq<UserInfo>, n: nat)
    requires |keys| == |users| && n <= |keys|
    ensures forall k :: k in LastUser(keys, users, n) <==> k in keys[..n]
  {
    if n > 0 {
      LastUserKeys(keys, users, n - 1);
      assert keys[..n] == keys[..n - 1] + [keys[n - 1]];
    }
  }

  lemma {:induction false} LastUserKeyed(tag: string, users: seq<UserInfo>, n: nat)
    requires n <= |users|
    ensures var last := LastUser(KeysOf(tag, users), users, n);
      forall k :: k in last ==> k == KeyOf(k.tag, last[k])
  {
    hide FormatUserKey;
    if n > 0 {
      LastUserKeyed(tag, users, n - 1);
    }
  }

  function Picked(from: map<Key, UserInfo>, keys: seq<Key>): map<Key, UserInfo> {
    map k | k in from && k in keys :: from[k]
  }

  function Left(from: map<Key, UserInfo>, keys: seq<Key>): map<Key, UserInfo> {
    map k | k in from && k !in keys :: from[k]
  }

  lemma PickedNext(retiring: map<Key, UserInfo>, from: map<Key, UserInfo>, keys: seq<Key>, n: nat)
    requires n < |keys|
    ensures var k := keys[n];
      && Left(from, keys[..n + 1]) == Left(from, keys[..n]) - {k}
      && (k in Left(from, keys[..n]) ==>
        retiring + Picked(from, keys[..n + 1]) == (retiring + Picked(from, keys[..n]))[k := Left(from, keys[..n])[k]])
      && (k !in Left(from, keys[..n]) ==> Picked(from, keys[..n + 1]) == Picked(from, keys[..n]))
  {
    assert keys[..n + 1] == keys[..n] + [keys[n]];
  }

  lemma RememberStep(s: State, k: Key)
    requires Wf(s)
    ensures Apply(s, Remember(k))
         == if k in s.toRemember
            then s.(retiring := s.retiring[k := s.toRemember[k]], toRemember := s.toRemember - {k}) else s
  {
    hide Wf;
  }

  lemma {:induction false} RememberPrefix(s: State, keys: seq<Key>, n: nat)
    requires Wf(s) && n <= |keys|
    ensures Exec(s, RememberSteps(keys)[..n])
         == s.(retiring := s.retiring + Picked(s.toRemember, keys[..n]), toRemember := Left(s.toRemember, keys[..n]))
  {
    hide Wf, Apply, Picked, Left;
    if n == 0 {
      NoSteps(s, RememberSteps(keys)[..0]);
      NothingPicked(s.retiring, s.toRemember, keys[..0]);
    } else {
      RememberPrefix(s, keys, n - 1);
      Unroll(s, RememberSteps(keys), n - 1);
      RememberStep(Exec(s, RememberSteps(keys)[..n - 1]), keys[n - 1]);
      PickedNext(s.retiring, s.toRemember, keys, n - 1);
    }
  }

  lemma NothingPicked(retiring: map<Key, UserInfo>, from: map<Key, UserInfo>, none: seq<Key>)
    requires none == []
    ensures retiring + Picked(from, none) == retiring && Left(from, none) == from
  {
  }

  lemma RememberRun(s: State, keys: seq<Key>, users: seq<UserInfo>, n: nat)
    requires Wf(s) && |keys| == |users| == n && s.toRemember == LastUser(keys, users, n)
    ensures Exec(s, RememberSteps(keys)[..n])
         == s.(retiring := s.retiring + LastUser(keys, users, n), toRemember := map[])
  {
    hide Wf, Exec;
    RememberPrefix(s, keys, n);
    LastUserKeys(keys, users, n);
    assert Picked(s.toRemember, keys[..n]) == s.toRemember && Left(s.toRemember, keys[..n]) == map[];
  }

  predicate NoDuplicates(keys: seq<Key>) {
    forall i, j :: 0 <= i < j < |keys| ==> keys[i] != keys[j]
  }

  lemma NoSteps(s: State, steps: seq<Step>)
    requires Wf(s) && steps == []
    ensures Exec(s, steps) == s
  {
  }

  /** A user the monitor visits, under the tag it was admitted with. */
  datatype Entry = Entry(tag: string, user: UserInfo)
  {
    function Email(): string {
      FormatUserKey(tag, user.email, user.uid)
    }
  }

  function DrainSteps(entries: seq<Entry>): seq<Step> {
    if entries == [] then []
    else
      var email := entries[|entries| - 1].Email();
      DrainSteps(entries[..|entries| - 1]) + [Drain(email, Uplink), Drain(email, Downlink)]
  }

  lemma DrainStepsSnoc(s: State, entries: seq<Entry>, n: nat)
    requires Wf(s) && n < |entries|
    ensures var email := entries[n].Email();
      Exec(s, DrainSteps(entries[..n + 1]))
      == Apply(Apply(Exec(s, DrainSteps(entries[..n])), Drain(email, Uplink)), Drain(email, Downlink))
  {
    hide Apply, Wf, Exec, FormatUserKey;
    var before, email := DrainSteps(entries[..n]), entries[n].Email();
    assert entries[..n + 1][..n] == entries[..n];
    TwoMore(s, before, Drain(email, Uplink), Drain(email, Downlink));
  }

  lemma TwoMore(s: State, p: seq<Step>, a: Step, b: Step)
    requires Wf(s)
    ensures Exec(s, p + [a, b]) == Apply(Apply(Exec(s, p), a), b)
  {
    hide Apply, Wf;
    assert (p + [a, b])[..|p| + 1] == p + [a];
    assert (p + [a])[..|p|] == p;
  }

  /** The report fails or panics: everything is restored, and the pass ends without finalizing. */
  function FlushSteps(disabled: bool, accepted: bool, deltas: nat): seq<Step> {
    if disabled then [ReportDisabled]
    else if accepted then [ReportOk]
    else [ReportFails] + seq(deltas + 1, i => Restore)
  }

  function SideOf(d: Direction): Report.Side {
    if d.Uplink? then Report.Up else Report.Down
  }

  function DeltaOf(email: string, d: Direction, c: nat, value: int): seq<Delta> {
    if value > 0 then [Delta(email, d, c, value)] else []
  }

  /** Bytes the deltas hold for a UID in one direction. */
  function DeltaSum(deltas: seq<Delta>, uid: int64, d: Direction): int {
    if deltas == [] then 0
    else
      var last := deltas[|deltas| - 1];
      DeltaSum(deltas[..|deltas| - 1], uid, d)
      + if UidOf(last.email) == Some(uid) && last.dir == d then last.value else 0
  }

  lemma DeltaSumAppend(deltas: seq<Delta>, email: string, d: Direction, c: nat, value: int, uid: int64, d': Direction)
    requires value >= 0
    ensures DeltaSum(deltas + DeltaOf(email, d, c, value), uid, d')
         == DeltaSum(deltas, uid, d') + if UidOf(email) == Some(uid) && d == d' then value else 0
  {
    var more := deltas + DeltaOf(email, d, c, value);
    if value > 0 {
      assert more[..|deltas|] == deltas;
    } else {
      assert more == deltas;
    }
  }

  /** One user's row gains exactly what its two new deltas hold. */
  lemma DrainGain(rows: seq<UserTraffic>, index: map<int64, nat>, entry: Entry, up: int, down: int,
                  deltas: seq<Delta>, c: nat, c': nat, uid: int64, d: Direction)
    requires up >= 0 && down >= 0 && Report.IndexOk(rows, index)
    ensures var email := entry.Email();
      var after := deltas + DeltaOf(email, Uplink, c, up) + DeltaOf(email, Downlink, c', down);
      var rows' := Report.AddRow(rows, index, Report.Sample(entry.user, up, down));
      Report.RowSum(rows', uid, SideOf(d)) - DeltaSum(after, uid, d)
      == Report.RowSum(rows, uid, SideOf(d)) - DeltaSum(deltas, uid, d)
  {
    hide UidOf, DeltaSum, Report.RowSum, Report.AddRow, DeltaOf;
    var email := entry.Email();
    Report.AddRowSum(rows, index, Report.Sample(entry.user, up, down), uid, SideOf(d));
    UidOfKey(entry.tag, entry.user.email, entry.user.uid);
    DeltaSumAppend(deltas, email, Uplink, c, up, uid, d);
    DeltaSumAppend(deltas + DeltaOf(email, Uplink, c, up), email, Downlink, c', down, uid, d);
  }

  /** Whatever adds a delta also makes a row. */
  lemma RowAdded(rows: seq<UserTraffic>, index: map<int64, nat>, s: Report.Sample, email: string, c: nat, c': nat)
    requires Report.IndexOk(rows, index)
    ensures Report.AddRow(rows, index, s) != []
      || (Report.AddRow(rows, index, s) == rows
          && DeltaOf(email, Uplink, c, s.up) == [] && DeltaOf(email, Downlink, c', s.down) == [])
  {
  }

  /** A key that may not be finalized is left alone by the whole sequence. */
  lemma NotIdlePhase(s: State, k: Key)
    requires Wf(s) && s.monitor.Finalizing? && !MayFinalize(s, k)
    ensures Exec(s, DetachPart(k)) == s
  {
    hide Wf, Owned, MayFinalize, Exec;
    ExecNil(s);
    var steps := Extend(s, [], CheckIdle(k));
    steps := Extend(s, steps, Unregister(Uplink));
    steps := Extend(s, steps, Unregister(Downlink));
    steps := Extend(s, steps, Commit);
    assert steps == DetachPart(k);
  }

  lemma ClearAfter(s: State, k: Key)
    requires Wf(s)
    ensures Exec(s, DetachPart(k) + [ClearRetired]) == Apply(Exec(s, DetachPart(k)), ClearRetired)
  {
    hide Wf, Apply;
    var steps := Extend(s, DetachPart(k), ClearRetired);
  }

  function EntryKeys(entries: seq<Entry>): (keys: seq<Key>)
    ensures |keys| == |entries|
  {
    seq(|entries|, i requires 0 <= i < |entries| => KeyOf(entries[i].tag, entries[i].user))
  }

  function FinalizeSteps(keys: seq<Key>): seq<Step> {
    if keys == [] then []
    else FinalizeSteps(keys[..|keys| - 1]) + (DetachPart(keys[|keys| - 1]) + [ClearRetired])
  }

  lemma FinalizeStepsSnoc(s: State, keys: seq<Key>, n: nat)
    requires Wf(s) && n < |keys|
    ensures Exec(s, FinalizeSteps(keys[..n + 1]))
         == Exec(Exec(s, FinalizeSteps(keys[..n])), DetachPart(keys[n]) + [ClearRetired])
  {
    hide Wf, Exec, DetachPart;
    assert keys[..n + 1][..n] == keys[..n];
    ExecConcat(s, FinalizeSteps(keys[..n]), DetachPart(keys[n]) + [ClearRetired]);
  }

  function EntriesOf(tag: string, users: seq<UserInfo>): seq<Entry> {
    seq(|users|, i requires 0 <= i < |users| => Entry(tag, users[i]))
  }

  /** The steps of one pass: snapshot, drain, settle, and finalize unless the report failed. */
  function PassSteps(entries: seq<Entry>, retired: seq<Entry>, disabled: bool, accepted: bool, deltas: nat): seq<Step> {
    var settled := [Snapshot] + DrainSteps(entries) + FlushSteps(disabled, accepted, deltas);
    if disabled || accepted then settled + FinalizeSteps(EntryKeys(retired)) + [EndPass] else settled
  }

  lemma SnapshotFirst(s: State)
    requires Wf(s)
    ensures Exec(s, [Snapshot]) == Apply(s, Snapshot)
  {
    hide Apply, Wf, Exec;
    ExecNil(s);
    var steps := Extend(s, [], Snapshot);
    assert steps == [Snapshot];
  }

  lemma NothingDrained()
    ensures forall uid, d :: DeltaSum([], uid, d) == 0
    ensures forall uid, side :: Report.RowSum([], uid, side) == 0
  {
  }

  lemma KeysOwned(tag: string, users: seq<UserInfo>)
    requires '|' !in tag
    ensures forall i :: 0 <= i < |users| ==> Owned(KeysOf(tag, users)[i])
  {
    forall i | 0 <= i < |users| ensures Owned(KeysOf(tag, users)[i]) {
      TagOfKey(tag, users[i].email, users[i].uid);
    }
  }
}
