/** The node monitor's own list of users, kept in step with admission and limits. */
module NodeMonitor {
  import opened Api
  import opened UserKey
  import opened Limiter
  import opened UserDiff
  import opened Sync
  import Lifecycle
  import Controller
  import LimiterService
  import LifecycleInvariant
  import LifecycleTheorems
  import MonitorPass

  class Node {
    const backend: Controller.Backend
    const limiter: LimiterService.Service
    const tag: string
    var userList: seq<UserInfo>

    /** Between operations the admitted keys are those of the list, and the limiter holds its users' limits. */
    ghost predicate Valid(inForce: UserInfo -> UserLimit)
      reads this, backend, limiter
    {
      && Lifecycle.Wf(backend.View()) && backend.NodeIdle() && '|' !in tag
      && limiter.Valid() && tag in limiter.inbounds
      && Unique(userList)
      && AdmittedAt(backend.current, tag) == KeySet(tag, userList)
      && Covers(limiter.inbounds[tag].users, tag, userList, inForce)
    }

    /** Starting the controller: all users are admitted and the limiter is built from the list. */
    constructor (backend: Controller.Backend, limiter: LimiterService.Service, tag: string, nodeLimit: uint64,
                 list: seq<UserInfo>, global: Option<int>)
      requires Lifecycle.Wf(backend.View()) && backend.NodeIdle() && '|' !in tag && limiter.Valid() && Unique(list)
      requires AdmittedAt(backend.current, tag) == {}
      modifies backend, limiter, limiter.CacheOf(tag)
      ensures this.backend == backend && this.limiter == limiter && this.tag == tag && userList == list
      ensures Valid(LimitOf) && limiter.inbounds[tag].users == UserMap(tag, list)
    {
      hide Lifecycle.Wf, Lifecycle.Exec, KeyFor, Unique, LimitOf, Controller.AdmitSteps, Controller.KeyOf;
      this.backend := backend;
      this.limiter := limiter;
      this.tag := tag;
      userList := list;
      AdmitEffect(backend.View(), tag, list);
      AdmitFirst(backend.current, tag, list);
      backend.RegisterManagedUsers(tag, list);
      limiter.AddInboundLimiter(tag, nodeLimit, list, global);
      StoresBuilt(UserMap(tag, list), tag, list);
    }

    /**
     The user branch of the monitor when every handler call succeeds: retire and remove, then register and update, and
     only then publish the list. Users of other inbounds are untouched.
     */
    method SyncUsers(new_: seq<UserInfo>, ghost inForce: UserInfo -> UserLimit)
      requires Valid(inForce) && Unique(new_)
      modifies this`userList, backend, limiter`inbounds
      ensures userList == new_ && Valid(Synced(old(userList), inForce))
      ensures limiter.inbounds[tag].users.Keys
        == KeysIn(tag, new_) + (old(limiter.inbounds)[tag].users.Keys - KeysIn(tag, old(userList)))
      ensures backend.View() == Lifecycle.Exec(old(backend.View()), SyncSteps(tag, old(userList), new_))
      ensures forall k: Lifecycle.Key :: k.tag != tag ==> (k in backend.current <==> k in old(backend.current))
    {
      hide Lifecycle.Wf, Lifecycle.Exec, KeyFor, AdmittedAt, Additions, Relimits, Replacements, Gone, Unique, Synced,
        Covers, KeysIn, DismissPart, AdmitPart, KeySet, Inv, HubIds, DeleteAll, UpdateAll, AfterSync;
      var old_ := userList;
      ghost var s0 := backend.View();
      ghost var b0 := limiter.inbounds[tag];
      var deleted, added, limitUpdated := CompareUserList(old_, new_);
      IncrementalCovers(b0.users, tag, old_, new_, inForce);
      CoveredKeys(b0.users, tag, old_, inForce);
      IncrementalKeys(b0.users, tag, old_, new_);
      SyncedMap(b0, old_, new_);
      AdmissionEqualsRebuild(backend.current, tag, old_, new_);
      Dismiss(deleted);
      Admit(added);
      UpdateLimits(added + limitUpdated);
      Lifecycle.ExecConcat(s0, DismissPart(tag, deleted), AdmitPart(tag, added));
      userList := new_;
    }

    /** Between operations the list the user monitor reads is enough: no key that owns a runtime is passed over. */
    lemma VisitsEveryRuntime(inForce: UserInfo -> UserLimit, retired: seq<Controller.Entry>, disabled: bool,
                             deltas: nat, k: Lifecycle.Key, d: Lifecycle.Direction)
      requires Valid(inForce) && LifecycleInvariant.Inv(backend.View()) && LifecycleTheorems.Tracked(backend.View())
      requires backend.monitor.Idle? && forall x :: x in backend.retiring ==> x in Controller.EntryKeys(retired)
      requires k in backend.runtime && (k in backend.current ==> k.tag == tag)
      ensures var entries := Controller.EntriesOf(tag, userList) + retired;
        var drain := [Lifecycle.Snapshot] + Controller.DrainSteps(entries);
        var steps := drain + Controller.FlushSteps(disabled, true, deltas);
        Lifecycle.Empty(Lifecycle.Exec(backend.View(), steps), k.email, d)
    {
      hide LifecycleInvariant.Inv, LifecycleTheorems.Tracked, Lifecycle.Exec, Lifecycle.Empty, Controller.DrainSteps,
        Controller.FlushSteps, Controller.EntryKeys, AdmittedAt, KeySet, Covers;
      PassVisitsEveryRuntime(backend.View(), tag, userList, retired, disabled, deltas, k, d);
    }

    method Dismiss(deleted: seq<UserInfo>)
      requires Lifecycle.Wf(backend.View()) && backend.NodeIdle() && '|' !in tag
      requires limiter.Valid() && tag in limiter.inbounds
      modifies backend, limiter`inbounds
      ensures backend.NodeIdle() && limiter.Valid()
      ensures backend.View() == Lifecycle.Exec(old(backend.View()), DismissPart(tag, deleted))
      ensures backend.current == old(backend.current) - KeySet(tag, deleted)
      ensures limiter.inbounds == old(limiter.inbounds)[tag := DeleteAll(old(limiter.inbounds)[tag], deleted)]
    {
      hide Lifecycle.Wf, Lifecycle.Exec, KeyFor, Inv;
      ghost var s0 := backend.View();
      if deleted == [] {
        Controller.NoSteps(s0, DismissPart(tag, deleted));
        return;
      }
      DismissEffect(s0, tag, deleted);
      backend.RetireManagedUsers(tag, deleted);
      var _ := limiter.DeleteInboundLimiterUsers(tag, deleted);
    }

    method Admit(added: seq<UserInfo>)
      requires Lifecycle.Wf(backend.View()) && backend.NodeIdle() && '|' !in tag
      modifies backend
      ensures backend.NodeIdle()
      ensures backend.View() == Lifecycle.Exec(old(backend.View()), AdmitPart(tag, added))
      ensures backend.current == old(backend.current) + KeySet(tag, added)
    {
      hide Lifecycle.Wf, Lifecycle.Exec, KeyFor;
      ghost var s0 := backend.View();
      if added == [] {
        Controller.NoSteps(s0, AdmitPart(tag, added));
        return;
      }
      AdmitEffect(s0, tag, added);
      backend.RegisterManagedUsers(tag, added);
    }

    method UpdateLimits(updates: seq<UserInfo>)
      requires limiter.Valid() && tag in limiter.inbounds
      modifies limiter`inbounds
      ensures limiter.Valid() && HubIds(old(limiter.inbounds)[tag])
      ensures limiter.inbounds == old(limiter.inbounds)[tag := UpdateAll(old(limiter.inbounds)[tag], updates)]
    {
      hide KeyFor, UsersOk, OnlineOk;
      if updates != [] {
        var _ := limiter.UpdateInboundLimiter(tag, updates);
      }
    }
  }

  lemma AdmitFirst(current: set<Lifecycle.Key>, tag: string, list: seq<UserInfo>)
    requires AdmittedAt(current, tag) == {}
    ensures AdmittedAt(current + KeySet(tag, list), tag) == KeySet(tag, list)
  {
    hide FormatUserKey;
    forall k | k in current ensures k.tag != tag {
      assert k !in AdmittedAt(current, tag);
    }
  }

  /**
   With admission in step with the list, a pass over the list and the retiring entries visits every key of the inbound,
   and every retired key, that owns a runtime: once its report is settled, both its counters have been drained.
   */
  lemma PassVisitsEveryRuntime(s: Lifecycle.State, tag: string, users: seq<UserInfo>, retired: seq<Controller.Entry>,
                               disabled: bool, deltas: nat, k: Lifecycle.Key, d: Lifecycle.Direction)
    requires LifecycleInvariant.Inv(s) && LifecycleTheorems.Tracked(s) && s.monitor.Idle? && s.toRemember == map[]
    requires AdmittedAt(s.current, tag) == KeySet(tag, users)
    requires forall x :: x in s.retiring ==> x in Controller.EntryKeys(retired)
    requires k in s.runtime && (k in s.current ==> k.tag == tag)
    ensures var entries := Controller.EntriesOf(tag, users) + retired;
      var drain := [Lifecycle.Snapshot] + Controller.DrainSteps(entries);
      var steps := drain + Controller.FlushSteps(disabled, true, deltas);
      Lifecycle.Empty(Lifecycle.Exec(s, steps), k.email, d)
  {
    hide LifecycleInvariant.Inv, Lifecycle.Exec, Lifecycle.Empty, Controller.DrainSteps, Controller.FlushSteps,
      FormatUserKey;
    var entries := Controller.EntriesOf(tag, users) + retired;
    var at: nat;
    if k in s.current {
      assert k in AdmittedAt(s.current, tag);
      var u :| u in users && Controller.KeyOf(tag, u) == k;
      at :| at < |users| && users[at] == u;
    } else {
      var j :| 0 <= j < |retired| && Controller.EntryKeys(retired)[j] == k;
      at := |users| + j;
    }
    assert entries[at].Email() == k.email;
    MonitorPass.DrainedAndSettled(s, entries, disabled, deltas, at);
  }
}
