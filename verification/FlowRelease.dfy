/** The objects that share one flow reference: runtime, flow, two-owner lifecycle and the two writers. */
module FlowRelease {
  import opened Lifecycle

  /** A reference count after one release; zero stays zero. */
  function Dropped(active: int): int {
    if active <= 0 then active else active - 1
  }

  class UserFlowRuntime {
    var active: int

    constructor ()
      ensures active == 0
    {
      active := 0;
    }

    method Acquire()
      modifies this
      ensures active == old(active) + 1
    {
      active := active + 1;
    }

    /** The compare-and-swap loop as one atomic step: decrement unless the count is exhausted. */
    method Release()
      modifies this
      ensures active == Dropped(old(active))
    {
      if active > 0 {
        active := active - 1;
      }
    }
  }

  class UserIO {
    const runtime: UserFlowRuntime?
    var released: bool

    constructor (runtime: UserFlowRuntime?)
      ensures this.runtime == runtime && !released
    {
      this.runtime := runtime;
      released := false;
    }

    method Release()
      modifies this, runtime
      ensures released
      ensures runtime != null ==>
        runtime.active == if old(released) then old(runtime.active) else Dropped(old(runtime.active))
    {
      if !released {
        released := true;
        if runtime != null {
          runtime.Release();
        }
      }
    }
  }

  class UserConnectionLifecycle {
    const flow: UserIO
    var remaining: int

    constructor (flow: UserIO, owners: int)
      ensures this.flow == flow && remaining == owners
    {
      this.flow := flow;
      remaining := owners;
    }

    method Release()
      modifies this, flow, flow.runtime
      ensures remaining == old(remaining) - 1
      ensures flow.released == (old(flow.released) || remaining == 0)
      ensures flow.runtime != null ==>
        var a := old(flow.runtime.active);
        flow.runtime.active == if remaining == 0 && !old(flow.released) then Dropped(a) else a
    {
      remaining := remaining - 1;
      if remaining == 0 {
        flow.Release();
      }
    }
  }

  class LifecycleWriter {
    const lifecycle: UserConnectionLifecycle
    var ended: bool

    constructor (lifecycle: UserConnectionLifecycle)
      ensures this.lifecycle == lifecycle && !ended
    {
      this.lifecycle := lifecycle;
      ended := false;
    }

    /** `Close` and `Interrupt` alike: the guard lets only the first of them through. */
    method End()
      modifies this, lifecycle, lifecycle.flow, lifecycle.flow.runtime
      ensures ended
      ensures lifecycle.remaining == old(lifecycle.remaining) - if old(ended) then 0 else 1
      ensures lifecycle.flow.released
        == (old(lifecycle.flow.released) || (!old(ended) && lifecycle.remaining == 0))
      ensures lifecycle.flow.runtime != null ==>
        var a := old(lifecycle.flow.runtime.active);
        var last := !old(ended) && lifecycle.remaining == 0 && !old(lifecycle.flow.released);
        lifecycle.flow.runtime.active == if last then Dropped(a) else a
    {
      if !ended {
        ended := true;
        lifecycle.Release();
      }
    }
  }

  function EndSteps(i: nat, ends: seq<Direction>): seq<Step> {
    seq(|ends|, n requires 0 <= n < |ends| => EndWriter(i, ends[n]))
  }

  /** A piped connection as `getLink` wires it. */
  class Connection {
    const runtime: UserFlowRuntime
    const flow: UserIO
    const lifecycle: UserConnectionLifecycle
    const up: LifecycleWriter
    const down: LifecycleWriter

    ghost predicate Wired()
      reads this
    {
      && flow.runtime == runtime && lifecycle.flow == flow
      && up.lifecycle == lifecycle && down.lifecycle == lifecycle && up != down
    }

    /** The owners left are the writers that have not ended; the reference is held exactly until both have. */
    ghost predicate Valid()
      reads this, runtime, flow, lifecycle, up, down
    {
      && Wired()
      && lifecycle.remaining == (if up.ended then 0 else 1) + (if down.ended then 0 else 1)
      && (flow.released <==> up.ended && down.ended)
    }

    constructor (runtime: UserFlowRuntime)
      modifies runtime
      ensures Valid() && this.runtime == runtime && !up.ended && !down.ended
      ensures fresh(flow) && fresh(lifecycle) && fresh(up) && fresh(down)
      ensures runtime.active == old(runtime.active) + 1
    {
      runtime.Acquire();
      var f := new UserIO(runtime);
      var l := new UserConnectionLifecycle(f, 2);
      var u := new LifecycleWriter(l);
      var d := new LifecycleWriter(l);
      this.runtime := runtime;
      flow := f;
      lifecycle := l;
      up := u;
      down := d;
    }

    /** The objects hold what flow `i` of a lifecycle state says. */
    ghost predicate Holds(s: State, i: nat)
      reads this, runtime, flow, lifecycle, up, down
    {
      && Wf(s) && i < |s.flows|
      && s.flows[i].link.Piped?
      && s.flows[i].upEnded == up.ended && s.flows[i].downEnded == down.ended
      && s.flows[i].remaining == lifecycle.remaining && s.flows[i].released == flow.released
      && s.active[s.flows[i].runtime] == runtime.active
    }

    /** Ending a writer is the `EndWriter` step of the lifecycle system, in whatever state the flow is part of. */
    method End(d: Direction, ghost s: State, ghost i: nat)
      requires Valid() && Holds(s, i) && (!flow.released ==> runtime.active > 0)
      modifies runtime, flow, lifecycle, up, down
      ensures Valid() && Holds(Apply(s, EndWriter(i, d)), i)
      ensures up.ended == (old(up.ended) || d.Uplink?) && down.ended == (old(down.ended) || d.Downlink?)
      ensures runtime.active == old(runtime.active) - if flow.released && !old(flow.released) then 1 else 0
    {
      hide RuntimeIds, StatsIds, DeltaIds;
      if d.Uplink? {
        up.End();
      } else {
        down.End();
      }
    }

    /**
     Any sequence of repeated closes and interrupts of the two writers gives the reference back exactly once, and
     only when both writers have ended. It is a run of the lifecycle system.
     */
    method Play(ends: seq<Direction>, ghost s: State, ghost i: nat)
      requires Valid() && Holds(s, i) && !up.ended && !down.ended && runtime.active > 0
      modifies runtime, flow, lifecycle, up, down
      ensures Valid() && Holds(Exec(s, EndSteps(i, ends)), i)
      ensures flow.released <==> Uplink in ends && Downlink in ends
      ensures runtime.active == old(runtime.active) - if Uplink in ends && Downlink in ends then 1 else 0
    {
      hide Apply, Wf;
      ghost var steps := EndSteps(i, ends);
      assert steps[..0] == [];
      for n := 0 to |ends|
        invariant Valid() && Holds(Exec(s, steps[..n]), i)
        invariant up.ended == (Uplink in ends[..n]) && down.ended == (Downlink in ends[..n])
        invariant runtime.active == old(runtime.active) - if flow.released then 1 else 0
      {
        assert ends[..n + 1] == ends[..n] + [ends[n]];
        Unroll(s, steps, n);
        End(ends[n], Exec(s, steps[..n]), i);
      }
      assert ends[..|ends|] == ends && steps[..|ends|] == steps;
    }
  }
}
