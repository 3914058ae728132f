/** Starting and closing the controller while its periodic monitors run on threads of their own. */
module Shutdown {

  /** The service's thread, which starts and closes the controller in turn. */
  datatype Main =
    | Stopped
    | StartLocking
    | StartHolding
    | StartMarked
    | Launching(next: nat)
    | Serving
    | WaitingStarts
    | CloseLocking
    | CloseHolding
    | CloseMarked
    | Stopping(next: nat)
    | WaitingMonitors

  /**
   * A thread that runs one periodic task once. A launcher begins at `Launched` and switches its task on; a timer
   * begins at `Checking`. From `Calling` to `Ended` it is inside `runMonitor`.
   */
  datatype Pc =
    | Launched
    | Checking
    | Calling
    | Holding
    | Refused
    | Cleared
    | Counted
    | Executing
    | Ended
    | Leaving

  datatype Worker = Worker(task: nat, launcher: bool, pc: Pc)

  datatype Owner = Free | ByMain | ByWorker(id: nat)

  datatype State = State(
    main: Main,
    tasks: nat,
    running: set<nat>,
    lock: Owner,
    closed: bool,
    monitors: int,
    starts: int,
    workers: map<nat, Worker>)

  const INIT := State(Stopped, 0, {}, Free, false, 0, 0, map[])

  datatype Step =
    | BeginStart(added: nat)
    | MainStep
    | Launch(id: nat)
    | Fire(id: nat, task: nat)
    | WorkerStep(id: nat)
    | TaskFails(id: nat)

  /** The main thread's next action, where it has one; waits and locks only let it pass when they may. */
  function Advance(s: State): State {
    match s.main
    case StartLocking => if s.lock == Free then s.(main := StartHolding, lock := ByMain) else s
    case StartHolding => s.(main := StartMarked, closed := false)
    case StartMarked => s.(main := Launching(0), lock := Free)
    case Launching(next) => if next >= s.tasks then s.(main := Serving) else s
    case Serving => s.(main := WaitingStarts)
    case WaitingStarts => if s.starts == 0 then s.(main := CloseLocking) else s
    case CloseLocking => if s.lock == Free then s.(main := CloseHolding, lock := ByMain) else s
    case CloseHolding => s.(main := CloseMarked, closed := true)
    case CloseMarked => s.(main := Stopping(0), lock := Free)
    case Stopping(next) =>
      if next < s.tasks then s.(main := Stopping(next + 1), running := s.running - {next})
      else s.(main := WaitingMonitors)
    case WaitingMonitors => if s.monitors == 0 then s.(main := Stopped) else s
    case Stopped => s
  }

  function Goto(s: State, id: nat, pc: Pc): State
    requires id in s.workers
  {
    s.(workers := s.workers[id := s.workers[id].(pc := pc)])
  }

  /** One worker's next action. */
  function Work(s: State, id: nat): State
    requires id in s.workers
  {
    var w := s.workers[id];
    match w.pc
    case Launched =>
      if w.task in s.running then Goto(s, id, Leaving) else Goto(s, id, Checking).(running := s.running + {w.task})
    case Checking => Goto(s, id, if w.task in s.running then Calling else Leaving)
    case Calling => if s.lock == Free then Goto(s, id, Holding).(lock := ByWorker(id)) else s
    case Holding => Goto(s, id, if s.closed then Refused else Cleared)
    case Refused => Goto(s, id, Leaving).(lock := Free)
    case Cleared => Goto(s, id, Counted).(monitors := s.monitors + 1)
    case Counted => Goto(s, id, Executing).(lock := Free)
    case Executing => Goto(s, id, Ended)
    case Ended => Goto(s, id, Leaving).(monitors := s.monitors - 1)
    case Leaving => s.(workers := s.workers - {id}, starts := if w.launcher then s.starts - 1 else s.starts)
  }

  function Apply(s: State, step: Step): State {
    match step
    case BeginStart(added) =>
      if s.main == Stopped then s.(main := StartLocking, tasks := s.tasks + added) else s
    case MainStep => Advance(s)
    case Launch(id) =>
      if s.main.Launching? && s.main.next < s.tasks && id !in s.workers then
        s.(main := Launching(s.main.next + 1), starts := s.starts + 1,
           workers := s.workers[id := Worker(s.main.next, true, Launched)])
      else s
    case Fire(id, task) =>
      if id !in s.workers then s.(workers := s.workers[id := Worker(task, false, Checking)]) else s
    case WorkerStep(id) => if id in s.workers then Work(s, id) else s
    case TaskFails(id) =>
      if id in s.workers && s.workers[id].pc == Leaving then s.(running := s.running - {s.workers[id].task}) else s
  }

  function After(run: seq<Step>): State {
    if run == [] then INIT else Apply(After(run[..|run| - 1]), run[|run| - 1])
  }

  /******* The invariant *******/

  predicate InWaitGroup(pc: Pc) {
    pc == Counted || pc == Executing || pc == Ended
  }

  predicate HoldsLock(pc: Pc) {
    pc == Holding || pc == Refused || pc == Cleared || pc == Counted
  }

  function Busy(workers: map<nat, Worker>): set<nat> {
    set id | id in workers && InWaitGroup(workers[id].pc)
  }

  function Launchers(workers: map<nat, Worker>): set<nat> {
    set id | id in workers && workers[id].launcher
  }

  predicate MainHolds(main: Main) {
    main == StartHolding || main == StartMarked || main == CloseHolding || main == CloseMarked
  }

  /** The flag is up from the moment `Close` raises it until a `Start` lowers it. */
  predicate Marked(main: Main) {
    main == CloseMarked || main.Stopping? || main == WaitingMonitors || main == Stopped || main == StartLocking
    || main == StartHolding
  }

  /** Between the first wait of `Close` and the next launch no launcher is left. */
  predicate Quiet(main: Main) {
    main == CloseLocking || main == CloseHolding || Marked(main) || main == StartMarked || main == Launching(0)
  }

  /** From the return of `Close` until a `Start` opens the monitors again. */
  predicate Down(main: Main) {
    main == Stopped || main == StartLocking || main == StartHolding
  }

  predicate Untouched(workers: map<nat, Worker>) {
    forall id :: id in workers ==> workers[id].pc == Checking || workers[id].pc == Leaving
  }

  predicate Locks(main: Main, lock: Owner, workers: map<nat, Worker>) {
    && (MainHolds(main) <==> lock == ByMain)
    && (forall id :: id in workers ==> (HoldsLock(workers[id].pc) <==> lock == ByWorker(id)))
    && (lock.ByWorker? ==> lock.id in workers)
  }

  predicate Counts(monitors: int, starts: int, workers: map<nat, Worker>) {
    monitors == |Busy(workers)| && starts == |Launchers(workers)|
  }

  predicate Flags(main: Main, closed: bool, workers: map<nat, Worker>) {
    && (Marked(main) ==> closed || (Down(main) && Untouched(workers)))
    && (forall id :: id in workers && workers[id].pc == Cleared ==> !closed)
    && (Down(main) ==> forall id :: id in workers ==> !InWaitGroup(workers[id].pc))
  }

  /** Launchers exist only between a launch and the first wait of `Close`. */
  predicate Roster(main: Main, tasks: nat, workers: map<nat, Worker>) {
    && (forall id :: id in workers && workers[id].pc == Launched ==> workers[id].launcher && workers[id].task < tasks)
    && (Quiet(main) ==> forall id :: id in workers ==> !workers[id].launcher)
  }

  /** Tasks are switched off one by one, and stay off until the next launch. */
  predicate Switches(main: Main, tasks: nat, running: set<nat>) {
    && (forall task :: task in running ==> task < tasks)
    && (main.Stopping? ==> forall task :: task in running ==> task >= main.next)
    && (main == WaitingMonitors || Down(main) || main == StartMarked || main == Launching(0) ==> running == {})
  }

  predicate Inv(s: State) {
    && Locks(s.main, s.lock, s.workers) && Counts(s.monitors, s.starts, s.workers)
    && Flags(s.main, s.closed, s.workers)
    && Roster(s.main, s.tasks, s.workers) && Switches(s.main, s.tasks, s.running)
  }

  /******* Main thread *******/

  /** A wait group at zero means nobody is inside it. */
  lemma NobodyInside(s: State)
    requires Counts(s.monitors, s.starts, s.workers)
    ensures s.monitors == 0 ==> forall id :: id in s.workers ==> !InWaitGroup(s.workers[id].pc)
    ensures s.starts == 0 ==> forall id :: id in s.workers ==> !s.workers[id].launcher
  {
    if s.monitors == 0 {
      forall id | id in s.workers
        ensures !InWaitGroup(s.workers[id].pc)
      {
        assert id !in Busy(s.workers);
      }
    }
    if s.starts == 0 {
      forall id | id in s.workers
        ensures !s.workers[id].launcher
      {
        assert id !in Launchers(s.workers);
      }
    }
  }

  lemma AdvanceLocks(s: State)
    requires Locks(s.main, s.lock, s.workers)
    ensures var s' := Advance(s); Locks(s'.main, s'.lock, s'.workers)
  {
  }

  lemma AdvanceFlags(s: State)
    requires Inv(s)
    ensures var s' := Advance(s); Flags(s'.main, s'.closed, s'.workers)
  {
    hide Counts, Roster, Switches;
    NobodyInside(s);
  }

  lemma AdvanceRoster(s: State)
    requires Inv(s)
    ensures var s' := Advance(s); Roster(s'.main, s'.tasks, s'.workers)
  {
    hide Counts, Flags, Locks, Switches;
    NobodyInside(s);
  }

  lemma AdvanceSwitches(s: State)
    requires Switches(s.main, s.tasks, s.running)
    ensures var s' := Advance(s); Switches(s'.main, s'.tasks, s'.running)
  {
  }

  lemma AdvanceInv(s: State)
    requires Inv(s)
    ensures Inv(Advance(s))
  {
    AdvanceFrame(s);
    AdvanceWhole(s, Advance(s));
  }

  lemma AdvanceFrame(s: State)
    ensures var s' := Advance(s); s'.workers == s.workers && s'.monitors == s.monitors && s'.starts == s.starts
  {
  }

  lemma AdvanceWhole(s: State, s': State)
    requires Inv(s) && s' == Advance(s)
    requires s'.workers == s.workers && s'.monitors == s.monitors && s'.starts == s.starts
    ensures Inv(s')
  {
    hide Advance, Locks, Counts, Flags, Roster, Switches;
    AdvanceLocks(s);
    AdvanceFlags(s);
    AdvanceRoster(s);
    AdvanceSwitches(s);
  }

  /******* Workers *******/

  /** What one action of a worker that stays may change. */
  predicate Moves(s: State, s': State, id: nat, pc: Pc)
    requires id in s.workers
  {
    var was := s.workers[id].pc;
    && was != Leaving
    && s'.workers == s.workers[id := s.workers[id].(pc := pc)]
    && s'.main == s.main && s'.tasks == s.tasks && s'.closed == s.closed && s'.starts == s.starts
    && s'.monitors == s.monitors + (if InWaitGroup(pc) then 1 else 0) - (if InWaitGroup(was) then 1 else 0)
    && (HoldsLock(pc) <==> s'.lock == ByWorker(id))
    && (s'.lock == s.lock || (s.lock == Free && s'.lock == ByWorker(id)) || (s.lock == ByWorker(id) && s'.lock == Free))
    && (s'.running == s.running || (was == Launched && s'.running == s.running + {s.workers[id].task}))
    && (InWaitGroup(pc) ==> was == Cleared || InWaitGroup(was))
    && (pc == Cleared ==> was == Holding && !s.closed)
    && pc != Launched
    && (was == Checking && pc != Leaving ==> pc == Calling && s.workers[id].task in s.running)
  }

  lemma WorkMoves(s: State, id: nat)
    requires id in s.workers && s.workers[id].pc != Leaving && Locks(s.main, s.lock, s.workers)
    ensures id in Work(s, id).workers
    ensures Work(s, id) == s || Moves(s, Work(s, id), id, Work(s, id).workers[id].pc)
  {
  }

  lemma MovesLocks(s: State, s': State, id: nat, pc: Pc)
    requires id in s.workers && Moves(s, s', id, pc) && Locks(s.main, s.lock, s.workers)
    ensures Locks(s'.main, s'.lock, s'.workers)
  {
  }

  lemma MovesCounts(s: State, s': State, id: nat, pc: Pc)
    requires id in s.workers && Moves(s, s', id, pc) && Counts(s.monitors, s.starts, s.workers)
    ensures Counts(s'.monitors, s'.starts, s'.workers)
  {
    hide Busy, Launchers;
    var w := s.workers[id].(pc := pc);
    BusyUpdate(s.workers, id, w);
    LaunchersUpdate(s.workers, id, w);
    assert s'.workers == s.workers[id := w];
    if InWaitGroup(pc) {
      assert |Busy(s'.workers)| == |Busy(s.workers)| + if id in Busy(s.workers) then 0 else 1;
    } else {
      assert |Busy(s'.workers)| == |Busy(s.workers)| - if id in Busy(s.workers) then 1 else 0;
    }
  }

  lemma BusyUpdate(workers: map<nat, Worker>, id: nat, w: Worker)
    ensures Busy(workers[id := w]) == if InWaitGroup(w.pc) then Busy(workers) + {id} else Busy(workers) - {id}
    ensures id in Busy(workers) <==> id in workers && InWaitGroup(workers[id].pc)
  {
  }

  lemma LaunchersUpdate(workers: map<nat, Worker>, id: nat, w: Worker)
    ensures Launchers(workers[id := w]) == if w.launcher then Launchers(workers) + {id} else Launchers(workers) - {id}
    ensures id in Launchers(workers) <==> id in workers && workers[id].launcher
  {
  }

  lemma MovesFlags(s: State, s': State, id: nat, pc: Pc)
    requires id in s.workers && Moves(s, s', id, pc)
    requires Flags(s.main, s.closed, s.workers) && Switches(s.main, s.tasks, s.running)
    ensures Flags(s'.main, s'.closed, s'.workers)
  {
  }

  lemma MovesRoster(s: State, s': State, id: nat, pc: Pc)
    requires id in s.workers && Moves(s, s', id, pc)
    requires Roster(s.main, s.tasks, s.workers) && Switches(s.main, s.tasks, s.running)
    ensures Roster(s'.main, s'.tasks, s'.workers) && Switches(s'.main, s'.tasks, s'.running)
  {
  }

  lemma WorkInv(s: State, id: nat)
    requires Inv(s) && id in s.workers
    ensures Inv(Work(s, id))
  {
    hide Locks, Counts, Flags, Roster, Switches, Moves, Work;
    if s.workers[id].pc == Leaving {
      LeaveInv(s, id);
    } else {
      WorkMoves(s, id);
      var s' := Work(s, id);
      if s' != s {
        var pc := s'.workers[id].pc;
        MovesLocks(s, s', id, pc);
        MovesCounts(s, s', id, pc);
        MovesFlags(s, s', id, pc);
        MovesRoster(s, s', id, pc);
      }
    }
  }

  lemma LeaveCounts(s: State, id: nat)
    requires Counts(s.monitors, s.starts, s.workers) && id in s.workers && s.workers[id].pc == Leaving
    ensures var s' := Work(s, id); Counts(s'.monitors, s'.starts, s'.workers)
  {
    var s' := Work(s, id);
    assert Busy(s'.workers) == Busy(s.workers);
    assert Launchers(s'.workers) == Launchers(s.workers) - {id};
    assert id in Launchers(s.workers) <==> s.workers[id].launcher;
  }

  lemma LeaveInv(s: State, id: nat)
    requires Inv(s) && id in s.workers && s.workers[id].pc == Leaving
    ensures Inv(Work(s, id))
  {
    hide Counts;
    LeaveCounts(s, id);
  }

  lemma JoinCounts(s: State, id: nat, w: Worker)
    requires Counts(s.monitors, s.starts, s.workers) && id !in s.workers && !InWaitGroup(w.pc)
    ensures Counts(s.monitors, s.starts + (if w.launcher then 1 else 0), s.workers[id := w])
  {
    hide Busy, Launchers;
    BusyUpdate(s.workers, id, w);
    LaunchersUpdate(s.workers, id, w);
  }

  lemma FireInv(s: State, id: nat, task: nat)
    requires Inv(s) && id !in s.workers
    ensures Inv(s.(workers := s.workers[id := Worker(task, false, Checking)]))
  {
    hide Counts, Switches;
    JoinCounts(s, id, Worker(task, false, Checking));
  }

  lemma LaunchInv(s: State, id: nat)
    requires Inv(s) && id !in s.workers && s.main.Launching? && s.main.next < s.tasks
    ensures Inv(Apply(s, Launch(id)))
  {
    hide Counts;
    JoinCounts(s, id, Worker(s.main.next, true, Launched));
  }

  lemma StepInv(s: State, step: Step)
    requires Inv(s)
    ensures Inv(Apply(s, step))
  {
    hide Inv, Advance, Work;
    match step
    case BeginStart(_) => BeginInv(s, step);
    case MainStep => AdvanceInv(s);
    case Launch(id) =>
      if s.main.Launching? && s.main.next < s.tasks && id !in s.workers {
        LaunchInv(s, id);
      }
    case Fire(id, task) =>
      if id !in s.workers {
        FireInv(s, id, task);
      }
    case WorkerStep(id) =>
      if id in s.workers {
        WorkInv(s, id);
      }
    case TaskFails(_) => FailInv(s, step);
  }

  lemma BeginInv(s: State, step: Step)
    requires Inv(s) && step.BeginStart?
    ensures Inv(Apply(s, step))
  {
    hide Counts;
  }

  lemma FailInv(s: State, step: Step)
    requires Inv(s) && step.TaskFails?
    ensures Inv(Apply(s, step))
  {
    hide Counts, Flags, Locks;
  }

  lemma {:induction false} RunInv(run: seq<Step>)
    ensures Inv(After(run))
  {
    hide Apply, Inv;
    if run == [] {
      InitInv();
    } else {
      RunInv(run[..|run| - 1]);
      StepInv(After(run[..|run| - 1]), run[|run| - 1]);
    }
  }

  lemma InitInv()
    ensures Inv(INIT)
  {
  }

  /**
   * However starts, timers and `Close` interleave: from the moment `Close` returns until a `Start` lowers the flag
   * again, no monitor body executes, no task is switched on and no launcher is left to switch one on.
   */
  lemma NothingRunsWhenClosed(run: seq<Step>)
    requires Down(After(run).main)
    ensures forall id :: id in After(run).workers ==>
      After(run).workers[id].pc != Executing && !After(run).workers[id].launcher
    ensures After(run).running == {}
  {
    RunInv(run);
  }

  /** The wait groups never go negative, so neither `Done` nor a lost `Wait` can happen. */
  lemma WaitGroupsExact(run: seq<Step>)
    ensures After(run).monitors == |Busy(After(run).workers)| && After(run).starts == |Launchers(After(run).workers)|
  {
    RunInv(run);
  }

  /******* Nobody is held back *******/

  /** A worker that asks for a free lock while the flag is down gets to execute by its own steps, and is counted. */
  lemma OpenMonitorRuns(s: State, id: nat)
    requires id in s.workers && s.workers[id].pc == Calling && s.lock == Free && !s.closed
    ensures var t := Work(Work(Work(Work(s, id), id), id), id);
      && id in t.workers && t.workers[id] == s.workers[id].(pc := Executing)
      && t == s.(workers := t.workers, monitors := s.monitors + 1)
  {
    hide Goto;
    GotoFrame(s, id, Holding);
    var s1 := Work(s, id);
    GotoFrame(s1, id, Cleared);
    var s2 := Work(s1, id);
    GotoFrame(s2, id, Counted);
    var s3 := Work(s2, id);
    GotoFrame(s3, id, Executing);
  }

  lemma GotoFrame(s: State, id: nat, pc: Pc)
    requires id in s.workers
    ensures Goto(s, id, pc) == s.(workers := Goto(s, id, pc).workers)
    ensures Goto(s, id, pc).workers == s.workers[id := s.workers[id].(pc := pc)]
  {
  }

  /** With the flag up it is turned away, and gives the lock back. */
  lemma ClosedMonitorLeaves(s: State, id: nat)
    requires id in s.workers && s.workers[id].pc == Calling && s.lock == Free && s.closed
    ensures var t := Work(Work(Work(s, id), id), id);
      && id in t.workers && t.workers[id] == s.workers[id].(pc := Leaving)
      && t == s.(workers := t.workers)
  {
    hide Goto;
    GotoFrame(s, id, Holding);
    var s1 := Work(s, id);
    GotoFrame(s1, id, Refused);
    var s2 := Work(s1, id);
    GotoFrame(s2, id, Leaving);
  }

  /** A launcher switches its task on and goes on to run it; a timer runs its task exactly when the task is on. */
  lemma TasksAreRun(s: State, id: nat)
    requires id in s.workers
    ensures s.workers[id].pc == Launched && s.workers[id].task !in s.running ==>
      var t := Work(Work(s, id), id);
      id in t.workers && t.workers[id].pc == Calling && t.running == s.running + {s.workers[id].task}
    ensures s.workers[id].pc == Checking ==>
      var t := Work(s, id);
      id in t.workers && t.workers[id].pc == if s.workers[id].task in s.running then Calling else Leaving
  {
  }

  /** A start launches its tasks one after the other, each on a thread of its own, and a timer may fire at any time. */
  lemma ThreadsBegin(s: State, id: nat, task: nat)
    requires id !in s.workers
    ensures s.main.Launching? && s.main.next < s.tasks ==>
      var t := Apply(s, Launch(id));
      && t.workers == s.workers[id := Worker(s.main.next, true, Launched)]
      && t.main == Launching(s.main.next + 1) && t.starts == s.starts + 1
    ensures Apply(s, Fire(id, task)) == s.(workers := s.workers[id := Worker(task, false, Checking)])
    ensures s.main == Stopped ==> forall n :: Apply(s, BeginStart(n)) == s.(main := StartLocking, tasks := s.tasks + n)
  {
  }

  /** The main thread moves on exactly when what it waits for is over. */
  lemma MainMovesOn(s: State)
    requires Inv(s)
    ensures Advance(s) != s <==>
      match s.main
      case StartLocking => s.lock == Free
      case CloseLocking => s.lock == Free
      case Launching(next) => next >= s.tasks
      case WaitingStarts => forall id :: id in s.workers ==> !s.workers[id].launcher
      case WaitingMonitors => forall id :: id in s.workers ==> !InWaitGroup(s.workers[id].pc)
      case Stopped => false
      case _ => true
  {
    hide Locks, Counts, Flags, Roster, Switches;
    NobodyInside(s);
    SomebodyInside(s);
  }

  lemma SomebodyInside(s: State)
    requires Counts(s.monitors, s.starts, s.workers)
    ensures (forall id :: id in s.workers ==> !InWaitGroup(s.workers[id].pc)) ==> s.monitors == 0
    ensures (forall id :: id in s.workers ==> !s.workers[id].launcher) ==> s.starts == 0
  {
    if forall id :: id in s.workers ==> !InWaitGroup(s.workers[id].pc) {
      assert Busy(s.workers) == {};
    }
    if forall id :: id in s.workers ==> !s.workers[id].launcher {
      assert Launchers(s.workers) == {};
    }
  }
}
