/** Any number of processes reserving addresses on one Redis server, in any interleaving. */
module GlobalDeviceRuns {
  import opened Api
  import opened UserKey
  import opened GlobalDevices

  /** What an accepted call was told: the whole map, holding its own address, at the moment the script ran. */
  datatype Snapshot = Snapshot(key: string, ip: string, ips: Ips, takenAt: int)

  /** A script answer on its way back to process `to`; a refusal carries no snapshot. */
  datatype Reply = Reply(to: nat, key: string, expiry: int, snapshot: Option<Snapshot>)

  /** A local cache entry of one process. */
  datatype Kept = Kept(snapshot: Snapshot, expiresAt: Option<int>)

  /** `log` is history: every snapshot ever handed out. */
  datatype World = World(now: int, db: Db, wire: seq<Reply>, local: map<(nat, string), Kept>, log: set<Snapshot>)

  datatype Step =
    | Tick(seconds: nat)
    | Call(process: nat, tag: string, email: string, uid: int64, limit: int64, ip: string, expiry: int)
    | Deliver(at: nat)
    | Lose(at: nat)

  function Init(now: int): World {
    World(now, map[], [], map[], {})
  }

  function CallKey(c: Step): string
    requires c.Call?
  {
    GlobalKey(FormatUserKey(c.tag, c.email, c.uid), c.tag, c.limit)
  }

  function Run(w: World, key: string, c: Step): World
    requires c.Call?
  {
    var (accepted, ips) := Reserve(StoredIps(w.db, w.now, key), c.ip, c.uid, c.limit);
    var db := ScriptDb(w.db, w.now, key, c.ip, c.uid, c.limit, c.expiry);
    if accepted then
      var snapshot := Snapshot(key, c.ip, ips, w.now);
      w.(db := db, wire := w.wire + [Reply(c.process, key, c.expiry, Some(snapshot))], log := w.log + {snapshot})
    else
      w.(db := db, wire := w.wire + [Reply(c.process, key, c.expiry, None)])
  }

  function Receive(w: World, at: nat): World
    requires at < |w.wire|
  {
    var reply := w.wire[at];
    var slot := (reply.to, reply.key);
    match reply.snapshot
    case None => w.(local := w.local - {slot})
    case Some(snapshot) => w.(local := w.local[slot := Kept(snapshot, ExpiryFrom(w.now, reply.expiry, None))])
  }

  function Dropped(wire: seq<Reply>, at: nat): seq<Reply>
    requires at < |wire|
  {
    wire[..at] + wire[at + 1..]
  }

  function Apply(w: World, step: Step): World {
    match step
    case Tick(seconds) => w.(now := w.now + seconds)
    case Call(_, _, _, _, _, _, _) => Run(w, CallKey(step), step)
    case Deliver(at) => if at < |w.wire| then Receive(w, at).(wire := Dropped(w.wire, at)) else w
    case Lose(at) => if at < |w.wire| then w.(wire := Dropped(w.wire, at)) else w
  }

  function After(start: World, run: seq<Step>): World {
    if run == [] then start else Apply(After(start, run[..|run| - 1]), run[|run| - 1])
  }

  /******* The device bound *******/

  /** The limit a shared key carries in its prefix. */
  function LimitOf(key: string): Option<int64> {
    Atoi(TagOf(key))
  }

  lemma LimitOfCall(c: Step)
    requires c.Call?
    ensures LimitOf(CallKey(c)) == Some(c.limit)
  {
    GlobalKeyShape(c.tag, c.email, c.uid, c.limit);
    var prefix := Itoa(c.limit);
    var key := CallKey(c);
    assert key == FormatUserKey(prefix, c.email, c.uid);
    TagOfKey(prefix, c.email, c.uid);
    AtoiItoa(c.limit);
  }

  predicate Bounded(db: Db) {
    forall key :: key in db ==>
      LimitOf(key).Some? && (LimitOf(key).value > 0 ==> |db[key].ips| <= LimitOf(key).value)
  }

  lemma ScriptBounded(db: Db, now: int, c: Step)
    requires c.Call? && Bounded(db)
    ensures Bounded(ScriptDb(db, now, CallKey(c), c.ip, c.uid, c.limit, c.expiry))
  {
    hide LimitOf, CallKey;
    LimitOfCall(c);
    ReserveMeans(StoredIps(db, now, CallKey(c)), c.ip, c.uid, c.limit);
  }

  /** However the processes interleave, a map whose key carries a positive limit never holds more addresses. */
  lemma {:induction false} DeviceBound(now: int, run: seq<Step>)
    ensures Bounded(After(Init(now), run).db)
  {
    hide LimitOf, CallKey, ScriptDb;
    if run != [] {
      var before := run[..|run| - 1];
      var step := run[|run| - 1];
      DeviceBound(now, before);
      if step.Call? {
        ScriptBounded(After(Init(now), before).db, After(Init(now), before).now, step);
      }
    }
  }

  /******* Accepted addresses stay *******/

  /**
   * The expiries the processes are configured with: none expires, or none is shorter than `floor`.
   */
  predicate Configured(run: seq<Step>, floor: int) {
    forall i :: 0 <= i < |run| && run[i].Call? ==>
      if floor > 0 then run[i].expiry >= floor else run[i].expiry <= 0
  }

  predicate Within(small: Ips, large: Ips) {
    forall x :: x in small ==> x in large && small[x] == large[x]
  }

  predicate Current(now: int, floor: int, s: Snapshot) {
    floor <= 0 || now < s.takenAt + floor
  }

  /** Redis still holds everything the snapshot shows, for at least as long as the snapshot is current. */
  predicate Backed(db: Db, floor: int, s: Snapshot) {
    && s.key in db
    && Within(s.ips, db[s.key].ips)
    && (db[s.key].expiresAt.Some? ==> floor > 0 && s.takenAt + floor <= db[s.key].expiresAt.value)
  }

  predicate AllBacked(w: World, floor: int) {
    forall s :: s in w.log ==>
      s.ip in s.ips && s.takenAt <= w.now && (Current(w.now, floor, s) ==> Backed(w.db, floor, s))
  }

  /** Under a floor that is never undercut no key has an expiry unless the floor is positive. */
  predicate Lasting(db: Db, floor: int) {
    floor <= 0 ==> forall key :: key in db ==> db[key].expiresAt.None?
  }

  lemma ScriptBacks(db: Db, now: int, floor: int, key: string, ip: string, uid: int64, limit: int, expiry: int,
                    s: Snapshot)
    requires if floor > 0 then expiry >= floor else expiry <= 0
    requires s.takenAt <= now && Current(now, floor, s) && Backed(db, floor, s)
    ensures Backed(ScriptDb(db, now, key, ip, uid, limit, expiry), floor, s)
  {
    ReserveMeans(StoredIps(db, now, key), ip, uid, limit);
  }

  lemma CallBacked(w: World, floor: int, c: Step)
    requires c.Call? && AllBacked(w, floor) && Lasting(w.db, floor)
    requires if floor > 0 then c.expiry >= floor else c.expiry <= 0
    ensures AllBacked(Apply(w, c), floor) && Lasting(Apply(w, c).db, floor)
  {
    hide CallKey;
    var key := CallKey(c);
    var w' := Apply(w, c);
    ReserveMeans(StoredIps(w.db, w.now, key), c.ip, c.uid, c.limit);
    forall s | s in w'.log
      ensures s.ip in s.ips && s.takenAt <= w'.now && (Current(w'.now, floor, s) ==> Backed(w'.db, floor, s))
    {
      if s in w.log && Current(w.now, floor, s) {
        ScriptBacks(w.db, w.now, floor, key, c.ip, c.uid, c.limit, c.expiry, s);
      }
    }
  }

  lemma {:induction false} RunBacked(now: int, run: seq<Step>, floor: int)
    requires Configured(run, floor)
    ensures AllBacked(After(Init(now), run), floor) && Lasting(After(Init(now), run).db, floor)
  {
    hide CallKey, ScriptDb;
    if run != [] {
      var before := run[..|run| - 1];
      RunBacked(now, before, floor);
      if run[|run| - 1].Call? {
        CallBacked(After(Init(now), before), floor, run[|run| - 1]);
      }
    }
  }

  /** Every accepted call finds its address, and all it was shown, in Redis until the shortest expiry has passed. */
  lemma AcceptedPersists(now: int, run: seq<Step>, floor: int, s: Snapshot)
    requires Configured(run, floor)
    requires s in After(Init(now), run).log
    requires Current(After(Init(now), run).now, floor, s)
    ensures var w := After(Init(now), run);
      Present(w.db, w.now, s.key) && s.ip in w.db[s.key].ips && Within(s.ips, w.db[s.key].ips)
  {
    RunBacked(now, run, floor);
  }

  /** Whatever the expiries: a map only grows, and keeps its UIDs, as long as its key is never seen expired. */
  lemma {:induction false} GrowsUntilExpiry(w: World, run: seq<Step>, key: string)
    requires forall n :: 0 <= n <= |run| ==> Present(After(w, run[..n]).db, After(w, run[..n]).now, key)
    ensures Present(w.db, w.now, key) && key in After(w, run).db
    ensures Within(w.db[key].ips, After(w, run).db[key].ips)
  {
    hide CallKey;
    assert run[..0] == [] && run[..|run|] == run;
    if run != [] {
      var before := run[..|run| - 1];
      forall n | 0 <= n <= |before|
        ensures Present(After(w, before[..n]).db, After(w, before[..n]).now, key)
      {
        assert before[..n] == run[..n];
      }
      GrowsUntilExpiry(w, before, key);
      StepGrows(After(w, before), run[|run| - 1], key);
    }
  }

  lemma StepGrows(w: World, step: Step, key: string)
    requires Present(w.db, w.now, key)
    ensures key in Apply(w, step).db && Within(w.db[key].ips, Apply(w, step).db[key].ips)
  {
    hide CallKey;
    if step.Call? {
      ReserveMeans(StoredIps(w.db, w.now, CallKey(step)), step.ip, step.uid, step.limit);
    }
  }

  /******* Unused addresses are forgotten *******/

  /** No call of the run is about the key. */
  predicate Untouched(run: seq<Step>, key: string) {
    forall i :: 0 <= i < |run| && run[i].Call? ==> CallKey(run[i]) != key
  }

  lemma {:induction false} UntouchedStays(w: World, run: seq<Step>, key: string)
    requires Untouched(run, key)
    ensures var v := After(w, run);
      && (key in v.db <==> key in w.db) && (key in w.db ==> v.db[key] == w.db[key])
      && w.now <= v.now
  {
    hide CallKey, ScriptDb, Reserve;
    if run != [] {
      var before, last := run[..|run| - 1], run[|run| - 1];
      UntouchedStays(w, before, key);
      if last.Call? {
        var v := After(w, before);
        ScriptExpiry(v.db, v.now, CallKey(last), last.ip, last.uid, last.limit, last.expiry, v.now);
      }
    }
  }

  /**
   After an accepted call the key is there until its expiry has passed without another call about it, and not longer;
   then the addresses are forgotten and a new one is accepted, whatever the limit.
   */
  lemma ForgottenAfterExpiry(w: World, call: Step, run: seq<Step>, next: Step)
    requires call.Call? && Reserve(StoredIps(w.db, w.now, CallKey(call)), call.ip, call.uid, call.limit).0
    requires call.expiry > 0 && Untouched(run, CallKey(call))
    requires next.Call? && CallKey(next) == CallKey(call)
    ensures var v := After(Apply(w, call), run); var key := CallKey(call);
      && (Present(v.db, v.now, key) <==> v.now < w.now + call.expiry)
      && (v.now >= w.now + call.expiry ==>
        && StoredIps(Apply(v, next).db, v.now, key).Keys <= {next.ip}
        && Snapshot(key, next.ip, map[next.ip := next.uid], v.now) in Apply(v, next).log)
  {
    hide CallKey, ScriptDb;
    var w1, key := Apply(w, call), CallKey(call);
    ReserveMeans(StoredIps(w.db, w.now, key), call.ip, call.uid, call.limit);
    ScriptExpiry(w.db, w.now, key, call.ip, call.uid, call.limit, call.expiry, w.now);
    UntouchedStays(w1, run, key);
    var v := After(w1, run);
    ScriptExpiry(w.db, w.now, key, call.ip, call.uid, call.limit, call.expiry, v.now);
    if v.now >= w.now + call.expiry {
      assert StoredIps(v.db, v.now, key) == map[];
      ScriptExpiry(v.db, v.now, key, next.ip, next.uid, next.limit, next.expiry, v.now);
    }
  }

  /******* Local snapshots *******/

  /** Replies and local entries show only what some script run handed out under their own key. */
  predicate Logged(w: World) {
    && (forall reply :: reply in w.wire && reply.snapshot.Some? ==>
      reply.snapshot.value in w.log && reply.snapshot.value.key == reply.key)
    && (forall slot :: slot in w.local ==>
      w.local[slot].snapshot in w.log && w.local[slot].snapshot.key == slot.1)
  }

  lemma DroppedMember(wire: seq<Reply>, at: nat)
    requires at < |wire|
    ensures forall reply :: reply in Dropped(wire, at) ==> reply in wire
  {
  }

  lemma StepLogged(w: World, step: Step)
    requires Logged(w)
    ensures Logged(Apply(w, step))
  {
    hide CallKey, ScriptDb, Reserve, Dropped;
    if (step.Deliver? || step.Lose?) && step.at < |w.wire| {
      DroppedMember(w.wire, step.at);
    }
  }

  lemma {:induction false} RunLogged(now: int, run: seq<Step>)
    ensures Logged(After(Init(now), run))
  {
    hide Apply;
    if run != [] {
      RunLogged(now, run[..|run| - 1]);
      StepLogged(After(Init(now), run[..|run| - 1]), run[|run| - 1]);
    }
  }

  /** Every process-local snapshot is a subset of the shared map while the expiry from its script run lasts. */
  lemma SnapshotSubset(now: int, run: seq<Step>, floor: int, slot: (nat, string))
    requires Configured(run, floor)
    requires slot in After(Init(now), run).local
    requires Current(After(Init(now), run).now, floor, After(Init(now), run).local[slot].snapshot)
    ensures var w := After(Init(now), run);
      Present(w.db, w.now, slot.1) && Within(w.local[slot].snapshot.ips, w.db[slot.1].ips)
  {
    RunLogged(now, run);
    var w := After(Init(now), run);
    AcceptedPersists(now, run, floor, w.local[slot].snapshot);
  }

  /** The snapshot an accepted call takes shows exactly the map the script left, with the call's own address. */
  lemma SnapshotTaken(w: World, call: Step)
    requires call.Call? && Reserve(StoredIps(w.db, w.now, CallKey(call)), call.ip, call.uid, call.limit).0
    ensures var w' := Apply(w, call); var ips := StoredIps(w'.db, w'.now, CallKey(call));
      && call.ip in ips && Snapshot(CallKey(call), call.ip, ips, w.now) in w'.log
      && Present(w'.db, w'.now, CallKey(call))
  {
    hide CallKey;
    ReserveMeans(StoredIps(w.db, w.now, CallKey(call)), call.ip, call.uid, call.limit);
  }

  /**
   * The exact condition, for any expiries: from its script run on, a snapshot stays a subset of the shared map
   * throughout a run if and only if the key never runs out on the way.
   */
  lemma SubsetWhilePresent(w: World, call: Step, run: seq<Step>)
    requires call.Call? && Reserve(StoredIps(w.db, w.now, CallKey(call)), call.ip, call.uid, call.limit).0
    ensures var w' := Apply(w, call); var key := CallKey(call); var ips := StoredIps(w'.db, w'.now, key);
      (forall n :: 0 <= n <= |run| ==> var v := After(w', run[..n]); Within(ips, StoredIps(v.db, v.now, key)))
      <==> (forall n :: 0 <= n <= |run| ==> var v := After(w', run[..n]); Present(v.db, v.now, key))
  {
    hide CallKey, Apply;
    SnapshotTaken(w, call);
    var w', key := Apply(w, call), CallKey(call);
    var ips := StoredIps(w'.db, w'.now, key);
    if forall n :: 0 <= n <= |run| ==> var v := After(w', run[..n]); Within(ips, StoredIps(v.db, v.now, key)) {
      forall n | 0 <= n <= |run|
        ensures var v := After(w', run[..n]); Present(v.db, v.now, key)
      {
        var v := After(w', run[..n]);
        assert Within(ips, StoredIps(v.db, v.now, key));
        assert call.ip in StoredIps(v.db, v.now, key);
      }
    }
    if forall n :: 0 <= n <= |run| ==> var v := After(w', run[..n]); Present(v.db, v.now, key) {
      forall n | 0 <= n <= |run|
        ensures var v := After(w', run[..n]); Within(ips, StoredIps(v.db, v.now, key))
      {
        PrefixGrows(w', run, n, key);
      }
    }
  }

  lemma PrefixGrows(w: World, run: seq<Step>, n: nat, key: string)
    requires n <= |run|
    requires forall m :: 0 <= m <= |run| ==> var v := After(w, run[..m]); Present(v.db, v.now, key)
    ensures var v := After(w, run[..n]); Within(StoredIps(w.db, w.now, key), StoredIps(v.db, v.now, key))
  {
    hide CallKey, Apply;
    forall m | 0 <= m <= n
      ensures Present(After(w, run[..n][..m]).db, After(w, run[..n][..m]).now, key)
    {
      assert run[..n][..m] == run[..m];
      var v := After(w, run[..m]);
      assert Present(v.db, v.now, key);
    }
    GrowsUntilExpiry(w, run[..n], key);
    var v := After(w, run[..n]);
    assert Present(v.db, v.now, key);
  }

  const FIRST_CALL := Call(0, "n", "u", 7, 1, "a", 10)
  const SECOND_CALL := Call(1, "m", "u", 7, 1, "b", 10)
  const LATE_RUN := [FIRST_CALL, Tick(5), Deliver(0), Tick(6), SECOND_CALL]

  /** A slow reply outlives the shared value: its process keeps, unexpired, an address that Redis no longer has. */
  lemma LateSnapshot()
    ensures Configured(LATE_RUN, 10)
    ensures var w := After(Init(0), LATE_RUN);
      var key := CallKey(FIRST_CALL);
      && (0, key) in w.local && w.local[(0, key)].expiresAt == Some(w.now + 4)
      && Present(w.db, w.now, key)
      && !Within(w.local[(0, key)].snapshot.ips, w.db[key].ips)
  {
    hide CallKey;
    var key := CallKey(FIRST_CALL);
    LateKeys();
    var snapshot := Snapshot(key, "a", map["a" := 7], 0);
    var db := map[key := Value(map["a" := 7], Some(10))];
    var w1 := World(0, db, [Reply(0, key, 10, Some(snapshot))], map[], {snapshot});
    Extend(Init(0), [], FIRST_CALL);
    assert After(Init(0), [FIRST_CALL]) == w1;
    LateEnd(key, snapshot, w1);
  }

  lemma LateKeys()
    ensures CallKey(FIRST_CALL) == CallKey(SECOND_CALL)
  {
    GlobalKeyShape("n", "u", 7, 1);
    GlobalKeyShape("m", "u", 7, 1);
  }

  lemma LateDelivery(key: string, snapshot: Snapshot, db: Db)
    ensures var w := World(0, db, [Reply(0, key, 10, Some(snapshot))], map[], {snapshot});
      Apply(Apply(w, Tick(5)), Deliver(0)) == World(5, db, [], map[(0, key) := Kept(snapshot, Some(15))], {snapshot})
  {
    hide CallKey, ScriptDb, Reserve;
    var reply := Reply(0, key, 10, Some(snapshot));
    assert Dropped([reply], 0) == [];
  }

  lemma LateSecond(key: string, w: World)
    requires key == CallKey(SECOND_CALL)
    requires w.now == 11 && key in w.db && w.db[key].expiresAt == Some(10)
    ensures var db := Apply(w, SECOND_CALL).db;
      Apply(w, SECOND_CALL).local == w.local && Apply(w, SECOND_CALL).now == w.now
      && key in db && db[key] == Value(map["b" := 7], Some(21))
  {
    hide CallKey;
    assert !Present(w.db, w.now, key);
  }

  lemma LateEnd(key: string, snapshot: Snapshot, w1: World)
    requires key == CallKey(SECOND_CALL)
    requires var db := map[key := Value(map["a" := 7], Some(10))];
      w1 == World(0, db, [Reply(0, key, 10, Some(snapshot))], map[], {snapshot})
    requires After(Init(0), [FIRST_CALL]) == w1
    ensures var w := After(Init(0), LATE_RUN);
      && (0, key) in w.local && w.local[(0, key)] == Kept(snapshot, Some(15))
      && w.now == 11
      && key in w.db && w.db[key] == Value(map["b" := 7], Some(21))
  {
    hide CallKey, After, Run, Receive, ScriptDb;
    var run3, run4 := [FIRST_CALL, Tick(5), Deliver(0)], [FIRST_CALL, Tick(5), Deliver(0), Tick(6)];
    assert [FIRST_CALL] + [Tick(5)] == [FIRST_CALL, Tick(5)] && [FIRST_CALL, Tick(5)] + [Deliver(0)] == run3;
    assert run3 + [Tick(6)] == run4 && run4 + [SECOND_CALL] == LATE_RUN;
    Extend(Init(0), [FIRST_CALL], Tick(5));
    Extend(Init(0), [FIRST_CALL, Tick(5)], Deliver(0));
    LateDelivery(key, snapshot, w1.db);
    Extend(Init(0), run3, Tick(6));
    Extend(Init(0), run4, SECOND_CALL);
    LateSecond(key, After(Init(0), run4));
  }

  lemma Extend(start: World, run: seq<Step>, step: Step)
    ensures After(start, run + [step]) == Apply(After(start, run), step)
  {
    assert (run + [step])[..|run|] == run;
  }
}
