/** Which limit changes reach a flow that already holds its user's bucket. */
module BucketReach {
  import opened Api
  import opened Limiter
  import opened DeviceLimit

  /** The hub still hands out, and updates still adjust, bucket `b` for user `k`. */
  predicate Held(s: Inbound, k: string, b: nat) {
    k in s.hub && s.hub[k] == b
  }

  /** The user becomes unlimited. */
  predicate Unlimits(s: Inbound, k: string, u: UserInfo) {
    KeyFor(s.tag, u) == k && DetermineRate(s.nodeLimit, u.speedLimit) == 0
  }

  /** A report that finds the user without a window, a deletion, or a change to unlimited. */
  ghost predicate Drops(s: Inbound, op: Op, k: string) {
    match op
    case Online => k !in s.online
    case DropBucket(key) => key == k && k !in s.online
    case Delete(list) => exists u :: u in list && KeyFor(s.tag, u) == k
    case Update(list) => exists u :: u in list && Unlimits(s, k, u)
    case CloseWindow(_) => false
    case Open(_, _) => false
  }

  lemma {:induction false} UpdateHeld(s: Inbound, list: seq<UserInfo>, k: string, b: nat)
    requires HubIds(s) && Held(s, k, b)
    ensures var s' := UpdateAll(s, list);
      && s'.tag == s.tag && s'.nodeLimit == s.nodeLimit
      && (if exists u :: u in list && Unlimits(s, k, u) then k !in s'.hub else Held(s', k, b))
  {
    hide KeyFor, DetermineRate;
    if list != [] {
      var prefix, last := list[..|list| - 1], list[|list| - 1];
      assert list == prefix + [last];
      UpdateHeld(s, prefix, k, b);
      UpdateHub(UpdateAll(s, prefix), last, k);
      assert last in list && Unlimits(UpdateAll(s, prefix), k, last) == Unlimits(s, k, last);
      if exists u :: u in prefix && Unlimits(s, k, u) {
        var u :| u in prefix && Unlimits(s, k, u);
        assert u in list;
      }
    }
  }

  lemma UpdateHub(s: Inbound, u: UserInfo, k: string)
    requires HubIds(s)
    ensures var s' := UpdateUser(s, u);
      if Unlimits(s, k, u) then k !in s'.hub
      else (k in s'.hub <==> k in s.hub) && (k in s.hub ==> s'.hub[k] == s.hub[k])
  {
    hide KeyFor, DetermineRate;
  }

  lemma {:induction false} DeleteHeld(s: Inbound, list: seq<UserInfo>, k: string, b: nat)
    requires Held(s, k, b)
    ensures var s' := DeleteAll(s, list);
      && s'.tag == s.tag
      && (if exists u :: u in list && KeyFor(s.tag, u) == k then k !in s'.hub else Held(s', k, b))
  {
    hide KeyFor;
    if list != [] {
      var prefix, last := list[..|list| - 1], list[|list| - 1];
      assert list == prefix + [last];
      DeleteHeld(s, prefix, k, b);
    }
  }

  lemma StepHeld(s: Inbound, op: Op, k: string, b: nat)
    requires HubIds(s) && Held(s, k, b)
    ensures Held(Apply(s, op), k, b) <==> !Drops(s, op, k)
  {
    hide KeyFor, DetermineRate, UpdateAll, DeleteAll, Unlimits;
    match op
    case Update(list) => UpdateHeld(s, list, k, b);
    case Delete(list) => DeleteHeld(s, list, k, b);
    case _ =>
  }

  /******* A bucket that left the hub is out of reach for good *******/

  /** Bucket `b` exists and no user's entry leads to it. */
  ghost predicate Adrift(s: Inbound, b: nat) {
    b < |s.buckets| && forall k :: k in s.hub ==> s.hub[k] != b
  }

  lemma {:induction false} UpdateAdrift(s: Inbound, list: seq<UserInfo>, b: nat)
    requires HubIds(s) && Adrift(s, b)
    ensures var s' := UpdateAll(s, list); Adrift(s', b) && s'.buckets[b] == s.buckets[b]
  {
    hide KeyFor, DetermineRate;
    if list != [] {
      UpdateAdrift(s, list[..|list| - 1], b);
    }
  }

  lemma {:induction false} DeleteAdrift(s: Inbound, list: seq<UserInfo>, b: nat)
    requires Adrift(s, b)
    ensures var s' := DeleteAll(s, list); Adrift(s', b) && s'.buckets[b] == s.buckets[b]
  {
    hide KeyFor;
    if list != [] {
      DeleteAdrift(s, list[..|list| - 1], b);
    }
  }

  lemma StepAdrift(s: Inbound, op: Op, b: nat)
    requires HubIds(s) && Adrift(s, b)
    ensures var s' := Apply(s, op); Adrift(s', b) && s'.buckets[b] == s.buckets[b]
  {
    hide KeyFor, DetermineRate, UpdateAll, DeleteAll;
    match op
    case Update(list) => UpdateAdrift(s, list, b);
    case Delete(list) => DeleteAdrift(s, list, b);
    case _ =>
  }

  /** Whatever happens later, such a bucket keeps the rate it had. */
  lemma {:induction false} AdriftForever(s: Inbound, ops: seq<Op>, b: nat)
    requires HubIds(s) && Adrift(s, b)
    ensures Adrift(Exec(s, ops), b) && Exec(s, ops).buckets[b] == s.buckets[b]
    decreases |ops|
  {
    hide Apply, Adrift;
    if ops != [] {
      AdriftForever(s, ops[..|ops| - 1], b);
      StepAdrift(Exec(s, ops[..|ops| - 1]), ops[|ops| - 1], b);
    }
  }

  /** A user's bucket is either still held or adrift, since no two users share one. */
  lemma DropLeavesAdrift(s: Inbound, op: Op, k: string, b: nat)
    requires Inv(s) && Held(s, k, b) && Drops(s, op, k)
    ensures Inv(Apply(s, op)) && Adrift(Apply(s, op), b)
  {
    hide KeyFor, DetermineRate, UpdateAll, DeleteAll, Unlimits, UsersOk, OnlineOk, BucketOk;
    StepInv(s, op);
    BucketExists(s, k, b);
    match op
    case Update(list) =>
      UpdateHeld(s, list, k, b);
      UpdateOthers(s, list, b);
    case Delete(list) =>
      DeleteHeld(s, list, k, b);
      DeleteOthers(s, list, b);
    case _ =>
  }

  lemma BucketExists(s: Inbound, k: string, b: nat)
    requires Inv(s) && Held(s, k, b)
    ensures b < |s.buckets|
  {
    assert BucketOk(s.nodeLimit, s.users, s.buckets, k, s.hub[k]);
  }

  /** Updates and deletions point nobody at another bucket. */
  lemma {:induction false} UpdateOthers(s: Inbound, list: seq<UserInfo>, b: nat)
    requires HubIds(s)
    ensures var s' := UpdateAll(s, list);
      |s'.buckets| == |s.buckets| && forall k :: k in s'.hub ==> k in s.hub && s'.hub[k] == s.hub[k]
  {
    hide KeyFor, DetermineRate;
    if list != [] {
      UpdateOthers(s, list[..|list| - 1], b);
    }
  }

  lemma {:induction false} DeleteOthers(s: Inbound, list: seq<UserInfo>, b: nat)
    ensures var s' := DeleteAll(s, list);
      s'.buckets == s.buckets && forall k :: k in s'.hub ==> k in s.hub && s'.hub[k] == s.hub[k]
  {
    hide KeyFor;
    if list != [] {
      DeleteOthers(s, list[..|list| - 1], b);
    }
  }

  /******* Whole runs *******/

  /** No step of the run drops the user's bucket. */
  ghost predicate Undropped(s: Inbound, ops: seq<Op>, k: string)
    requires HubIds(s)
  {
    forall n :: 0 <= n < |ops| ==> !Drops(Exec(s, ops[..n]), ops[n], k)
  }

  /** A bucket is held after a run if and only if no step dropped it, and otherwise it is adrift. */
  lemma {:induction false} HeldIff(s: Inbound, ops: seq<Op>, k: string, b: nat)
    requires Inv(s) && HubIds(s) && Held(s, k, b)
    ensures var t := Exec(s, ops);
      && Inv(t)
      && (Held(t, k, b) <==> Undropped(s, ops, k))
      && (!Held(t, k, b) ==> Adrift(t, b))
    decreases |ops|
  {
    hide Apply, Inv, Drops, Adrift, HubIds;
    if ops != [] {
      var before, last := ops[..|ops| - 1], ops[|ops| - 1];
      var t := Exec(s, before);
      HeldIff(s, before, k, b);
      assert forall n :: 0 <= n < |before| ==> before[..n] == ops[..n];
      StepInv(t, last);
      if Held(t, k, b) {
        StepHeld(t, last, k, b);
        if Drops(t, last, k) {
          DropLeavesAdrift(t, last, k, b);
        }
      } else {
        StepAdrift(t, last, b);
        AdriftNotHeld(Apply(t, last), k, b);
      }
    }
  }

  lemma AdriftNotHeld(s: Inbound, k: string, b: nat)
    requires Adrift(s, b)
    ensures !Held(s, k, b)
  {
  }

  /** The bucket a connection was given is the one the hub holds for its user. */
  lemma TakenIsHeld(s: Inbound, k: string, ip: string)
    requires Inv(s)
    ensures var (s', decision) := Connect(s, k, ip);
      && Inv(s') && HubIds(s')
      && (decision.bucket.Some? ==> Held(s', k, decision.bucket.value))
  {
    hide UsersOk, OnlineOk, DetermineRate;
    ConnectInv(s, k, ip);
  }

  /**
   A flow holds its user's bucket, and then anything happens. If nothing dropped the bucket, it runs at the rate the
   user's limits call for and the next positive limit reaches the flow. If something did, the update passes the bucket
   by, and it is adrift for good.
   */
  lemma UpdateReachesFlows(s: Inbound, k: string, b: nat, ops: seq<Op>, u: UserInfo)
    requires Inv(s) && HubIds(s) && Held(s, k, b) && KeyFor(s.tag, u) == k
    ensures var t := Exec(s, ops);
      var t' := UpdateUser(t, u);
      var limit := DetermineRate(s.nodeLimit, u.speedLimit);
      && b < |t.buckets| == |t'.buckets|
      && (Undropped(s, ops, k) ==>
        && k in t.users && t.buckets[b] == NewBucket(DetermineRate(t.nodeLimit, t.users[k].speed))
        && (limit > 0 ==> t'.buckets[b] == NewBucket(limit)))
      && (!Undropped(s, ops, k) ==> t'.buckets[b] == t.buckets[b] && Adrift(t', b))
  {
    hide Inv, HubIds, Undropped, UpdateUser, Adrift, KeyFor, DetermineRate, Exec;
    HeldIff(s, ops, k, b);
    ExecFrame(s, ops);
    var t := Exec(s, ops);
    if Undropped(s, ops, k) {
      HeldRate(t, k, b);
      UpdateHeldRate(t, u, b);
    } else {
      UpdateUserAdrift(t, u, b);
    }
  }

  /** A held bucket runs at the rate in force. */
  lemma HeldRate(s: Inbound, k: string, b: nat)
    requires Inv(s) && Held(s, k, b)
    ensures b < |s.buckets| && k in s.users
    ensures s.buckets[b] == NewBucket(DetermineRate(s.nodeLimit, s.users[k].speed))
  {
    assert BucketOk(s.nodeLimit, s.users, s.buckets, k, s.hub[k]);
  }

  lemma UpdateHeldRate(s: Inbound, u: UserInfo, b: nat)
    requires Inv(s) && HubIds(s) && Held(s, KeyFor(s.tag, u), b)
    ensures |UpdateUser(s, u).buckets| == |s.buckets| && b < |s.buckets|
    ensures var limit := DetermineRate(s.nodeLimit, u.speedLimit);
      limit > 0 ==> UpdateUser(s, u).buckets[b] == NewBucket(limit)
  {
    hide KeyFor, DetermineRate, UsersOk, OnlineOk;
  }

  lemma UpdateUserAdrift(s: Inbound, u: UserInfo, b: nat)
    requires HubIds(s) && Adrift(s, b)
    ensures |UpdateUser(s, u).buckets| == |s.buckets| && b < |s.buckets|
    ensures UpdateUser(s, u).buckets[b] == s.buckets[b] && Adrift(UpdateUser(s, u), b)
  {
    hide KeyFor, DetermineRate;
  }

  lemma ConnectFrame(s: Inbound, k: string, ip: string)
    ensures Connect(s, k, ip).0.tag == s.tag && Connect(s, k, ip).0.nodeLimit == s.nodeLimit
  {
  }

  lemma {:induction false} ListFrame(s: Inbound, list: seq<UserInfo>)
    requires HubIds(s)
    ensures UpdateAll(s, list).tag == s.tag && UpdateAll(s, list).nodeLimit == s.nodeLimit
    ensures DeleteAll(s, list).tag == s.tag && DeleteAll(s, list).nodeLimit == s.nodeLimit
  {
    hide UpdateUser, KeyFor;
    if list != [] {
      ListFrame(s, list[..|list| - 1]);
    }
  }

  lemma {:induction false} ExecFrame(s: Inbound, ops: seq<Op>)
    requires HubIds(s)
    ensures Exec(s, ops).tag == s.tag && Exec(s, ops).nodeLimit == s.nodeLimit
    decreases |ops|
  {
    hide UpdateAll, DeleteAll, Connect;
    if ops != [] {
      var t, op := Exec(s, ops[..|ops| - 1]), ops[|ops| - 1];
      ExecFrame(s, ops[..|ops| - 1]);
      match op
      case Update(list) => ListFrame(t, list);
      case Delete(list) => ListFrame(t, list);
      case Open(k, ip) => ConnectFrame(t, k, ip);
      case _ =>
    }
  }

  /**
   A long-lived flow outlasts two reports without a new connection of its user: the limit drops to 50, and the flow
   goes on at 100.
   */
  lemma MissedLimitRun(tag: string, u: UserInfo, ip: string)
    requires u.speedLimit == 100
    ensures var k := KeyFor(tag, u);
      var s := After(tag, 0, [u], [Open(k, ip), Online, Online, Update([u.(speedLimit := 50)])]);
      && Connect(Build(tag, 0, [u]), k, ip).1.bucket == Some(0)
      && k in s.users && s.users[k].speed == 50
      && s.buckets == [NewBucket(100)] && k !in s.hub
  {
    hide KeyFor, Connect, After;
    var k, slow := KeyFor(tag, u), u.(speedLimit := 50);
    SameKey(tag, u, slow);
    var ops := [Open(k, ip), Online, Online, Update([slow])];
    assert ops[..0] == [] && ops[..4] == ops;
    StartState(tag, u);
    var s0 := Build(tag, 0, [u]);
    FirstConnection(s0, k, ip);
    AfterNext(tag, [u], ops, 0);
    AfterNext(tag, [u], ops, 1);
    AfterNext(tag, [u], ops, 2);
    AfterNext(tag, [u], ops, 3);
    var s2 := After(tag, 0, [u], ops[..2]);
    assert s2.hub == map[k := 0] && s2.online == map[];
    var s3 := After(tag, 0, [u], ops[..3]);
    assert s3.hub == map[];
    assert [slow][..0] == [];
    assert UpdateAll(s3, [slow]) == UpdateUser(s3, slow);
  }

  lemma StartState(tag: string, u: UserInfo)
    ensures Build(tag, 0, [u]).users == map[KeyFor(tag, u) := LimitOf(u)]
    ensures After(tag, 0, [u], []) == Build(tag, 0, [u])
  {
    hide KeyFor;
    assert [u][..0] == [] && UserMap(tag, []) == map[];
    assert UserMap(tag, [u]) == UserMap(tag, [u][..0])[KeyFor(tag, u) := LimitOf(u)];
  }

  lemma AfterNext(tag: string, list: seq<UserInfo>, ops: seq<Op>, n: nat)
    requires n < |ops|
    ensures After(tag, 0, list, ops[..n + 1]) == Apply(After(tag, 0, list, ops[..n]), ops[n])
  {
    hide Apply;
    assert ops[..n + 1][..n] == ops[..n];
  }

  lemma FirstConnection(s: Inbound, k: string, ip: string)
    requires s.nodeLimit == 0 && k in s.users && s.users[k].speed == 100
    requires s.hub == map[] && s.buckets == [] && s.online == map[]
    ensures var (s', decision) := Connect(s, k, ip);
      && decision.bucket == Some(0)
      && s' == s.(hub := map[k := 0], buckets := [NewBucket(100)], online := map[k := map[ip := s.users[k].uid]])
  {
    assert !Refused(s, k, ip);
    assert IpsOf(s, k)[ip := s.users[k].uid] == map[ip := s.users[k].uid];
    assert s.online[k := map[ip := s.users[k].uid]] == map[k := map[ip := s.users[k].uid]];
    assert s.hub[k := 0] == map[k := 0];
  }

  lemma SameKey(tag: string, u: UserInfo, v: UserInfo)
    requires u.email == v.email && u.uid == v.uid
    ensures KeyFor(tag, u) == KeyFor(tag, v)
  {
  }
}
