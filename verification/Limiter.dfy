/** Per-user speed and device limits of the inbounds, kept as an index that flows consult. */
module Limiter {
  import opened Api
  import opened UserKey

  /******* Values *******/

  datatype UserLimit = UserLimit(uid: int64, speed: uint64, devices: int)

  /** A token bucket object; flows keep a handle to it. */
  datatype Bucket = Bucket(rate: uint64, burst: int64)

  datatype OnlineUser = OnlineUser(uid: int64, ip: string)

  /** One inbound. `hub` maps a user key to its bucket in the arena `buckets`. */
  datatype Inbound = Inbound(
    tag: string,
    nodeLimit: uint64,
    users: map<string, UserLimit>,
    hub: map<string, nat>,
    buckets: seq<Bucket>,
    online: map<string, map<string, int64>>
  )

  /** The smaller non-zero limit; zero means unlimited. */
  function DetermineRate(nodeLimit: uint64, userLimit: uint64): (limit: uint64)
    ensures limit == 0 <==> nodeLimit == 0 && userLimit == 0
    ensures limit == nodeLimit || limit == userLimit
    ensures limit != 0 && nodeLimit != 0 ==> limit <= nodeLimit
    ensures limit != 0 && userLimit != 0 ==> limit <= userLimit
  {
    if nodeLimit == 0 || userLimit == 0 then
      if nodeLimit > userLimit then nodeLimit
      else if nodeLimit < userLimit then userLimit
      else 0
    else
      if nodeLimit > userLimit then userLimit else nodeLimit
  }

  /** Go's conversion of a `uint64` to `int`: the upper half of the range wraps to negative values. */
  function ToInt(x: uint64): (i: int64)
    ensures i >= 0 <==> x < 0x8000_0000_0000_0000
  {
    if x < 0x8000_0000_0000_0000 then x else x - 0x1_0000_0000_0000_0000
  }

  function NewBucket(limit: uint64): Bucket {
    Bucket(limit, ToInt(limit))
  }

  function KeyFor(tag: string, u: UserInfo): string {
    FormatUserKey(tag, u.email, u.uid)
  }

  function LimitOf(u: UserInfo): UserLimit {
    UserLimit(u.uid, u.speedLimit, u.deviceLimit)
  }

  /******* Operations *******/

  function UserMap(tag: string, list: seq<UserInfo>): map<string, UserLimit> {
    if list == [] then map[]
    else
      var u := list[|list| - 1];
      UserMap(tag, list[..|list| - 1])[KeyFor(tag, u) := LimitOf(u)]
  }

  /** A limiter built from scratch. */
  function Build(tag: string, nodeLimit: uint64, list: seq<UserInfo>): Inbound {
    Inbound(tag, nodeLimit, UserMap(tag, list), map[], [], map[])
  }

  ghost predicate HubIds(s: Inbound) {
    forall k :: k in s.hub ==> s.hub[k] < |s.buckets|
  }

  /** Stores the limits; a bucket in the hub is adjusted in place, or dropped when the user becomes unlimited. */
  ghost function UpdateUser(s: Inbound, u: UserInfo): (s': Inbound)
    requires HubIds(s)
    ensures HubIds(s') && s'.tag == s.tag && s'.nodeLimit == s.nodeLimit && s'.online == s.online
    ensures s'.users == s.users[KeyFor(s.tag, u) := LimitOf(u)]
  {
    var k := KeyFor(s.tag, u);
    var limit := DetermineRate(s.nodeLimit, u.speedLimit);
    var s1 := s.(users := s.users[k := LimitOf(u)]);
    if limit == 0 then s1.(hub := s.hub - {k})
    else if k in s.hub then s1.(buckets := s.buckets[s.hub[k] := NewBucket(limit)])
    else s1
  }

  ghost function UpdateAll(s: Inbound, list: seq<UserInfo>): (s': Inbound)
    requires HubIds(s)
    ensures HubIds(s')
  {
    if list == [] then s else UpdateUser(UpdateAll(s, list[..|list| - 1]), list[|list| - 1])
  }

  function DeleteUser(s: Inbound, u: UserInfo): Inbound {
    var k := KeyFor(s.tag, u);
    s.(users := s.users - {k}, hub := s.hub - {k}, online := s.online - {k})
  }

  function DeleteAll(s: Inbound, list: seq<UserInfo>): Inbound {
    if list == [] then s else DeleteUser(DeleteAll(s, list[..|list| - 1]), list[|list| - 1])
  }

  /** Reporting online devices drops the buckets of users who are not online and starts a new window. */
  function ResetWindow(s: Inbound): Inbound {
    s.(hub := map k | k in s.hub && k in s.online :: s.hub[k], online := map[])
  }

  /** One critical section of that sweep: a user without a window loses its bucket. */
  function DropIdleBucket(s: Inbound, k: string): Inbound {
    if k in s.online then s else s.(hub := s.hub - {k})
  }

  datatype Decision = Decision(bucket: Option<nat>, limited: bool, reject: bool)

  function IpsOf(s: Inbound, k: string): map<string, int64> {
    if k in s.online then s.online[k] else map[]
  }

  /** A new address is refused exactly when a positive device limit is already used up. */
  predicate Refused(s: Inbound, k: string, ip: string)
    requires k in s.users
  {
    ip !in IpsOf(s, k) && s.users[k].devices > 0 && |IpsOf(s, k)| >= s.users[k].devices
  }

  /** Records the address with the user's UID; a known address keeps its entry. */
  function AddIp(s: Inbound, k: string, ip: string): Inbound
    requires k in s.users
  {
    var ips := IpsOf(s, k);
    s.(online := s.online[k := if ip in ips then ips else ips[ip := s.users[k].uid]])
  }

  /** The bucket in the hub, or a new one at the user's rate. */
  function TakeBucket(s: Inbound, k: string, limit: uint64): (Inbound, nat) {
    if k in s.hub then (s, s.hub[k])
    else (s.(hub := s.hub[k := |s.buckets|], buckets := s.buckets + [NewBucket(limit)]), |s.buckets|)
  }

  /** A connection of user `k` from `ip`; a user without an entry passes without any limit. */
  function Connect(s: Inbound, k: string, ip: string): (Inbound, Decision) {
    if k !in s.users then (s, Decision(None, false, false))
    else if Refused(s, k, ip) then (s, Decision(None, false, true))
    else
      var s1 := AddIp(s, k, ip);
      var limit := DetermineRate(s.nodeLimit, s.users[k].speed);
      if limit == 0 then (s1, Decision(None, false, false))
      else
        var (s2, bucket) := TakeBucket(s1, k, limit);
        (s2, Decision(Some(bucket), true, false))
  }

  /******* Runs *******/

  datatype Op =
    | Update(list: seq<UserInfo>)
    | Delete(list: seq<UserInfo>)
    | Online
    | DropBucket(key: string)
    | CloseWindow(key: string)
    | Open(key: string, ip: string)

  ghost function Apply(s: Inbound, op: Op): (s': Inbound)
    requires HubIds(s)
    ensures HubIds(s')
  {
    match op
    case Update(list) => UpdateAll(s, list)
    case Delete(list) => DeleteKeepsIds(s, list); DeleteAll(s, list)
    case Online => ResetWindow(s)
    case DropBucket(k) => DropIdleBucket(s, k)
    case CloseWindow(k) => s.(online := s.online - {k})
    case Open(k, ip) => Connect(s, k, ip).0
  }

  lemma {:induction false} DeleteKeepsIds(s: Inbound, list: seq<UserInfo>)
    requires HubIds(s)
    ensures HubIds(DeleteAll(s, list))
  {
    if list != [] {
      DeleteKeepsIds(s, list[..|list| - 1]);
    }
  }

  /** The limiter after it was built from a list and then used by any sequence of operations. */
  ghost function After(tag: string, nodeLimit: uint64, list: seq<UserInfo>, ops: seq<Op>): (s: Inbound)
    ensures HubIds(s)
    decreases |ops|
  {
    if ops == [] then Build(tag, nodeLimit, list)
    else Apply(After(tag, nodeLimit, list, ops[..|ops| - 1]), ops[|ops| - 1])
  }

  /******* The index invariant *******/

  /** Every stored limit sits under a key that encodes its UID. */
  ghost predicate UsersOk(users: map<string, UserLimit>) {
    forall k :: k in users ==> UidOf(k) == Some(users[k].uid)
  }

  /** A bucket belongs to a known user and runs at the rate the current limits call for. */
  predicate BucketOk(nodeLimit: uint64, users: map<string, UserLimit>, buckets: seq<Bucket>, k: string, b: nat) {
    && k in users
    && b < |buckets|
    && DetermineRate(nodeLimit, users[k].speed) > 0
    && buckets[b] == NewBucket(DetermineRate(nodeLimit, users[k].speed))
  }

  /** All buckets in the hub are coherent with the limits, and no two users share one. */
  ghost predicate HubOk(nodeLimit: uint64, users: map<string, UserLimit>, hub: map<string, nat>, buckets: seq<Bucket>) {
    && (forall k :: k in hub ==> BucketOk(nodeLimit, users, buckets, k, hub[k]))
    && (forall k, k' :: k in hub && k' in hub && hub[k] == hub[k'] ==> k == k')
  }

  /** A window is not empty and stores the UID its key encodes. */
  ghost predicate WindowOk(k: string, ips: map<string, int64>) {
    ips != map[] && forall ip :: ip in ips ==> UidOf(k) == Some(ips[ip])
  }

  ghost predicate OnlineOk(users: map<string, UserLimit>, online: map<string, map<string, int64>>) {
    forall k :: k in online ==> k in users && WindowOk(k, online[k])
  }

  ghost predicate Inv(s: Inbound) {
    && UsersOk(s.users)
    && HubOk(s.nodeLimit, s.users, s.hub, s.buckets)
    && OnlineOk(s.users, s.online)
  }

  lemma UpdateUserHub(s: Inbound, u: UserInfo)
    requires Inv(s)
    ensures var s' := UpdateUser(s, u); HubOk(s'.nodeLimit, s'.users, s'.hub, s'.buckets)
  {
    hide UidOf, FormatUserKey, UsersOk, OnlineOk;
    var s' := UpdateUser(s, u);
    forall x | x in s'.hub ensures BucketOk(s'.nodeLimit, s'.users, s'.buckets, x, s'.hub[x]) {
      assert BucketOk(s.nodeLimit, s.users, s.buckets, x, s.hub[x]);
    }
  }

  lemma UpdateUserInv(s: Inbound, u: UserInfo)
    requires Inv(s)
    ensures Inv(UpdateUser(s, u))
  {
    hide UidOf, FormatUserKey, HubOk, HubIds, WindowOk;
    UpdateUserHub(s, u);
    UidOfKey(s.tag, u.email, u.uid);
  }

  lemma DeleteUserInv(s: Inbound, u: UserInfo)
    requires Inv(s)
    ensures Inv(DeleteUser(s, u))
  {
    hide UidOf, FormatUserKey;
  }

  lemma {:induction false} UpdateAllInv(s: Inbound, list: seq<UserInfo>)
    requires Inv(s)
    ensures Inv(UpdateAll(s, list))
  {
    hide UsersOk, OnlineOk, UpdateUser;
    if list != [] {
      UpdateAllInv(s, list[..|list| - 1]);
      UpdateUserInv(UpdateAll(s, list[..|list| - 1]), list[|list| - 1]);
    }
  }

  lemma {:induction false} DeleteAllInv(s: Inbound, list: seq<UserInfo>)
    requires Inv(s)
    ensures Inv(DeleteAll(s, list))
  {
    hide Inv, DeleteUser;
    if list != [] {
      DeleteAllInv(s, list[..|list| - 1]);
      DeleteUserInv(DeleteAll(s, list[..|list| - 1]), list[|list| - 1]);
    }
  }

  lemma AddIpInv(s: Inbound, k: string, ip: string)
    requires Inv(s) && k in s.users
    ensures Inv(AddIp(s, k, ip))
  {
    hide UidOf, HubOk;
    if k in s.online {
      assert WindowOk(k, s.online[k]);
    }
    assert WindowOk(k, AddIp(s, k, ip).online[k]);
  }

  lemma TakeBucketInv(s: Inbound, k: string, limit: uint64)
    requires Inv(s) && k in s.users && limit == DetermineRate(s.nodeLimit, s.users[k].speed) && limit > 0
    ensures var (s', b) := TakeBucket(s, k, limit); Inv(s') && k in s'.hub && s'.hub[k] == b && s'.users == s.users
  {
    hide UsersOk, OnlineOk;
    var (s', b) := TakeBucket(s, k, limit);
    if k !in s.hub {
      forall x | x in s'.hub ensures BucketOk(s'.nodeLimit, s'.users, s'.buckets, x, s'.hub[x]) {
        if x != k {
          assert BucketOk(s.nodeLimit, s.users, s.buckets, x, s.hub[x]);
        }
      }
      assert forall x :: x in s.hub ==> s.hub[x] < |s.buckets|;
    }
  }

  lemma ConnectInv(s: Inbound, k: string, ip: string)
    requires Inv(s)
    ensures Inv(Connect(s, k, ip).0)
  {
    hide Inv, AddIp, TakeBucket, DetermineRate;
    if k in s.users && !Refused(s, k, ip) {
      AddIpInv(s, k, ip);
      AddIpFrame(s, k, ip);
      var limit := DetermineRate(s.nodeLimit, s.users[k].speed);
      if limit != 0 {
        TakeBucketInv(AddIp(s, k, ip), k, limit);
      }
    }
  }

  lemma AddIpFrame(s: Inbound, k: string, ip: string)
    requires k in s.users
    ensures AddIp(s, k, ip) == s.(online := AddIp(s, k, ip).online)
  {
  }

  lemma {:induction false} BuildInv(tag: string, nodeLimit: uint64, list: seq<UserInfo>)
    ensures Inv(Build(tag, nodeLimit, list))
  {
    hide UidOf, FormatUserKey;
    if list != [] {
      BuildInv(tag, nodeLimit, list[..|list| - 1]);
      UidOfKey(tag, list[|list| - 1].email, list[|list| - 1].uid);
    }
  }

  lemma StepInv(s: Inbound, op: Op)
    requires Inv(s)
    ensures HubIds(s) && Inv(Apply(s, op))
  {
    hide UsersOk, OnlineOk, UpdateAll, DeleteAll, Connect, ResetWindow;
    match op
    case Update(l) => UpdateAllInv(s, l);
    case Delete(l) => DeleteAllInv(s, l);
    case Online => ResetInv(s);
    case DropBucket(k) => SweepInv(s, k);
    case CloseWindow(k) => SweepInv(s, k);
    case Open(k, ip) => ConnectInv(s, k, ip);
  }

  /** The index invariant holds after any operations. */
  lemma {:induction false} RunInv(tag: string, nodeLimit: uint64, list: seq<UserInfo>, ops: seq<Op>)
    ensures Inv(After(tag, nodeLimit, list, ops))
    decreases |ops|
  {
    hide Inv, HubIds, Apply, Build;
    if ops == [] {
      BuildInv(tag, nodeLimit, list);
    } else {
      RunInv(tag, nodeLimit, list, ops[..|ops| - 1]);
      StepInv(After(tag, nodeLimit, list, ops[..|ops| - 1]), ops[|ops| - 1]);
    }
  }

  lemma SweepInv(s: Inbound, k: string)
    requires Inv(s)
    ensures Inv(DropIdleBucket(s, k)) && Inv(s.(online := s.online - {k}))
  {
  }

  lemma ResetInv(s: Inbound)
    requires Inv(s)
    ensures Inv(ResetWindow(s))
  {
  }

  /** The burst of a bucket equals its rate and is positive exactly when the limit fits a signed 64-bit integer. */
  lemma BurstPositive(tag: string, nodeLimit: uint64, list: seq<UserInfo>, ops: seq<Op>, k: string)
    requires k in After(tag, nodeLimit, list, ops).hub
    ensures var s := After(tag, nodeLimit, list, ops);
      && k in s.users
      && var limit := DetermineRate(s.nodeLimit, s.users[k].speed);
      && s.buckets[s.hub[k]].rate == limit > 0
      && (s.buckets[s.hub[k]].burst == limit <==> limit < 0x8000_0000_0000_0000)
      && (s.buckets[s.hub[k]].burst > 0 <==> limit < 0x8000_0000_0000_0000)
  {
    RunInv(tag, nodeLimit, list, ops);
  }

  /** The failing side is reached: one connection of a user with a limit of 2^63 gets a bucket with a negative burst. */
  lemma NegativeBurst(tag: string, u: UserInfo, ip: string)
    requires u.speedLimit == 0x8000_0000_0000_0000
    ensures var k := KeyFor(tag, u);
      var s := After(tag, 0, [u], [Open(k, ip)]);
      k in s.hub && s.buckets[s.hub[k]].burst < 0
  {
    hide KeyFor;
    var k := KeyFor(tag, u);
    var s := Build(tag, 0, [u]);
    assert [u][..0] == [] && [Open(k, ip)][..0] == [];
    assert After(tag, 0, [u], []) == s;
    assert UserMap(tag, []) == map[];
    assert s.users == UserMap(tag, [u][..0])[k := LimitOf(u)];
    assert !Refused(s, k, ip);
  }
}
