/** The local device limit over whole runs of the limiter. */
module DeviceLimit {
  import opened Api
  import opened UserKey
  import opened Limiter

  /** A device limit; zero and negative values mean unlimited. */
  predicate Allows(limit: int, n: nat) {
    limit > 0 ==> n <= limit
  }

  /** The window respects the limit that is in force now. */
  predicate Within(s: Inbound, k: string) {
    IpsOf(s, k) == map[] || (k in s.users && Allows(s.users[k].devices, |IpsOf(s, k)|))
  }

  lemma {:induction false} UpdateKeepsOnline(s: Inbound, list: seq<UserInfo>)
    requires HubIds(s)
    ensures UpdateAll(s, list).online == s.online
  {
    if list != [] {
      UpdateKeepsOnline(s, list[..|list| - 1]);
    }
  }

  lemma {:induction false} DeleteOnline(s: Inbound, list: seq<UserInfo>, k: string)
    ensures IpsOf(DeleteAll(s, list), k) == IpsOf(s, k) || IpsOf(DeleteAll(s, list), k) == map[]
  {
    hide KeyFor;
    if list != [] {
      DeleteOnline(s, list[..|list| - 1], k);
    }
  }

  /** One operation leaves a window as it is, empties it, or adds one address within the limit in force. */
  lemma StepWindow(s: Inbound, op: Op, k: string)
    requires HubIds(s)
    ensures var s' := Apply(s, op); var before, after := IpsOf(s, k), IpsOf(s', k);
      || after == before
      || after == map[]
      || (&& op.Open? && op.key == k && op.ip !in before
          && k in s.users && after == before[op.ip := s.users[k].uid] && Within(s', k))
  {
    hide TakeBucket, DetermineRate;
    match op
    case Update(list) => UpdateKeepsOnline(s, list);
    case Delete(list) => DeleteOnline(s, list, k);
    case Online =>
    case DropBucket(_) =>
    case CloseWindow(_) =>
    case Open(key, ip) =>
      if key in s.users && !Refused(s, key, ip) {
        TakeFrame(AddIp(s, key, ip), key, DetermineRate(s.nodeLimit, s.users[key].speed));
        if key == k {
          var ips := IpsOf(s, k);
          assert ip !in ips ==> |ips[ip := s.users[k].uid]| == |ips| + 1;
        }
      }
  }

  lemma TakeFrame(s: Inbound, k: string, limit: uint64)
    ensures TakeBucket(s, k, limit).0.online == s.online && TakeBucket(s, k, limit).0.users == s.users
  {
  }

  /**
   A window never outgrows every limit: there is a moment since which it has not changed and at which it was within
   the limit then in force. Lowering the limit in mid-window therefore never grows it past a limit that once held.
   */
  lemma {:induction false} WindowBounded(tag: string, nodeLimit: uint64, list: seq<UserInfo>, ops: seq<Op>, k: string)
    returns (m: nat)
    ensures m <= |ops|
    ensures Within(After(tag, nodeLimit, list, ops[..m]), k)
    ensures forall j :: m <= j <= |ops| ==>
      IpsOf(After(tag, nodeLimit, list, ops[..j]), k) == IpsOf(After(tag, nodeLimit, list, ops), k)
    decreases |ops|
  {
    hide Apply, Within;
    assert ops[..|ops|] == ops;
    m := |ops|;
    if ops == [] {
      BuildEmpty(tag, nodeLimit, list, k);
    } else {
      var n := |ops| - 1;
      var prefix := ops[..n];
      var s := After(tag, nodeLimit, list, prefix);
      var s' := After(tag, nodeLimit, list, ops);
      StepWindow(s, ops[n], k);
      if IpsOf(s', k) == map[] {
        EmptyWithin(s', k);
      } else if IpsOf(s', k) == IpsOf(s, k) {
        m := WindowBounded(tag, nodeLimit, list, prefix, k);
        assert prefix[..m] == ops[..m];
        forall j | m <= j <= |ops|
          ensures IpsOf(After(tag, nodeLimit, list, ops[..j]), k) == IpsOf(s', k)
        {
          if j <= n {
            assert prefix[..j] == ops[..j];
          }
        }
      }
    }
  }

  lemma BuildEmpty(tag: string, nodeLimit: uint64, list: seq<UserInfo>, k: string)
    ensures Within(After(tag, nodeLimit, list, []), k)
  {
  }

  lemma EmptyWithin(s: Inbound, k: string)
    requires IpsOf(s, k) == map[]
    ensures Within(s, k)
  {
  }

  /** An address in the window is never refused, whatever the limit has become, and its window is unchanged. */
  lemma KnownAddressAdmitted(s: Inbound, k: string, ip: string)
    requires ip in IpsOf(s, k)
    ensures var (s', decision) := Connect(s, k, ip); !decision.reject && s'.online == s.online
  {
    hide DetermineRate, TakeBucket;
    if k in s.users {
      assert s.online[k := IpsOf(s, k)] == s.online;
      TakeFrame(AddIp(s, k, ip), k, DetermineRate(s.nodeLimit, s.users[k].speed));
    }
  }

  /** Until its window is emptied an admitted address stays in it, and so stays admitted. */
  lemma {:induction false} AdmittedStays(s: Inbound, ops: seq<Op>, k: string, ip: string)
    requires HubIds(s) && ip in IpsOf(s, k)
    requires forall j :: 0 <= j <= |ops| ==> IpsOf(Exec(s, ops[..j]), k) != map[]
    ensures ip in IpsOf(Exec(s, ops), k)
    decreases |ops|
  {
    hide Apply;
    assert ops[..|ops|] == ops;
    if ops != [] {
      var prefix := ops[..|ops| - 1];
      forall j | 0 <= j <= |prefix| ensures IpsOf(Exec(s, prefix[..j]), k) != map[] {
        assert prefix[..j] == ops[..j];
      }
      AdmittedStays(s, prefix, k, ip);
      StepWindow(Exec(s, prefix), ops[|ops| - 1], k);
    }
  }

  ghost function Exec(s: Inbound, ops: seq<Op>): (s': Inbound)
    requires HubIds(s)
    ensures HubIds(s')
    decreases |ops|
  {
    if ops == [] then s else Apply(Exec(s, ops[..|ops| - 1]), ops[|ops| - 1])
  }

  /******* Exactly the limit *******/

  /**
   What a connection is answered, from limits and window alone: a known user is rejected if and only if the address is
   new and a positive device limit is used up, and otherwise it is rate-limited, with a bucket, if and only if a rate is
   set. Whoever is let in is in the window afterwards; whoever is not leaves it as it was.
   */
  lemma ConnectMeans(s: Inbound, k: string, ip: string)
    ensures var (s', decision) := Connect(s, k, ip); var window := IpsOf(s, k);
      && (k !in s.users ==> s' == s && decision == Decision(None, false, false))
      && (k in s.users ==>
        && (decision.reject <==> ip !in window && 0 < s.users[k].devices <= |window|)
        && (decision.reject ==> s' == s && decision.bucket.None? && !decision.limited)
        && (!decision.reject ==>
          && (decision.bucket.Some? <==> decision.limited)
          && (decision.limited <==> DetermineRate(s.nodeLimit, s.users[k].speed) > 0)
          && s'.users == s.users && ip in IpsOf(s', k)
          && IpsOf(s', k) == (if ip in window then window else window[ip := s.users[k].uid])
          && forall other :: other != k ==> IpsOf(s', other) == IpsOf(s, other)))
  {
  }

  function OpenSteps(k: string, ips: seq<string>): seq<Op> {
    seq(|ips|, i requires 0 <= i < |ips| => Open(k, ips[i]))
  }

  predicate AllDistinct(ips: seq<string>) {
    forall i, j :: 0 <= i < j < |ips| ==> ips[i] != ips[j]
  }

  lemma OpenNext(s: Inbound, k: string, ips: seq<string>, n: nat)
    requires HubIds(s) && n <= |ips|
    ensures Exec(s, OpenSteps(k, ips)[..n])
         == if n == 0 then s else Connect(Exec(s, OpenSteps(k, ips)[..n - 1]), k, ips[n - 1]).0
  {
    hide Connect;
    if n > 0 {
      assert OpenSteps(k, ips)[..n][..n - 1] == OpenSteps(k, ips)[..n - 1];
    }
  }

  lemma {:induction false} FillWindow(s: Inbound, k: string, ips: seq<string>, n: nat)
    requires HubIds(s) && k in s.users && IpsOf(s, k) == map[] && AllDistinct(ips)
    requires n <= |ips| && (s.users[k].devices > 0 ==> n <= s.users[k].devices)
    ensures var t := Exec(s, OpenSteps(k, ips)[..n]);
      && t.users == s.users
      && (forall x :: x in IpsOf(t, k) <==> x in ips[..n])
      && |IpsOf(t, k)| == n
  {
    hide Connect, Exec;
    var steps := OpenSteps(k, ips);
    OpenNext(s, k, ips, n);
    if n > 0 {
      FillWindow(s, k, ips, n - 1);
      assert ips[..n] == ips[..n - 1] + [ips[n - 1]];
      assert ips[n - 1] !in ips[..n - 1];
      var t := Exec(s, steps[..n - 1]);
      ConnectMeans(t, k, ips[n - 1]);
    }
  }

  /** From an empty window, just as many distinct addresses as the device limit allows are let in, and no more. */
  lemma ExactlyTheLimit(s: Inbound, k: string, ips: seq<string>, extra: string)
    requires HubIds(s) && k in s.users && IpsOf(s, k) == map[]
    requires AllDistinct(ips + [extra]) && |ips| == s.users[k].devices > 0
    ensures forall i :: 0 <= i < |ips| ==> !Connect(Exec(s, OpenSteps(k, ips)[..i]), k, ips[i]).1.reject
    ensures Connect(Exec(s, OpenSteps(k, ips)), k, extra).1.reject
  {
    hide Connect, Exec;
    var all := ips + [extra];
    assert AllDistinct(ips) by {
      assert forall i :: 0 <= i < |ips| ==> ips[i] == all[i];
    }
    forall i | 0 <= i < |ips|
      ensures !Connect(Exec(s, OpenSteps(k, ips)[..i]), k, ips[i]).1.reject
    {
      FillWindow(s, k, ips, i);
      ConnectMeans(Exec(s, OpenSteps(k, ips)[..i]), k, ips[i]);
    }
    FillWindow(s, k, ips, |ips|);
    assert OpenSteps(k, ips)[..|ips|] == OpenSteps(k, ips) && ips[..|ips|] == ips;
    assert extra !in ips by {
      assert forall i :: 0 <= i < |ips| ==> all[i] == ips[i] && all[i] != all[|ips|];
    }
    ConnectMeans(Exec(s, OpenSteps(k, ips)), k, extra);
  }

  /** The limits in force are those of the panel's record: after an update it is its device limit that decides. */
  lemma RecordDecides(s: Inbound, u: UserInfo, ip: string)
    requires HubIds(s)
    ensures var k := KeyFor(s.tag, u); var t := UpdateUser(s, u);
      && IpsOf(t, k) == IpsOf(s, k)
      && (Connect(t, k, ip).1.reject <==> ip !in IpsOf(s, k) && 0 < u.deviceLimit <= |IpsOf(s, k)|)
      && (!Connect(t, k, ip).1.reject ==>
        (Connect(t, k, ip).1.limited <==> s.nodeLimit > 0 || u.speedLimit > 0))
  {
    hide Connect, KeyFor;
    ConnectMeans(UpdateUser(s, u), KeyFor(s.tag, u), ip);
  }

  /** A user in a freshly built limiter has the limits of its own record. */
  lemma {:induction false} BuiltFromRecord(tag: string, nodeLimit: uint64, list: seq<UserInfo>, u: UserInfo)
    requires u in list && forall v :: v in list && v.uid == u.uid ==> v == u
    ensures var s := Build(tag, nodeLimit, list); var k := KeyFor(tag, u);
      k in s.users && s.users[k].uid == u.uid && s.users[k].speed == u.speedLimit && s.users[k].devices == u.deviceLimit
    decreases |list|
  {
    hide KeyFor;
    var prefix, last := list[..|list| - 1], list[|list| - 1];
    assert list == prefix + [last];
    if KeyFor(tag, last) == KeyFor(tag, u) {
      SameUser(tag, last, u);
    } else {
      BuiltFromRecord(tag, nodeLimit, prefix, u);
    }
  }

  lemma SameUser(tag: string, u: UserInfo, v: UserInfo)
    requires KeyFor(tag, u) == KeyFor(tag, v)
    ensures u.uid == v.uid
  {
    KeyInjective(tag, u.email, u.uid, v.email, v.uid);
  }

  function DropSteps(keys: seq<string>): seq<Op> {
    seq(|keys|, i requires 0 <= i < |keys| => DropBucket(keys[i]))
  }

  function CloseSteps(keys: seq<string>): seq<Op> {
    seq(|keys|, i requires 0 <= i < |keys| => CloseWindow(keys[i]))
  }

  lemma {:induction false} DropRun(s: Inbound, keys: seq<string>, n: nat)
    requires HubIds(s) && n <= |keys|
    ensures Exec(s, DropSteps(keys)[..n])
         == s.(hub := map k | k in s.hub && (k in s.online || k !in keys[..n]) :: s.hub[k])
  {
    hide Connect, UpdateAll, DeleteAll;
    var steps := DropSteps(keys);
    if n > 0 {
      DropRun(s, keys, n - 1);
      assert steps[..n][..n - 1] == steps[..n - 1];
      assert keys[..n] == keys[..n - 1] + [keys[n - 1]];
    }
  }

  lemma {:induction false} CloseRun(s: Inbound, keys: seq<string>, n: nat)
    requires HubIds(s) && n <= |keys|
    ensures Exec(s, CloseSteps(keys)[..n]) == s.(online := map k | k in s.online && k !in keys[..n] :: s.online[k])
  {
    hide Connect, UpdateAll, DeleteAll;
    var steps := CloseSteps(keys);
    if n > 0 {
      CloseRun(s, keys, n - 1);
      assert steps[..n][..n - 1] == steps[..n - 1];
      assert keys[..n] == keys[..n - 1] + [keys[n - 1]];
    }
  }

  /** Undisturbed, the two sweeps over all users, key by key and in any order, amount to the one step of a report. */
  lemma SweepsAreOnline(s: Inbound, buckets: seq<string>, windows: seq<string>)
    requires HubIds(s) && (forall k :: k in s.hub ==> k in buckets) && (forall k :: k in s.online ==> k in windows)
    ensures HubIds(Exec(s, DropSteps(buckets)))
    ensures Exec(Exec(s, DropSteps(buckets)), CloseSteps(windows)) == Apply(s, Online)
  {
    DropRun(s, buckets, |buckets|);
    assert DropSteps(buckets)[..|buckets|] == DropSteps(buckets) && buckets[..|buckets|] == buckets;
    var t := Exec(s, DropSteps(buckets));
    CloseRun(t, windows, |windows|);
    assert CloseSteps(windows)[..|windows|] == CloseSteps(windows) && windows[..|windows|] == windows;
  }

  /**
   The counting loop stops at the limit, in whatever order it visits the addresses, and still decides exactly as
   the full size of the window would.
   */
  method CountUpTo(ips: map<string, int64>, limit: int) returns (counter: nat)
    requires limit > 0
    ensures counter == if |ips| < limit then |ips| else limit
  {
    counter := 0;
    var rest := ips.Keys;
    while rest != {}
      invariant counter + |rest| == |ips.Keys| && counter < limit
      decreases |rest|
    {
      var ip :| ip in rest;
      rest := rest - {ip};
      counter := counter + 1;
      if counter >= limit {
        return;
      }
    }
  }
}
