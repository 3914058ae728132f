/** The limiter's methods on its table of inbounds. */
module LimiterService {
  import opened Api
  import opened UserKey
  import opened Limiter
  import opened DeviceLimit
  import GlobalDevices

  class Service {
    var inbounds: map<string, Inbound>
    // the shared reservations of the inbounds that have them enabled
    var caches: map<string, GlobalDevices.LayeredCache>

    ghost predicate Valid()
      reads this
    {
      forall tag :: tag in inbounds ==> Inv(inbounds[tag]) && inbounds[tag].tag == tag
    }

    constructor ()
      ensures Valid() && inbounds == map[] && caches == map[]
    {
      inbounds := map[];
      caches := map[];
    }

    ghost function CacheOf(tag: string): set<object>
      reads this
    {
      if tag in caches then {caches[tag]} else {}
    }

    /**
     Replaces whatever the tag had by a limiter built from the list, with an empty cache of its own if shared
     reservations are enabled; the cache it replaces is closed.
     */
    method AddInboundLimiter(tag: string, nodeLimit: uint64, list: seq<UserInfo>, global: Option<int>)
      requires Valid()
      modifies this, CacheOf(tag)
      ensures Valid()
      ensures inbounds == old(inbounds)[tag := Build(tag, nodeLimit, list)]
      ensures if global.Some? then tag in caches && caches == old(caches)[tag := caches[tag]]
              else caches == old(caches) - {tag}
      ensures global.Some? ==>
        fresh(caches[tag]) && caches[tag].local == map[] && caches[tag].localExpiry == global.value
      ensures tag in old(caches) ==> old(caches[tag]).local == map[]
    {
      var users: map<string, UserLimit> := map[];
      for n := 0 to |list|
        invariant users == UserMap(tag, list[..n])
      {
        assert list[..n + 1][..n] == list[..n];
        users := users[KeyFor(tag, list[n]) := LimitOf(list[n])];
      }
      assert list[..|list|] == list;
      BuildInv(tag, nodeLimit, list);
      inbounds := inbounds[tag := Inbound(tag, nodeLimit, users, map[], [], map[])];
      if tag in caches {
        caches[tag].Close();
      }
      if global.Some? {
        var cache := new GlobalDevices.LayeredCache(global.value);
        caches := caches[tag := cache];
      } else {
        caches := caches - {tag};
      }
    }

    method UpdateInboundLimiter(tag: string, list: seq<UserInfo>) returns (ok: bool)
      requires Valid()
      modifies this`inbounds
      ensures Valid()
      ensures ok == (tag in old(inbounds))
      ensures ok ==> HubIds(old(inbounds)[tag]) && inbounds == old(inbounds)[tag := UpdateAll(old(inbounds)[tag], list)]
      ensures !ok ==> inbounds == old(inbounds)
    {
      hide UsersOk, OnlineOk, KeyFor;
      if tag !in inbounds {
        return false;
      }
      var s := inbounds[tag];
      ghost var s0 := s;
      for n := 0 to |list|
        invariant inbounds == old(inbounds)
        invariant s == UpdateAll(s0, list[..n]) && s.tag == tag && Inv(s)
      {
        assert list[..n + 1][..n] == list[..n];
        UpdateUserInv(s, list[n]);
        s := UpdateOne(s, list[n]);
      }
      assert list[..|list|] == list;
      inbounds := inbounds[tag := s];
      return true;
    }

    method DeleteInboundLimiterUsers(tag: string, list: seq<UserInfo>) returns (ok: bool)
      requires Valid()
      modifies this`inbounds
      ensures Valid()
      ensures ok == (tag in old(inbounds))
      ensures ok ==> inbounds == old(inbounds)[tag := DeleteAll(old(inbounds)[tag], list)]
      ensures !ok ==> inbounds == old(inbounds)
    {
      hide UsersOk, OnlineOk, HubOk, KeyFor;
      if tag !in inbounds {
        return false;
      }
      var s := inbounds[tag];
      ghost var s0 := s;
      for n := 0 to |list|
        invariant inbounds == old(inbounds)
        invariant s == DeleteAll(s0, list[..n]) && s.tag == tag && Inv(s)
      {
        assert list[..n + 1][..n] == list[..n];
        DeleteUserInv(s, list[n]);
        var k := KeyFor(tag, list[n]);
        s := s.(users := s.users - {k}, hub := s.hub - {k}, online := s.online - {k});
      }
      assert list[..|list|] == list;
      inbounds := inbounds[tag := s];
      return true;
    }

    method DeleteInboundLimiter(tag: string)
      requires Valid()
      modifies this, CacheOf(tag)
      ensures Valid() && inbounds == old(inbounds) - {tag} && caches == old(caches) - {tag}
      ensures tag in old(caches) ==> old(caches[tag]).local == map[]
    {
      inbounds := inbounds - {tag};
      if tag in caches {
        caches[tag].Close();
      }
      caches := caches - {tag};
    }

    /** Reports every address of every window exactly once, with the UID of its key, and opens a new window. */
    method GetOnlineDevice(tag: string) returns (report: Option<seq<OnlineUser>>)
      requires Valid()
      modifies this`inbounds
      ensures Valid()
      ensures report.Some? <==> tag in old(inbounds)
      ensures report.Some? ==>
        && inbounds == old(inbounds)[tag := ResetWindow(old(inbounds)[tag])]
        && var online := old(inbounds)[tag].online;
           forall r :: multiset(report.value)[r] == |Holding(online, online.Keys, r)|
      ensures report.None? ==> inbounds == old(inbounds)
    {
      hide UsersOk, OnlineOk, HubOk;
      if tag !in inbounds {
        return None;
      }
      var s := inbounds[tag];
      var hub := DropIdle(s);
      var list := ListOnline(s.online);
      ResetInv(s);
      inbounds := inbounds[tag := s.(hub := hub, online := map[])];
      report := Some(list);
    }

    /**
     Local limits decide first; a user they let through may still be rejected by the shared reservation under its
     device limit, which records the address. Local state is that of `Connect` either way, and an unknown inbound or
     user limits nothing.
     */
    method GetUserBucket(tag: string, k: string, ip: string, server: GlobalDevices.RedisServer?,
                         wire: GlobalDevices.Wire, now: int)
      returns (decision: Decision)
      requires Valid()
      modifies this`inbounds, CacheOf(tag), server
      ensures Valid()
      ensures tag in old(inbounds) ==>
        var s := old(inbounds)[tag];
        && inbounds == old(inbounds)[tag := Connect(s, k, ip).0]
        && decision == (if Asks(s, k, ip) && tag in caches
                           && old(RejectsGlobally(s, caches[tag], server, wire, now, k, ip))
                        then Decision(None, false, true) else Connect(s, k, ip).1)
      ensures tag in old(inbounds) && tag in caches && Asks(old(inbounds)[tag], k, ip) ==>
        old(inbounds)[tag].tag == tag
        && Reserves(old(inbounds)[tag].users[k], tag, k, ip, now, wire, caches[tag].localExpiry,
                    old(caches[tag].local), caches[tag].local,
                    if server == null then None else Some((old(server.db), server.db)))
      ensures tag !in old(inbounds) || tag !in caches || !Asks(old(inbounds)[tag], k, ip) ==>
        && (tag in caches ==> caches[tag].local == old(caches[tag].local))
        && (server != null ==> server.db == old(server.db))
      ensures tag !in old(inbounds) ==> decision == Decision(None, false, false) && inbounds == old(inbounds)
    {
      hide Connect, GlobalDevices.Reserve, GlobalDevices.ScriptDb, GlobalDevices.LocalIps, GlobalDevices.StoredIps,
        GlobalKey, Inv;
      if tag !in inbounds {
        return Decision(None, false, false);
      }
      var s := inbounds[tag];
      decision := LocalBucket(tag, k, ip);
      if k in s.users && !decision.reject && tag in caches {
        var reject := caches[tag].GlobalLimit(server, wire, now, tag, k, s.users[k].uid, ip, s.users[k].devices);
        if reject {
          decision := Decision(None, false, true);
        }
      }
    }

    /** The local half, under the user's lock: the decision and the new state are those of `Connect`. */
    method LocalBucket(tag: string, k: string, ip: string) returns (decision: Decision)
      requires Valid()
      modifies this`inbounds
      ensures Valid()
      ensures tag in old(inbounds) ==>
        && decision == Connect(old(inbounds)[tag], k, ip).1
        && inbounds == old(inbounds)[tag := Connect(old(inbounds)[tag], k, ip).0]
      ensures tag !in old(inbounds) ==> decision == Decision(None, false, false) && inbounds == old(inbounds)
    {
      hide UsersOk, OnlineOk, HubOk, DetermineRate;
      if tag !in inbounds {
        return Decision(None, false, false);
      }
      var s := inbounds[tag];
      ConnectInv(s, k, ip);
      ConnectTag(s, k, ip);
      if k !in s.users {
        inbounds := inbounds[tag := s];
        return Decision(None, false, false);
      }
      var user := s.users[k];
      var ips := if k in s.online then s.online[k] else map[];
      if ip !in ips {
        var counter := 0;
        if user.devices > 0 {
          counter := CountUpTo(ips, user.devices);
        }
        if user.devices > 0 && counter >= user.devices {
          inbounds := inbounds[tag := s];
          return Decision(None, false, true);
        }
        ips := ips[ip := user.uid];
      }
      s := s.(online := s.online[k := ips]);
      var limit := DetermineRate(s.nodeLimit, user.speed);
      decision := Decision(None, false, false);
      if limit > 0 {
        if k in s.hub {
          decision := Decision(Some(s.hub[k]), true, false);
        } else {
          decision := Decision(Some(|s.buckets|), true, false);
          s := s.(hub := s.hub[k := |s.buckets|], buckets := s.buckets + [NewBucket(limit)]);
        }
      }
      inbounds := inbounds[tag := s];
    }
  }

  /** The shared reservation is asked for known users that the local limits let through. */
  predicate Asks(s: Inbound, k: string, ip: string) {
    k in s.users && !Connect(s, k, ip).1.reject
  }

  /** What the reservation leaves behind, in Redis or, without a server, in the local map. */
  ghost predicate Reserves(user: UserLimit, tag: string, k: string, ip: string, now: int, wire: GlobalDevices.Wire,
                           expiry: int, local: GlobalDevices.Local, local': GlobalDevices.Local,
                           db: Option<(GlobalDevices.Db, GlobalDevices.Db)>)
  {
    var key := GlobalKey(k, tag, user.devices);
    match db
    case None =>
      GlobalDevices.LocalIps(local', now, key)
      == GlobalDevices.Reserve(GlobalDevices.LocalIps(local, now, key), ip, user.uid, user.devices).1
    case Some((before, after)) =>
      after == if wire.Unreachable? then before
               else GlobalDevices.ScriptDb(before, now, key, ip, user.uid, user.devices, expiry)
  }

  /** A decision of the server, or of the local map without one, that the device limit is used up. */
  ghost predicate RejectsGlobally(s: Inbound, cache: GlobalDevices.LayeredCache, server: GlobalDevices.RedisServer?,
                                  wire: GlobalDevices.Wire, now: int, k: string, ip: string)
    requires k in s.users
    reads cache, server
  {
    var user := s.users[k];
    var key := GlobalKey(k, s.tag, user.devices);
    if server == null then
      !GlobalDevices.Reserve(GlobalDevices.LocalIps(cache.local, now, key), ip, user.uid, user.devices).0
    else
      wire.Works? && !GlobalDevices.Reserve(GlobalDevices.StoredIps(server.db, now, key), ip, user.uid, user.devices).0
  }

  lemma ConnectTag(s: Inbound, k: string, ip: string)
    ensures Connect(s, k, ip).0.tag == s.tag
  {
  }

  method UpdateOne(s: Inbound, u: UserInfo) returns (s': Inbound)
    requires Inv(s)
    ensures s' == UpdateUser(s, u)
  {
    hide UsersOk, OnlineOk, KeyFor;
    var k := KeyFor(s.tag, u);
    s' := s.(users := s.users[k := LimitOf(u)]);
    var limit := DetermineRate(s.nodeLimit, u.speedLimit);
    if limit > 0 {
      if k in s.hub {
        s' := s'.(buckets := s'.buckets[s.hub[k] := NewBucket(limit)]);
      }
    } else {
      s' := s'.(hub := s'.hub - {k});
    }
  }

  /** The hub without the users that have no window. */
  method DropIdle(s: Inbound) returns (hub: map<string, nat>)
    ensures hub == ResetWindow(s).hub
  {
    hub := s.hub;
    var rest := s.hub.Keys;
    while rest != {}
      invariant rest <= s.hub.Keys
      invariant forall k :: k in hub <==> k in s.hub && (k in rest || k in s.online)
      invariant forall k :: k in hub ==> hub[k] == s.hub[k]
      decreases |rest|
    {
      var k :| k in rest;
      rest := rest - {k};
      if k !in s.online {
        hub := hub - {k};
      }
    }
  }

  /** The windows among `keys` that hold an address for a UID. */
  function Holding(online: map<string, map<string, int64>>, keys: set<string>, r: OnlineUser): set<string> {
    set k | k in keys && k in online && r.ip in online[k] && online[k][r.ip] == r.uid
  }

  lemma HoldingMore(online: map<string, map<string, int64>>, keys: set<string>, k: string, r: OnlineUser)
    requires k in online && k !in keys
    ensures |Holding(online, keys + {k}, r)|
         == |Holding(online, keys, r)| + if r.ip in online[k] && online[k][r.ip] == r.uid then 1 else 0
  {
    var before, after := Holding(online, keys, r), Holding(online, keys + {k}, r);
    if r.ip in online[k] && online[k][r.ip] == r.uid {
      assert after == before + {k};
    } else {
      assert after == before;
    }
  }

  /** All addresses of one window, each once. */
  method ListWindow(ips: map<string, int64>) returns (list: seq<OnlineUser>)
    ensures forall r :: multiset(list)[r] == if r.ip in ips && ips[r.ip] == r.uid then 1 else 0
  {
    list := [];
    var rest := ips.Keys;
    while rest != {}
      invariant rest <= ips.Keys
      invariant forall r :: multiset(list)[r] == if r.ip in ips && r.ip !in rest && ips[r.ip] == r.uid then 1 else 0
      decreases |rest|
    {
      var ip :| ip in rest;
      rest := rest - {ip};
      list := list + [OnlineUser(ips[ip], ip)];
    }
  }

  /** Each record appears once for every window that holds its address. */
  method ListOnline(online: map<string, map<string, int64>>) returns (list: seq<OnlineUser>)
    ensures forall r :: multiset(list)[r] == |Holding(online, online.Keys, r)|
  {
    list := [];
    var done: set<string> := {};
    while done != online.Keys
      invariant done <= online.Keys
      invariant forall r :: multiset(list)[r] == |Holding(online, done, r)|
      decreases |online.Keys - done|
    {
      var k :| k in online.Keys - done;
      var window := ListWindow(online[k]);
      forall r ensures multiset(list + window)[r] == |Holding(online, done + {k}, r)| {
        HoldingMore(online, done, k, r);
      }
      list := list + window;
      assert online.Keys - (done + {k}) == online.Keys - done - {k};
      done := done + {k};
    }
  }
}
