/** Device addresses reserved across processes through one Redis value per shared key. */
module GlobalDevices {
  import opened Api
  import opened UserKey

  type Ips = map<string, int64>

  /** The one specification: a known address is accepted, a new one while the limit has room. */
  function Reserve(ips: Ips, ip: string, uid: int64, limit: int): (r: (bool, Ips))
  {
    if ip in ips then (true, ips)
    else if limit > 0 && |ips| >= limit then (false, ips)
    else (true, ips[ip := uid])
  }

  /** A reservation only grows the map, holds the address when it accepts, and keeps to a positive limit. */
  lemma ReserveMeans(ips: Ips, ip: string, uid: int64, limit: int)
    ensures var (accepted, after) := Reserve(ips, ip, uid, limit);
      && (accepted <==> ip in after)
      && (forall x :: x in after ==> x in ips || x == ip)
      && (accepted && ip !in ips ==> after[ip] == uid)
      && (forall x :: x in ips ==> x in after && after[x] == ips[x])
      && (limit > 0 && |ips| <= limit ==> |after| <= limit)
      && (!accepted <==> ip !in ips && limit > 0 && |ips| >= limit)
  {
    if ip !in ips {
      assert |ips[ip := uid]| == |ips| + 1;
    }
  }

  /******* Redis *******/

  /** A stored address map and the moment it expires, if any. */
  datatype Value = Value(ips: Ips, expiresAt: Option<int>)

  type Db = map<string, Value>

  predicate Present(db: Db, now: int, key: string) {
    key in db && (db[key].expiresAt.Some? ==> now < db[key].expiresAt.value)
  }

  function StoredIps(db: Db, now: int, key: string): Ips {
    if Present(db, now, key) then db[key].ips else map[]
  }

  function ExpiryFrom(now: int, expiry: int, otherwise: Option<int>): Option<int> {
    if expiry > 0 then Some(now + expiry) else otherwise
  }

  /** The script's effect on the database; a refusal writes nothing and does not extend the expiry. */
  function ScriptDb(db: Db, now: int, key: string, ip: string, uid: int64, limit: int, expiry: int): Db {
    var ips := StoredIps(db, now, key);
    var (accepted, after) := Reserve(ips, ip, uid, limit);
    if !accepted then db
    else if ip in ips then db[key := db[key].(expiresAt := ExpiryFrom(now, expiry, db[key].expiresAt))]
    else db[key := Value(after, ExpiryFrom(now, expiry, None))]
  }

  /**
   When the stored map runs out, by the clock alone. An accepted call with an expiry restarts it: the key is there for
   just so long. A new address without an expiry makes the key permanent, and a known one leaves its time as it was. A
   refusal changes nothing, and no call touches another key.
   */
  lemma ScriptExpiry(db: Db, now: int, key: string, ip: string, uid: int64, limit: int, expiry: int, t: int)
    requires now <= t
    ensures var ips := StoredIps(db, now, key);
      var accepted := ip in ips || limit <= 0 || |ips| < limit;
      var db' := ScriptDb(db, now, key, ip, uid, limit, expiry);
      && (!accepted ==> db' == db)
      && (accepted ==> key in db' && db'[key].ips == (if ip in ips then ips else ips[ip := uid]))
      && (accepted && expiry > 0 ==> (Present(db', t, key) <==> t < now + expiry))
      && (accepted && expiry <= 0 && ip !in ips ==> Present(db', t, key))
      && (accepted && expiry <= 0 && ip in ips ==> (Present(db', t, key) <==> Present(db, t, key)))
      && forall other :: other != key ==>
        && (Present(db', t, other) <==> Present(db, t, other))
        && (other in db' <==> other in db) && (other in db ==> db'[other] == db[other])
  {
  }

  class RedisServer {
    var db: Db

    /** The reservation script, run atomically by the server. */
    method ReserveScript(now: int, key: string, ip: string, uid: int64, limit: int, expiry: int)
      returns (status: int, ips: Ips)
      modifies this`db
      ensures db == ScriptDb(old(db), now, key, ip, uid, limit, expiry)
      ensures (status == 1, ips) == Reserve(StoredIps(old(db), now, key), ip, uid, limit)
      ensures status == 0 || status == 1
    {
      ips := if Present(db, now, key) then db[key].ips else map[];
      if ip !in ips {
        var count := 0;
        var rest := ips.Keys;
        while rest != {}
          invariant count + |rest| == |ips.Keys|
          decreases |rest|
        {
          var x :| x in rest;
          rest := rest - {x};
          count := count + 1;
        }
        if limit > 0 && count >= limit {
          return 0, ips;
        }
        ips := ips[ip := uid];
        db := Store(db, key, ips);
      }
      if expiry > 0 {
        db := db[key := db[key].(expiresAt := Some(now + expiry))];
      }
      status := 1;
    }
  }

  /** A Redis `SET` drops any expiry the key had. */
  function Store(db: Db, key: string, ips: Ips): Db {
    db[key := Value(ips, None)]
  }

  /******* The process-local cache *******/

  type Local = map<string, Value>

  /** Expired only strictly after the stored moment. */
  predicate Live(local: Local, now: int, key: string) {
    key in local && (local[key].expiresAt.Some? ==> now <= local[key].expiresAt.value)
  }

  function LocalIps(local: Local, now: int, key: string): Ips {
    if Live(local, now, key) then local[key].ips else map[]
  }

  class LayeredCache {
    var local: Local
    var localWrites: nat
    const localExpiry: int

    constructor (localExpiry: int)
      ensures local == map[] && this.localExpiry == localExpiry
    {
      local := map[];
      localWrites := 0;
      this.localExpiry := localExpiry;
    }

    /** Without a Redis client the same decision is taken on the local map. */
    method ReserveLocal(now: int, key: string, ip: string, uid: int64, limit: int) returns (accepted: bool)
      modifies this`local
      ensures (accepted, LocalIps(local, now, key)) == Reserve(LocalIps(old(local), now, key), ip, uid, limit)
      ensures accepted ==> key in local && local[key].expiresAt == ExpiryFrom(now, localExpiry, None)
      ensures accepted ==> forall t ::
        now <= t ==> (Live(local, t, key) <==> localExpiry <= 0 || t <= now + localExpiry)
      ensures forall k :: k != key ==>
        (k in local <==> k in old(local)) && (k in local && k in old(local) ==> local[k] == old(local)[k])
    {
      var found := key in local;
      if found && local[key].expiresAt.Some? && now > local[key].expiresAt.value {
        local := local - {key};
        found := false;
      }
      var values: Ips := map[];
      if found {
        values := local[key].ips;
      }
      if ip !in values {
        if limit > 0 && |values| >= limit {
          return false;
        }
        values := values[ip := uid];
      }
      local := local[key := Value(values, if localExpiry > 0 then Some(now + localExpiry) else None)];
      return true;
    }

    /** An expired entry is dropped on the way; the answer is that of the live view. */
    method GetLocal(now: int, key: string) returns (ips: Option<Ips>)
      modifies this`local
      ensures ips == if Live(old(local), now, key) then Some(old(local)[key].ips) else None
      ensures forall t, k :: now <= t ==> (Live(local, t, k) <==> Live(old(local), t, k))
      ensures forall t, k :: now <= t && Live(local, t, k) ==> k in old(local) && local[k] == old(local)[k]
    {
      if key !in local {
        return None;
      }
      if local[key].expiresAt.Some? && now > local[key].expiresAt.value {
        local := local - {key};
        return None;
      }
      return Some(local[key].ips);
    }

    /** Every 256th write sweeps expired entries; no later reader can tell. */
    method SetLocal(now: int, key: string, ips: Ips, expiry: int)
      modifies this`local, this`localWrites
      ensures forall t, k :: now <= t && k != key ==> (Live(local, t, k) <==> Live(old(local), t, k))
      ensures forall t, k :: now <= t && k != key && Live(local, t, k) ==> k in old(local) && local[k] == old(local)[k]
      ensures Live(local, now, key) && local[key] == Value(ips, ExpiryFrom(now, expiry, None))
    {
      local := local[key := Value(ips, ExpiryFrom(now, expiry, None))];
      localWrites := localWrites + 1;
      if localWrites % 256 == 0 {
        local := Sweep(local, now);
      }
    }

    method DeleteLocal(key: string)
      modifies this`local
      ensures local == old(local) - {key}
    {
      local := local - {key};
    }

    method Close()
      modifies this`local
      ensures local == map[]
    {
      local := map[];
    }

    /** Only an accepted reply is cached, a refusal drops the snapshot, and an error leaves it alone. */
    method ReserveIP(server: RedisServer?, wire: Wire, now: int, key: string, ip: string, uid: int64, limit: int)
      returns (accepted: bool, failed: bool)
      modifies this`local, this`localWrites, server
      ensures failed == (server != null && wire != Works)
      ensures failed ==> !accepted && local == old(local)
      ensures server != null ==>
        server.db == if wire == Unreachable then old(server.db)
                     else ScriptDb(old(server.db), now, key, ip, uid, limit, localExpiry)
      ensures server != null && !failed ==>
        accepted == Reserve(StoredIps(old(server.db), now, key), ip, uid, limit).0
      ensures server == null ==>
        (accepted, LocalIps(local, now, key)) == Reserve(LocalIps(old(local), now, key), ip, uid, limit)
      ensures server != null && accepted ==>
        key in local && key in server.db && local[key].ips == server.db[key].ips && ip in local[key].ips
      ensures server != null && !failed && !accepted ==> key !in local
    {
      if server == null {
        accepted := ReserveLocal(now, key, ip, uid, limit);
        return accepted, false;
      }
      if wire == Unreachable {
        return false, true;
      }
      var status, ips := server.ReserveScript(now, key, ip, uid, limit, localExpiry);
      if wire == ReplyLost {
        return false, true;
      }
      if status == 0 {
        DeleteLocal(key);
        return false, false;
      }
      SetLocal(now, key, ips, localExpiry);
      return true, false;
    }

    /** The data path rejects only on a decision; an error lets the connection through. What is reserved stays. */
    method GlobalLimit(server: RedisServer?, wire: Wire, now: int, tag: string, userKey: string, uid: int64, ip: string,
                       limit: int)
      returns (reject: bool)
      modifies this`local, this`localWrites, server
      ensures server != null ==>
        var ips := StoredIps(old(server.db), now, GlobalKey(userKey, tag, limit));
        reject == (wire == Works && !Reserve(ips, ip, uid, limit).0)
      ensures server != null ==>
        var key := GlobalKey(userKey, tag, limit);
        server.db == if wire == Unreachable then old(server.db)
                     else ScriptDb(old(server.db), now, key, ip, uid, limit, localExpiry)
      ensures server == null ==>
        var key := GlobalKey(userKey, tag, limit);
        (!reject, LocalIps(local, now, key)) == Reserve(LocalIps(old(local), now, key), ip, uid, limit)
    {
      var accepted, failed := ReserveIP(server, wire, now, GlobalKey(userKey, tag, limit), ip, uid, limit);
      return !failed && !accepted;
    }
  }

  /** How far one call to the server gets. */
  datatype Wire = Works | Unreachable | ReplyLost

  method Sweep(local: Local, now: int) returns (swept: Local)
    ensures forall k :: k in swept <==> Live(local, now, k)
    ensures forall k :: k in swept ==> k in local && swept[k] == local[k]
  {
    swept := local;
    var rest := local.Keys;
    while rest != {}
      invariant rest <= local.Keys
      invariant forall k :: k in swept <==> k in local && (k in rest || Live(local, now, k))
      invariant forall k :: k in swept ==> k in local && swept[k] == local[k]
      decreases |rest|
    {
      var k :| k in rest;
      rest := rest - {k};
      if local[k].expiresAt.Some? && now > local[k].expiresAt.value {
        swept := swept - {k};
      }
    }
  }

  /******* The locked get/set path *******/

  datatype Fetch = Found(ips: Ips) | NotFound | Failed

  /** The store as the two cache calls see it; each call may fail. */
  method GetSetReserve(store: Option<Ips>, getFails: bool, setFails: bool, ip: string, uid: int64, limit: int)
    returns (reject: bool, store': Option<Ips>)
    ensures !getFails ==>
      var (accepted, after) := Reserve(if store.Some? then store.value else map[], ip, uid, limit);
      reject == !accepted && (!setFails ==> store' == if accepted then Some(after) else store)
    ensures getFails ==> !reject && store' == store
    ensures setFails ==> store' == store
  {
    store' := store;
    var fetched := if getFails then Failed else if store.Some? then Found(store.value) else NotFound;
    match fetched
    case Failed =>
      return false, store;
    case NotFound =>
      if !setFails {
        store' := Some(map[ip := uid]);
      }
      return false, store';
    case Found(ips) =>
      if ip in ips {
        return false, store;
      }
      if limit > 0 && |ips| >= limit {
        return true, store;
      }
      var updated := CopyIps(ips);
      updated := updated[ip := uid];
      if !setFails {
        store' := Some(updated);
      }
      return false, store';
  }

  method CopyIps(ips: Ips) returns (copy: Ips)
    ensures copy == ips
  {
    copy := map[];
    var rest := ips.Keys;
    while rest != {}
      invariant rest <= ips.Keys
      invariant forall x :: x in copy <==> x in ips && x !in rest
      invariant forall x :: x in copy ==> copy[x] == ips[x]
      decreases |rest|
    {
      var x :| x in rest;
      rest := rest - {x};
      copy := copy[x := ips[x]];
    }
  }
}
