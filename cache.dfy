/** The server's process-wide response cache (`middleware/cache.middleware.js`):
    a map from the request's `originalUrl` to the JSON payload last sent for
    it and the time it was stored. The clock is a parameter `now`
    (milliseconds, as `Date.now()` gives); the payload type is left open. */
module ResponseCache {
  import opened Common

  /** The default freshness window, five minutes in milliseconds. */
  const CACHE_DURATION: nat := 5 * 60 * 1000

  /** The size above which storing a response triggers a sweep: 200 entries
      in production, 100 otherwise. */
  function MaxCacheSize(production: bool): nat {
    if production then 200 else 100
  }

  datatype Entry<D> = Entry(data: D, timestamp: int)

  type CacheMap<D> = map<string, Entry<D>>

  /** The hit test: the entry's age is strictly below the route's duration. */
  predicate IsFresh<D>(e: Entry<D>, now: int, duration: int) {
    now - e.timestamp < duration
  }

  /** The sweep test: the entry's age is strictly above the route's duration. */
  predicate IsExpired<D>(e: Entry<D>, now: int, duration: int) {
    now - e.timestamp > duration
  }

  /** What a GET for `url` is answered with from the cache, if anything. */
  function CachedAt<D>(m: CacheMap<D>, url: string, now: int, duration: int): (r: Option<D>)
    ensures r.Some? <==> url in m && IsFresh(m[url], now, duration)
    ensures r.Some? ==> r.value == m[url].data
  {
    if url in m && IsFresh(m[url], now, duration) then Some(m[url].data) else None
  }

  /** The map the clean-up loop leaves: every expired entry removed, every
      other entry kept as it was. */
  function Swept<D>(m: CacheMap<D>, now: int, duration: int): (r: CacheMap<D>)
    ensures forall k :: k in r <==> k in m && !IsExpired(m[k], now, duration)
    ensures forall k :: k in r ==> r[k] == m[k]
  {
    map k | k in m && !IsExpired(m[k], now, duration) :: m[k]
  }

  /** The map `clearEventCache` leaves: every key containing `/events` removed. */
  function Purged<D>(m: CacheMap<D>): (r: CacheMap<D>)
    ensures forall k :: k in r <==> k in m && !Includes(k, "/events")
    ensures forall k :: k in r ==> r[k] == m[k]
  {
    map k | k in m && !Includes(k, "/events") :: m[k]
  }

  /** The effect of the wrapped `res.json`: a 200 response is stored under
      its key with the current time; then, if the map is over the cap, the
      expired entries are swept, whatever the status was. */
  function AfterJson<D>(m: CacheMap<D>, key: string, status: int, data: D, now: int,
                        duration: int, maxSize: nat): CacheMap<D>
  {
    var stored := if status == 200 then m[key := Entry(data, now)] else m;
    if |stored| > maxSize then Swept(stored, now, duration) else stored
  }

  /** What the middleware does with a request before the route handler. */
  datatype Decision<D> =
    | PassThrough   // not a GET: `next()` with the cache untouched
    | Hit(data: D)  // answered from the cache; the handler is not called
    | Miss          // `next()` with `res.json` wrapped to store the reply

  /** What the route handler does: reply through `res.json`, or raise an error
      that Express answers without `res.json`. */
  datatype HandlerResult<D> = JsonReply(status: int, data: D) | Raised(errorStatus: int)

  /** What the client receives, with the `X-Cache` header when one is set. */
  datatype Reply<D> = Reply(status: int, body: Option<D>, xCache: Option<string>)

  class Cache<D> {
    var entries: CacheMap<D>
    const maxSize: nat

    /** The module-level `new Map()`, with the cap fixed by the environment. */
    constructor (production: bool)
      ensures entries == map[] && maxSize == MaxCacheSize(production)
    {
      entries := map[];
      maxSize := MaxCacheSize(production);
    }

    /** The middleware's test before the handler runs. It reads the map and
        changes nothing. */
    method Lookup(httpMethod: string, url: string, duration: int, now: int) returns (d: Decision<D>)
      ensures httpMethod != "GET" ==> d == PassThrough
      ensures httpMethod == "GET" ==> (d.Hit? <==> CachedAt(entries, url, now, duration).Some?)
      ensures d.Hit? ==> d.data == entries[url].data && IsFresh(entries[url], now, duration)
      ensures httpMethod == "GET" && !d.Hit? ==> d == Miss
    {
      if httpMethod != "GET" {
        return PassThrough;
      }
      if url in entries {
        var cached := entries[url];
        if now - cached.timestamp < duration {
          return Hit(cached.data);
        }
      }
      return Miss;
    }

    /** The wrapped `res.json`: store a 200 reply, then sweep when over the
        cap. `cleaned` is the number of entries the sweep deleted. */
    method Json(key: string, status: int, data: D, duration: int, now: int) returns (cleaned: nat)
      modifies this
      ensures entries == AfterJson(old(entries), key, status, data, now, duration, maxSize)
      ensures var stored := if status == 200 then old(entries)[key := Entry(data, now)] else old(entries);
        cleaned == |stored| - |entries|
    {
      if status == 200 {
        entries := entries[key := Entry(data, now)];
      }
      cleaned := 0;
      if |entries| > maxSize {
        ghost var start := entries;
        var pending := entries.Keys;
        while pending != {}
          invariant pending <= start.Keys
          invariant entries == map k | k in start && (k in pending || !IsExpired(start[k], now, duration)) :: start[k]
          invariant cleaned + |entries| == |start|
          decreases pending
        {
          var k :| k in pending;
          if now - entries[k].timestamp > duration {
            RemoveOne(entries, k);
            entries := map j | j in entries && j != k :: entries[j];
            cleaned := cleaned + 1;
          }
          pending := pending - {k};
        }
        assert entries == Swept(start, now, duration);
      }
    }

    /** One GET or non-GET request through the middleware and the handler. */
    method Serve(httpMethod: string, url: string, duration: int, now: int, handler: HandlerResult<D>)
      returns (reply: Reply<D>, handlerCalled: bool)
      modifies this
      ensures httpMethod != "GET" ==> handlerCalled && entries == old(entries)
      ensures httpMethod == "GET" && CachedAt(old(entries), url, now, duration).Some? ==>
        !handlerCalled && entries == old(entries)
        && reply == Reply(200, Some(old(entries)[url].data), Some("HIT"))
      ensures httpMethod == "GET" && CachedAt(old(entries), url, now, duration).None? && handler.JsonReply? ==>
        handlerCalled && reply == Reply(handler.status, Some(handler.data), Some("MISS"))
        && entries == AfterJson(old(entries), url, handler.status, handler.data, now, duration, maxSize)
      ensures handler.Raised? && !(httpMethod == "GET" && CachedAt(old(entries), url, now, duration).Some?) ==>
        reply == Reply(handler.errorStatus, None, None) && entries == old(entries)
      ensures httpMethod != "GET" && handler.JsonReply? ==> reply == Reply(handler.status, Some(handler.data), None)
    {
      var d := Lookup(httpMethod, url, duration, now);
      match d
      case Hit(data) =>
        reply, handlerCalled := Reply(200, Some(data), Some("HIT")), false;
      case PassThrough =>
        handlerCalled := true;
        reply := match handler
          case JsonReply(status, data) => Reply(status, Some(data), None)
          case Raised(status) => Reply(status, None, None);
      case Miss =>
        handlerCalled := true;
        match handler
        case JsonReply(status, data) =>
          var _ := Json(url, status, data, duration, now);
          reply := Reply(status, Some(data), Some("MISS"));
        case Raised(status) =>
          reply := Reply(status, None, None);
    }

    /** `clearEventCache`: delete every key containing `/events`. */
    method ClearEventCache()
      modifies this
      ensures entries == Purged(old(entries))
    {
      ghost var start := entries;
      var pending := entries.Keys;
      while pending != {}
        invariant pending <= start.Keys
        invariant entries == map k | k in start && (k in pending || !Includes(k, "/events")) :: start[k]
        decreases pending
      {
        var k :| k in pending;
        if Includes(k, "/events") {
          entries := map j | j in entries && j != k :: entries[j];
        }
        pending := pending - {k};
      }
      assert entries == Purged(start);
    }
  }

  /** Deleting a present key shrinks the map by one. */
  lemma RemoveOne<D>(m: CacheMap<D>, k: string)
    requires k in m
    ensures |map j | j in m && j != k :: m[j]| == |m| - 1
  {
    var r := map j | j in m && j != k :: m[j];
    assert r.Keys == m.Keys - {k};
  }

  // ---------------------------------------------------------------------------
  // Properties of the cache's rules
  // ---------------------------------------------------------------------------

  /** A 200 reply stored at `now` answers every GET for its key while its age
      is below the duration, even when storing it triggered a sweep. */
  lemma StoredThenHit<D>(m: CacheMap<D>, key: string, data: D, now: int, later: int,
                         duration: int, maxSize: nat)
    requires now <= later < now + duration
    ensures CachedAt(AfterJson(m, key, 200, data, now, duration, maxSize), key, later, duration) == Some(data)
  {
  }

  /** A reply that is not 200 changes nothing while the map is within the cap. */
  lemma NonOkWithinCapUnchanged<D>(m: CacheMap<D>, key: string, status: int, data: D,
                                   now: int, duration: int, maxSize: nat)
    requires status != 200 && |m| <= maxSize
    ensures AfterJson(m, key, status, data, now, duration, maxSize) == m
  {
  }

  /** But over the cap, a reply that is not 200 still sweeps: the absence of an
      insert does not mean the map is unchanged. */
  lemma NonOkOverCapSweeps<D>(m: CacheMap<D>, key: string, status: int, data: D,
                              now: int, duration: int, maxSize: nat)
    requires status != 200 && |m| > maxSize
    ensures AfterJson(m, key, status, data, now, duration, maxSize) == Swept(m, now, duration)
  {
  }

  /** The sweep never removes an entry that is not expired; when none is, the
      map stays as it is, above the cap. */
  lemma SweepKeepsUnexpired<D>(m: CacheMap<D>, now: int, duration: int)
    requires forall k :: k in m ==> !IsExpired(m[k], now, duration)
    ensures Swept(m, now, duration) == m
  {
  }

  /** An entry whose age is exactly the duration is neither served nor swept. */
  lemma BoundaryAge<D>(m: CacheMap<D>, url: string, now: int, duration: int)
    requires url in m && now - m[url].timestamp == duration
    ensures CachedAt(m, url, now, duration) == None
    ensures url in Swept(m, now, duration)
  {
  }

  /** Purging twice is purging once. */
  lemma PurgeIdempotent<D>(m: CacheMap<D>)
    ensures Purged(Purged(m)) == Purged(m)
  {
  }

  /** After a purge no GET for an events URL is answered from the cache. */
  lemma PurgeMissesEvents<D>(m: CacheMap<D>, url: string, now: int, duration: int)
    requires Includes(url, "/events")
    ensures CachedAt(Purged(m), url, now, duration) == None
  {
  }
}
