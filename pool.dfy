/**
 * The connection pool: a map from `CacheKey` to `PooledConnection` objects that
 * are connected lazily, shared by reference count, and destroyed when the last
 * reference is released. The close handler registered on each underlying
 * connection removes whatever entry is filed under that entry's key whenever
 * the connection is closed, by the remote side or by the pool's own `destroy`.
 * Shutdown is meant to destroy every entry; as written it destroys none (see
 * ShutdownAsWritten).
 *
 * Each `synchronized` region of the pool, and each `synchronized` method of an
 * entry, is one method call here: the model is sequential and interleavings
 * are sequences of these calls. `getConnection` is three such steps (take a
 * reference, wait for the connection, give the reference back on failure);
 * `AcquireEntry` is the first step on its own, so that other calls can be
 * placed between the steps.
 */
module Pool {
  import opened Wrappers
  import opened JavaInt
  import opened CacheKeys
  import opened EntryModel

  /** `CacheEntryRemovalHandler`: the close handler created for one key. */
  datatype RemovalHandler = RemovalHandler(key: CacheKey)

  /**
   * The parts of a connection creation configuration that the pool reads. The
   * timeout only bounds the wait for the connect future, whose result is an
   * explicit `ConnectOutcome` in this model.
   */
  datatype ConnectionConfiguration = ConnectionConfiguration(
    callbackHandler: Option<CallbackHandler>,
    connectionCreationOptions: Option<OptionMap>,
    connectionTimeout: int)

  /** The key `getConnection` builds from its arguments. */
  function KeyFor(endpoint: Option<Endpoint>, protocol: Option<JavaString>, host: Option<JavaString>,
                  port: Int32, config: ConnectionConfiguration): CacheKey
  {
    CacheKey(endpoint, config.callbackHandler, config.connectionCreationOptions, host, port, protocol)
  }

  /**
   * Two `getConnection` calls file under equal keys exactly when their
   * endpoint, protocol, host, port, callback handler and connection options
   * all agree; the connection timeout plays no part.
   */
  lemma SameKeyIff(endpoint1: Option<Endpoint>, protocol1: Option<JavaString>, host1: Option<JavaString>,
                   port1: Int32, config1: ConnectionConfiguration,
                   endpoint2: Option<Endpoint>, protocol2: Option<JavaString>, host2: Option<JavaString>,
                   port2: Int32, config2: ConnectionConfiguration)
    ensures KeyFor(endpoint1, protocol1, host1, port1, config1)
              .Equals(Some(KeyFor(endpoint2, protocol2, host2, port2, config2)))
            <==> && endpoint1 == endpoint2 && protocol1 == protocol2 && host1 == host2 && port1 == port2
                 && config1.callbackHandler == config2.callbackHandler
                 && config1.connectionCreationOptions == config2.connectionCreationOptions
  {
  }

  lemma MapUpdateSame<K, V>(m: map<K, V>, k: K)
    requires k in m
    ensures m[k := m[k]] == m
  {
  }

  lemma MapUpdateRemove<K, V>(m: map<K, V>, k: K, v: V)
    requires k !in m
    ensures m[k := v] - {k} == m
  {
  }

  /**
   * Destroys every entry of `entries` with the given mode, one after the other
   * (the loop at the end of `shutdown`).
   */
  method DestroyAll(entries: set<PooledConnection>, async: bool)
    modifies entries
    ensures forall e :: e in entries ==> e.State() == EntryModel.Destroy(old(e.State()), async)
  {
    var remaining := entries;
    while remaining != {}
      invariant remaining <= entries
      invariant forall e :: e in entries - remaining ==> e.State() == EntryModel.Destroy(old(e.State()), async)
      invariant forall e :: e in remaining ==> e.State() == old(e.State())
      decreases remaining
    {
      var e :| e in remaining;
      e.Destroy(async);
      remaining := remaining - {e};
    }
  }

  /**
   * `PooledConnection`. The connect arguments it keeps (endpoint, protocol,
   * host, port, options, callback handler) are the fields of its key and are
   * read from there.
   */
  class PooledConnection {
    const pool: ConnectionPool
    const cacheKey: CacheKey
    const cacheEntryRemovalHandler: RemovalHandler
    var referenceCount: int
    var underlyingConnection: Option<ConnId>
    var destroyed: bool
    // Not fields of the source class: records of the calls the entry made,
    // so that contracts can say which calls happened (the close handler
    // registered, calls into the connection factory, closes of the connection).
    var handlerRegistered: bool
    var connectAttempts: nat
    var closes: seq<CloseMode>

    /**
     * What holds of an entry while `p` has it filed under `k`: it belongs to
     * `p`, carries key `k` and the removal handler for `k`, is referenced at
     * least once, has not been destroyed, and is in a reachable entry state.
     */
    ghost predicate FiledUnder(p: ConnectionPool, k: CacheKey)
      reads this
    {
      && pool == p
      && cacheKey == k
      && cacheEntryRemovalHandler == RemovalHandler(k)
      && referenceCount >= 1
      && !destroyed
      && EntryInv(State())
    }

    /** The entry's mutable state as a value. */
    function State(): EntryState
      reads this
    {
      EntryState(referenceCount, underlyingConnection, destroyed, handlerRegistered, connectAttempts, closes)
    }

    constructor (pool: ConnectionPool, key: CacheKey, handler: RemovalHandler)
      ensures this.pool == pool && cacheKey == key && cacheEntryRemovalHandler == handler
      ensures State() == Initial()
    {
      this.pool := pool;
      cacheKey := key;
      cacheEntryRemovalHandler := handler;
      referenceCount := 0;
      underlyingConnection := None;
      destroyed := false;
      handlerRegistered := false;
      connectAttempts := 0;
      closes := [];
    }

    /** `incRef()`: returns the new count. */
    method IncRef() returns (n: int)
      modifies this
      ensures State() == EntryModel.IncRef(old(State())) && n == referenceCount
    {
      referenceCount := referenceCount + 1;
      n := referenceCount;
    }

    /** `decRef()`: returns the new count. */
    method DecRef() returns (n: int)
      modifies this
      ensures State() == EntryModel.DecRef(old(State())) && n == referenceCount
    {
      referenceCount := referenceCount - 1;
      n := referenceCount;
    }

    /**
     * `waitConnected(timeout, unit)`. `outcome` is what `NetworkUtil.connect`
     * followed by `IoFutureHelper.get` would produce if called.
     */
    method WaitConnected(connectionTimeout: int, outcome: ConnectOutcome) returns (status: Outcome<PoolError>)
      modifies this
      ensures WaitResult(State(), status) == EntryModel.WaitConnected(old(State()), outcome)
    {
      if destroyed {
        return Fail(ShutdownInProgress);
      }
      if underlyingConnection.None? {
        connectAttempts := connectAttempts + 1;
        match outcome
        case Failed(cause) =>
          // the wait throws before the assignment: the handle stays null
          return Fail(ConnectFailed(cause));
        case Established(c) =>
          underlyingConnection := Some(c);
          handlerRegistered := true;
      }
      return Pass;
    }

    /**
     * `destroy(async)`. A failing synchronous close (`safeClose`) is logged
     * and swallowed, so it has no effect beyond the close call itself.
     */
    method Destroy(async: bool)
      modifies this
      ensures State() == EntryModel.Destroy(old(State()), async)
    {
      if !destroyed {
        destroyed := true;
        if underlyingConnection.Some? {
          if async {
            closes := closes + [Async];
          } else {
            closes := closes + [Sync];
          }
        }
      }
    }

    /** `close()`: releases the reference held through this handle, by its key. */
    method Close()
      requires pool.Valid()
      modifies pool, pool.EntryFor(cacheKey)
      ensures pool.Valid()
      ensures pool.Released(old(pool.cache), cacheKey, false)
    {
      pool.Release(cacheKey, false);
    }

    /** `closeAsync()`: as `close()`, closing the underlying connection asynchronously. */
    method CloseAsync()
      requires pool.Valid()
      modifies pool, pool.EntryFor(cacheKey)
      ensures pool.Valid()
      ensures pool.Released(old(pool.cache), cacheKey, true)
    {
      pool.Release(cacheKey, true);
    }
  }

  /** `ConnectionPool`. */
  class ConnectionPool {
    var cache: map<CacheKey, PooledConnection>

    /** Every cached entry is filed under its own key (see PooledConnection.FiledUnder). */
    ghost predicate Valid()
      reads this, cache.Values
    {
      forall k :: k in cache ==> cache[k].FiledUnder(this, k)
    }

    /** The state of the entry filed under `key`, or of a fresh entry if there is none. */
    ghost function StateOf(key: CacheKey): EntryState
      reads this, cache.Values
    {
      if key in cache then cache[key].State() else Initial()
    }

    /** The entry filed under `key`, as a frame. */
    function EntryFor(key: CacheKey): set<object>
      reads this
    {
      if key in cache then {cache[key]} else {}
    }

    constructor ()
      ensures Valid() && cache == map[]
    {
      cache := map[];
    }

    /**
     * The effect of `release(key, async)` on the map as it was (`before`) and
     * on the entry filed under `key`: nothing when the key is missing; else one
     * reference is given back, and when none is left the entry is removed and
     * destroyed with the given mode.
     */
    twostate predicate Released(before: map<CacheKey, PooledConnection>, key: CacheKey, async: bool)
      reads this, before.Values
    {
      if key !in before then cache == before
      else
        var e := before[key];
        var decremented := EntryModel.DecRef(old(e.State()));
        if decremented.refCount > 0 then
          cache == before && e.State() == decremented
        else
          cache == before - {key} && e.State() == EntryModel.Destroy(decremented, async)
    }

    /**
     * The first step of `getConnection` (its `synchronized` block): find the
     * entry for `key` or file a new one, then take a reference on it.
     */
    method AcquireEntry(key: CacheKey) returns (e: PooledConnection)
      requires Valid()
      modifies this, EntryFor(key)
      ensures Valid()
      ensures e.pool == this && e.cacheKey == key
      ensures cache == old(cache)[key := e]
      ensures key in old(cache) ==> e == old(cache[key]) && e.State() == EntryModel.IncRef(old(e.State()))
      ensures key !in old(cache) ==> fresh(e) && e.State() == EntryModel.IncRef(Initial())
    {
      if key in cache {
        e := cache[key];
      } else {
        e := new PooledConnection(this, key, RemovalHandler(key));
        cache := cache[key := e];
      }
      var _ := e.IncRef();
    }

    /**
     * What `getConnection` does, given the map as it was (`before`) and the
     * state `s0` the entry filed under `key` had (a fresh entry if none): one
     * reference is taken and the connection awaited. On success the entry is
     * returned, filed under `key`, with that reference still held. On failure
     * the error is the wait's, the reference is given back, and the map is as
     * it was (a newly made entry is removed again).
     */
    twostate predicate Acquired(before: map<CacheKey, PooledConnection>, key: CacheKey, s0: EntryState,
                                outcome: ConnectOutcome, new r: Result<PooledConnection, PoolError>)
      reads this, before.Values, if r.Success? then {r.value} else {}
    {
      var w := EntryModel.WaitConnected(EntryModel.IncRef(s0), outcome);
      && (r.Success? <==> w.status.Pass?)
      && (r.Success? ==>
            && r.value.pool == this && r.value.cacheKey == key
            && cache == before[key := r.value]
            && r.value.State() == w.state
            && (key in before ==> r.value == before[key])
            && (key !in before ==> fresh(r.value)))
      && (r.Failure? ==>
            && w.status == Fail(r.error)
            && cache == before
            && (key in before ==> before[key].State() == EntryModel.DecRef(w.state)))
    }

    /** `getConnection(endpoint, protocol, host, port, configuration)`. */
    method GetConnection(endpoint: Option<Endpoint>, protocol: Option<JavaString>, host: Option<JavaString>,
                         port: Int32, config: ConnectionConfiguration, outcome: ConnectOutcome)
      returns (r: Result<PooledConnection, PoolError>)
      requires Valid()
      modifies this, EntryFor(KeyFor(endpoint, protocol, host, port, config))
      ensures Valid()
      ensures Acquired(old(cache), KeyFor(endpoint, protocol, host, port, config),
                       old(StateOf(KeyFor(endpoint, protocol, host, port, config))), outcome, r)
    {
      var key := KeyFor(endpoint, protocol, host, port, config);
      ghost var s0 := StateOf(key);
      var e := AcquireEntry(key);
      ghost var acquired := cache;
      var status := e.WaitConnected(config.connectionTimeout, outcome);
      ghost var w := EntryModel.WaitConnected(EntryModel.IncRef(s0), outcome);
      assert e.State() == w.state && status == w.status;
      if status.Fail? {
        Release(key, false);
        if key in old(cache) {
          assert s0.refCount >= 1;
          MapUpdateSame(old(cache), key);
        } else {
          MapUpdateRemove(old(cache), key, e);
        }
        return Failure(status.error);
      }
      return Success(e);
    }

    /**
     * `release(key, async)`. The entry is looked up by key, so the reference
     * given back is taken from whichever entry is filed under `key` now.
     */
    method Release(key: CacheKey, async: bool)
      requires Valid()
      modifies this, EntryFor(key)
      ensures Valid()
      ensures Released(old(cache), key, async)
    {
      if key !in cache {
        return;
      }
      var e := cache[key];
      var n := e.DecRef();
      if n > 0 {
        return;
      }
      cache := cache - {key};
      e.Destroy(async);
    }

    /**
     * `shutdown()`. The source takes `cache.values()`, which is a view backed
     * by the map and not a copy, and then clears the map, so its loop finds
     * nothing to destroy (see ShutdownAsWritten). This model takes a copy of
     * the entries before the map is cleared, so that every pooled connection
     * is closed, as the shutdown task intends.
     */
    method Shutdown()
      requires Valid()
      modifies this, cache.Values
      ensures Valid() && cache == map[]
      ensures forall e :: e in old(cache.Values) ==> e.State() == EntryModel.Destroy(old(e.State()), false)
    {
      var pooledConnections := cache.Values;
      cache := map[];
      DestroyAll(pooledConnections, false);
    }

    /**
     * `shutdown()` as written: the destroy loop runs over the live view of the
     * map after `clear()`, so no entry is destroyed and no connection closed.
     */
    method ShutdownAsWritten()
      requires Valid()
      modifies this, cache.Values
      ensures Valid() && cache == map[]
      ensures forall e :: e in old(cache.Values) ==> e.State() == old(e.State())
    {
      cache := map[];
      DestroyAll(cache.Values, false);
    }

    /**
     * `CacheEntryRemovalHandler.handleClose`, run when the connection the
     * handler was added to is closed: removes whatever entry is filed under the
     * handler's key, whatever its count, and touches no entry.
     */
    method HandleClose(handler: RemovalHandler)
      requires Valid()
      modifies this
      ensures Valid()
      ensures cache == old(cache) - {handler.key}
    {
      cache := cache - {handler.key};
    }
  }
}
