/**
 * Histories of calls on one fresh pool, each for one connection target, and
 * what the contracts of module Pool let a client conclude about them. Each
 * method allocates its own pool, so it changes no existing state; its
 * results report what the history left behind.
 */
module PoolScenarios {
  import opened Wrappers
  import opened JavaInt
  import opened CacheKeys
  import opened EntryModel
  import opened Pool

  /**
   * Acquire, release the only reference, acquire again: the release removes
   * and synchronously closes the entry, and the next acquire connects a new
   * entry rather than reusing the destroyed one.
   */
  method ReleaseThenReacquire(endpoint: Option<Endpoint>, protocol: Option<JavaString>, host: Option<JavaString>,
                              port: Int32, config: ConnectionConfiguration, c1: ConnId, c2: ConnId)
    returns (firstCloses: seq<CloseMode>, cachedAfterRelease: bool, sameEntry: bool,
             secondConn: Option<ConnId>, secondAttempts: nat)
    ensures firstCloses == [Sync] && !cachedAfterRelease && !sameEntry
    ensures secondConn == Some(c2) && secondAttempts == 1
  {
    var key := KeyFor(endpoint, protocol, host, port, config);
    var pool := new ConnectionPool();
    var r1 := pool.GetConnection(endpoint, protocol, host, port, config, Established(c1));
    assert r1.Success?;
    var e1 := r1.value;
    e1.Close();
    firstCloses, cachedAfterRelease := e1.closes, key in pool.cache;
    var r2 := pool.GetConnection(endpoint, protocol, host, port, config, Established(c2));
    assert r2.Success?;
    var e2 := r2.value;
    sameEntry, secondConn, secondAttempts := e1 == e2, e2.underlyingConnection, e2.connectAttempts;
  }

  /**
   * Remote close, re-acquire, then close of the old handle. The handler
   * evicts the entry though it is still referenced, and leaves its count
   * alone; the next acquire builds and connects a fresh entry. Closing the
   * old handle then releases by key: it takes the reference of the NEW entry,
   * which is removed and destroyed while its own caller still holds it, and
   * the old entry keeps its count.
   */
  method StaleHandleReleasesNewEntry(endpoint: Option<Endpoint>, protocol: Option<JavaString>,
                                     host: Option<JavaString>, port: Int32, config: ConnectionConfiguration,
                                     c1: ConnId, c2: ConnId)
    returns (evictedCount: int, cachedAfterEviction: bool, freshDestroyed: bool, freshAttempts: nat,
             oldCountAfterClose: int, oldDestroyed: bool, newDestroyed: bool, newCloses: seq<CloseMode>,
             cachedAtEnd: bool)
    ensures evictedCount == 1 && !cachedAfterEviction
    ensures !freshDestroyed && freshAttempts == 1
    ensures oldCountAfterClose == 1 && !oldDestroyed
    ensures newDestroyed && newCloses == [Sync] && !cachedAtEnd
  {
    var key := KeyFor(endpoint, protocol, host, port, config);
    var pool := new ConnectionPool();
    var r1 := pool.GetConnection(endpoint, protocol, host, port, config, Established(c1));
    assert r1.Success?;
    var old1 := r1.value;
    pool.HandleClose(old1.cacheEntryRemovalHandler);
    evictedCount, cachedAfterEviction := old1.referenceCount, key in pool.cache;
    var r2 := pool.GetConnection(endpoint, protocol, host, port, config, Established(c2));
    assert r2.Success?;
    var new2 := r2.value;
    freshDestroyed, freshAttempts := new2.destroyed, new2.connectAttempts;
    old1.Close();
    oldCountAfterClose, oldDestroyed := old1.referenceCount, old1.destroyed;
    newDestroyed, newCloses, cachedAtEnd := new2.destroyed, new2.closes, key in pool.cache;
  }

  /**
   * Two callers take a reference before either waits: they share one entry,
   * the first wait makes the only factory call, and the second wait reuses
   * its handle whatever the factory would have answered.
   */
  method ConcurrentAcquirersConnectOnce(key: CacheKey, c: ConnId, other: ConnectOutcome, timeout: int)
    returns (sameEntry: bool, count: int, firstOk: bool, secondOk: bool, attempts: nat, conn: Option<ConnId>)
    ensures sameEntry && count == 2 && firstOk && secondOk && attempts == 1 && conn == Some(c)
  {
    var pool := new ConnectionPool();
    var e1 := pool.AcquireEntry(key);
    var e2 := pool.AcquireEntry(key);
    var st1 := e1.WaitConnected(timeout, Established(c));
    var st2 := e2.WaitConnected(timeout, other);
    sameEntry, count, firstOk, secondOk := e1 == e2, e2.referenceCount, st1.Pass?, st2.Pass?;
    attempts, conn := e2.connectAttempts, e2.underlyingConnection;
  }

  /**
   * Two callers share an entry; the first attempt times out and its caller
   * gives its reference back. The entry stays filed for the second caller,
   * whose wait makes a second, successful attempt.
   */
  method FailedAttemptIsRetriedByNextWaiter(key: CacheKey, c: ConnId, timeout: int)
    returns (firstStatus: Outcome<PoolError>, cachedAfterFailure: bool, countAfterFailure: int,
             secondOk: bool, attempts: nat)
    ensures firstStatus == Fail(ConnectFailed(Timeout))
    ensures cachedAfterFailure && countAfterFailure == 1
    ensures secondOk && attempts == 2
  {
    var pool := new ConnectionPool();
    var e1 := pool.AcquireEntry(key);
    var e2 := pool.AcquireEntry(key);
    firstStatus := e1.WaitConnected(timeout, Failed(Timeout));
    pool.Release(key, false);
    cachedAfterFailure, countAfterFailure := key in pool.cache, e2.referenceCount;
    var st2 := e2.WaitConnected(timeout, Established(c));
    secondOk, attempts := st2.Pass?, e2.connectAttempts;
  }

  /**
   * A failed `getConnection` on an unknown key surfaces the transport error
   * and leaves no entry behind; the next call starts from a new entry.
   */
  method FailedGetConnectionLeavesNoEntry(endpoint: Option<Endpoint>, protocol: Option<JavaString>,
                                          host: Option<JavaString>, port: Int32,
                                          config: ConnectionConfiguration, c: ConnId)
    returns (firstResultOk: bool, firstError: PoolError, cachedAfterFailure: bool,
             secondAttempts: nat, secondCount: int)
    ensures !firstResultOk && firstError == ConnectFailed(TransportError) && !cachedAfterFailure
    ensures secondAttempts == 1 && secondCount == 1
  {
    var key := KeyFor(endpoint, protocol, host, port, config);
    var pool := new ConnectionPool();
    var r1 := pool.GetConnection(endpoint, protocol, host, port, config, Failed(TransportError));
    assert r1.Failure?;
    firstResultOk, firstError, cachedAfterFailure := r1.Success?, r1.error, key in pool.cache;
    var r2 := pool.GetConnection(endpoint, protocol, host, port, config, Established(c));
    assert r2.Success?;
    secondAttempts, secondCount := r2.value.connectAttempts, r2.value.referenceCount;
  }

  /**
   * Shutdown with a connection in use closes it synchronously and empties
   * the map. The pool is not marked as shut down, so a later `getConnection`
   * builds and connects a fresh entry.
   */
  method ShutdownClosesEverything(endpoint: Option<Endpoint>, protocol: Option<JavaString>,
                                  host: Option<JavaString>, port: Int32, config: ConnectionConfiguration,
                                  c1: ConnId, c2: ConnId)
    returns (emptyAfterShutdown: bool, destroyed: bool, closes: seq<CloseMode>,
             laterOk: bool, laterFresh: bool)
    ensures emptyAfterShutdown && destroyed && closes == [Sync]
    ensures laterOk && laterFresh
  {
    var pool := new ConnectionPool();
    var r1 := pool.GetConnection(endpoint, protocol, host, port, config, Established(c1));
    assert r1.Success?;
    var e := r1.value;
    pool.Shutdown();
    emptyAfterShutdown, destroyed, closes := pool.cache == map[], e.destroyed, e.closes;
    var r2 := pool.GetConnection(endpoint, protocol, host, port, config, Established(c2));
    laterOk := r2.Success?;
    laterFresh := r2.Success? && r2.value != e && !r2.value.destroyed;
  }

  /**
   * The shutdown of the source, with a connection in use: the map is emptied
   * but the entry is neither destroyed nor its connection closed.
   */
  method ShutdownAsWrittenLeaks(endpoint: Option<Endpoint>, protocol: Option<JavaString>,
                                host: Option<JavaString>, port: Int32, config: ConnectionConfiguration,
                                c: ConnId)
    returns (emptyAfterShutdown: bool, destroyed: bool, conn: Option<ConnId>, closes: seq<CloseMode>)
    ensures emptyAfterShutdown && !destroyed && conn == Some(c) && closes == []
  {
    var pool := new ConnectionPool();
    var r := pool.GetConnection(endpoint, protocol, host, port, config, Established(c));
    assert r.Success?;
    var e := r.value;
    pool.ShutdownAsWritten();
    emptyAfterShutdown, destroyed, conn, closes := pool.cache == map[], e.destroyed, e.underlyingConnection, e.closes;
  }

  /**
   * A caller that took its reference before a shutdown then waits: the wait
   * is refused without a factory call, and giving the reference back is a
   * no-op because the key is no longer filed.
   */
  method WaitAfterShutdownIsRefused(key: CacheKey, c: ConnId, timeout: int)
    returns (status: Outcome<PoolError>, attempts: nat, count: int, cached: bool)
    ensures status == Fail(ShutdownInProgress) && attempts == 0 && count == 1 && !cached
  {
    var pool := new ConnectionPool();
    var e := pool.AcquireEntry(key);
    pool.Shutdown();
    status := e.WaitConnected(timeout, Established(c));
    pool.Release(key, false);
    attempts, count, cached := e.connectAttempts, e.referenceCount, key in pool.cache;
  }

  /**
   * The same history with the shutdown of the source: the entry is not
   * destroyed, so the waiter connects it though it is no longer filed, and
   * giving its reference back finds no key, so that connection is never
   * closed.
   */
  method WaitAfterShutdownAsWrittenLeaks(key: CacheKey, c: ConnId, timeout: int)
    returns (status: Outcome<PoolError>, attempts: nat, conn: Option<ConnId>, count: int,
             destroyed: bool, closes: seq<CloseMode>, cached: bool)
    ensures status == Pass && attempts == 1 && conn == Some(c) && count == 1
    ensures !destroyed && closes == [] && !cached
  {
    var pool := new ConnectionPool();
    var e := pool.AcquireEntry(key);
    pool.ShutdownAsWritten();
    status := e.WaitConnected(timeout, Established(c));
    pool.Release(key, false);
    attempts, conn, count := e.connectAttempts, e.underlyingConnection, e.referenceCount;
    destroyed, closes, cached := e.destroyed, e.closes, key in pool.cache;
  }
}
