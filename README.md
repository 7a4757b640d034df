# Connection pool of the remoting EJB client, in Dafny

This project models `ConnectionPool`, the connection pool of the JBoss EJB client's
remoting layer. The pool hands out remoting `Connection`s to many callers. Requests
with the same parameters share one underlying connection. Each shared connection is
a `PooledConnection`: it is filed in a map under a six-field `CacheKey`, counts the
references handed out, connects lazily on first use, and is destroyed when the last
reference is released. A close handler registered on each underlying connection removes
whatever entry is filed under that entry's key whenever the connection is closed, whether
by the remote side or by the pool's own `destroy`. A shutdown hook is meant to close every
pooled connection at process exit; as written it closes none (see Findings).

The modules follow the source:

- `Wrappers`: `Option` for nullable references; `Result` and `Outcome` for thrown exceptions.
- `JavaInt`: Java `int` arithmetic (wrap-around modulo 2^32), `String.hashCode()`,
  with the proof that the `31 * result + h` accumulation equals the exact polynomial
  reduced to an `int`.
- `CacheKeys`: `CacheKey` with its null-safe `equals` and its `hashCode`.
- `EntryModel`: the mutable state of one entry as a value. It has one function per
  entry operation (`incRef`, `decRef`, `waitConnected`, `destroy`) and lemmas over
  any history of calls.
- `Pool`: the heap model. `PooledConnection` and `ConnectionPool` are classes with the
  source's mutable fields, the entry's key and its removal handler; the connect
  arguments an entry keeps are read from its key. Their methods are proved to follow the `EntryModel` functions and
  to keep the pool invariant `Valid()`: every cached entry is filed under its own key,
  is referenced at least once, and is not destroyed.
- `PoolScenarios`: call histories on a fresh pool (acquire/release, remote close,
  concurrent acquirers, failed attempts, shutdown). For each one it states what the
  contracts let a client conclude.

Modelling choices:

- Every `synchronized` region is one method call. `getConnection` is three of them:
  `AcquireEntry` (the synchronized block), `PooledConnection.WaitConnected`, and
  `Release` on failure. Interleavings of concurrent callers are sequences of such calls.
- `NetworkUtil.connect` followed by `IoFutureHelper.get` is a `ConnectOutcome`
  parameter: an established connection id, or a timeout or transport failure. Each
  entry counts its calls into the factory (`connectAttempts`) and logs the close calls
  made on its underlying connection (`closes`).
- `Endpoint`, `OptionMap` and `CallbackHandler` are represented by what their own
  `equals` distinguishes, together with the hash code they report. Java's
  equals/hashCode contract makes this sound. A `String` is its sequence of UTF-16
  code units, with Java's documented `hashCode`.
- The model follows the code where it differs from what a reader of the pool would
  expect: that closing a handle only affects the entry it came from, that a close
  handler only evicts its own entry, and that a pool which has shut down refuses new
  connections. (1) `release` looks up by key. So once a remote close has evicted an
  entry and a new one has been filed, closing an old handle decrements the NEW
  entry, not nothing (`StaleHandleReleasesNewEntry`). (2) The removal handler
  removes whatever entry is under its key, without checking which entry it is.
  (3) `shutdown` does not mark the pool as shut down, so a later `getConnection`
  builds a fresh entry instead of failing (`ShutdownClosesEverything`).
- `shutdown` copies the entries before clearing the map. The source iterates a
  live view after clearing it, so it destroys nothing (see Findings).

## Model

| member | source | states |
|---|---|---|
| `JavaInt.Wrap` | src/main/java/org/jboss/ejb/client/remoting/ConnectionPool.java:168-176 | the int a Java int computation overflows to is in int range and congruent to the exact value modulo 2^32 |
| `JavaInt.WrapCongruent` | src/main/java/org/jboss/ejb/client/remoting/ConnectionPool.java:168-176 | two exact values equal modulo 2^32 overflow to the same int |
| `JavaInt.HashStepCongruent` | src/main/java/org/jboss/ejb/client/remoting/ConnectionPool.java:170-174 | one `31 * result + h` step in int arithmetic is congruent to the exact step on any value congruent to `result` |
| `JavaInt.HashFold` | src/main/java/org/jboss/ejb/client/remoting/ConnectionPool.java:169-175 | accumulating terms with `31 * result + h` in int arithmetic gives the polynomial h0*31^(n-1) + ... + h(n-1) reduced to an int |
| `JavaInt.StringHashCode` | src/main/java/org/jboss/ejb/client/remoting/ConnectionPool.java:170 | the `String` hash code used for host and protocol is s[0]*31^(n-1) + ... + s[n-1] reduced to an int |
| `CacheKeys.NullSafeEquals` | src/main/java/org/jboss/ejb/client/remoting/ConnectionPool.java:156-162 | `x != null ? x.equals(y) : y == null` holds exactly when both are null or both hold equal values |
| `CacheKeys.CacheKey.Equals` | src/main/java/org/jboss/ejb/client/remoting/ConnectionPool.java:149-165 | `equals` is true exactly when the argument is a non-null key whose six fields (port, callback handler, options, endpoint, host, protocol) all equal this key's, null-safely; so it coincides with value equality of keys |
| `CacheKeys.EqualsReflexive` | src/main/java/org/jboss/ejb/client/remoting/ConnectionPool.java:149-165 | every key equals itself |
| `CacheKeys.EqualsSymmetric` | src/main/java/org/jboss/ejb/client/remoting/ConnectionPool.java:149-165 | a equals b exactly when b equals a |
| `CacheKeys.EqualsTransitive` | src/main/java/org/jboss/ejb/client/remoting/ConnectionPool.java:149-165 | equality of keys is transitive |
| `CacheKeys.EqualsNull` | src/main/java/org/jboss/ejb/client/remoting/ConnectionPool.java:151 | no key equals null |
| `CacheKeys.HashCodeConsistent` | src/main/java/org/jboss/ejb/client/remoting/ConnectionPool.java:149-176 | equal keys have equal hash codes, which the hash map filing them relies on |
| `CacheKeys.HashStepFromZero` | src/main/java/org/jboss/ejb/client/remoting/ConnectionPool.java:169 | starting `result` with the first field's hash is the first accumulation step from 0 |
| `CacheKeys.FoldSix` | src/main/java/org/jboss/ejb/client/remoting/ConnectionPool.java:169-175 | the accumulation over six terms unrolls to the five `31 * result + h` statements |
| `CacheKeys.CacheKey.HashCode` | src/main/java/org/jboss/ejb/client/remoting/ConnectionPool.java:167-176 | `hashCode` is the accumulation of the field hash codes (0 for a null field) in the order endpoint, host, port, options, callback handler, protocol, and so the polynomial of those six hash codes reduced to an int: overflow in the steps loses nothing more |
| `EntryModel.IncRef` | src/main/java/org/jboss/ejb/client/remoting/ConnectionPool.java:217-219 | the count rises by one, nothing else about the entry changes, and the entry invariant is kept |
| `EntryModel.DecRef` | src/main/java/org/jboss/ejb/client/remoting/ConnectionPool.java:221-223 | the count falls by one, nothing else about the entry changes, and the entry invariant is kept |
| `EntryModel.WaitConnected` | src/main/java/org/jboss/ejb/client/remoting/ConnectionPool.java:225-237 | on a destroyed entry: fails with "shutdown in progress" and changes nothing; on a connected entry: succeeds, no factory call, same handle; otherwise exactly one factory call, which publishes the handle and registers the removal handler on success and leaves the handle null and no handler registered on failure; success holds exactly when a handle is published; count, destroyed flag and close calls are untouched; the entry invariant is kept |
| `EntryModel.Destroy` | src/main/java/org/jboss/ejb/client/remoting/ConnectionPool.java:239-250 | afterwards the entry is destroyed; a destroyed entry is left unchanged; otherwise the underlying connection, if there is one, gets exactly one close call, asynchronous or synchronous as asked; handle, count, attempts and handler registration unchanged; invariant kept |
| `EntryModel.DecRefUndoesIncRef` | src/main/java/org/jboss/ejb/client/remoting/ConnectionPool.java:217-223 | `decRef` after `incRef` restores the entry |
| `EntryModel.DestroyIdempotent` | src/main/java/org/jboss/ejb/client/remoting/ConnectionPool.java:239-250 | destroying twice, in any modes, is destroying once |
| `EntryModel.DestroyedRefusesConnect` | src/main/java/org/jboss/ejb/client/remoting/ConnectionPool.java:226-228 | after `destroy`, every `waitConnected` fails with "shutdown in progress" and changes nothing |
| `EntryModel.ConnectOnce` | src/main/java/org/jboss/ejb/client/remoting/ConnectionPool.java:229-236 | after one successful wait, any later wait succeeds with no factory call and leaves the entry as it is |
| `EntryModel.FailedAttemptIsRetried` | src/main/java/org/jboss/ejb/client/remoting/ConnectionPool.java:229-232 | after a failed attempt on a live entry, the next wait calls the factory again |
| `EntryModel.FailedAcquireNetZero` | src/main/java/org/jboss/ejb/client/remoting/ConnectionPool.java:84-95 | the reference taken before a failed wait and given back after it leaves the count as it was |
| `EntryModel.EntryLifetime` | src/main/java/org/jboss/ejb/client/remoting/ConnectionPool.java:192-250 | over any sequence of entry calls: the invariant is kept; the count changes by the number of increments minus decrements; a published handle is never replaced and a connected entry never calls the factory again; a destroyed entry stays destroyed and is never connected; close calls are only appended and at most one is ever made |
| `Pool.SameKeyIff` | src/main/java/org/jboss/ejb/client/remoting/ConnectionPool.java:73 | two `getConnection` calls build equal keys, and so share an entry, exactly when endpoint, protocol, host, port, callback handler and connection options all agree, whatever their connection timeouts |
| `Pool.DestroyAll` | src/main/java/org/jboss/ejb/client/remoting/ConnectionPool.java:120-122 | every entry of the collection is destroyed with the given mode, and nothing else changes |
| `Pool.PooledConnection.constructor` | src/main/java/org/jboss/ejb/client/remoting/ConnectionPool.java:192-215 | a new entry has its pool, key and removal handler, count 0, no handle, is not destroyed, and has no factory or close calls |
| `Pool.PooledConnection.IncRef` | src/main/java/org/jboss/ejb/client/remoting/ConnectionPool.java:217-219 | the count rises by one and the new count is returned |
| `Pool.PooledConnection.DecRef` | src/main/java/org/jboss/ejb/client/remoting/ConnectionPool.java:221-223 | the count falls by one and the new count is returned |
| `Pool.PooledConnection.WaitConnected` | src/main/java/org/jboss/ejb/client/remoting/ConnectionPool.java:225-237 | the new state and the exception thrown, if any, are as in `EntryModel.WaitConnected` |
| `Pool.PooledConnection.Destroy` | src/main/java/org/jboss/ejb/client/remoting/ConnectionPool.java:239-250 | the new state is as in `EntryModel.Destroy`; a failing synchronous close is swallowed |
| `Pool.PooledConnection.Close` | src/main/java/org/jboss/ejb/client/remoting/ConnectionPool.java:252-255 | releases by this handle's key with a synchronous close: the effect of `release(key, false)` on whatever entry is filed under that key |
| `Pool.PooledConnection.CloseAsync` | src/main/java/org/jboss/ejb/client/remoting/ConnectionPool.java:257-260 | as `Close`, with an asynchronous close |
| `Pool.ConnectionPool.constructor` | src/main/java/org/jboss/ejb/client/remoting/ConnectionPool.java:66-70 | a new pool has an empty map |
| `Pool.ConnectionPool.AcquireEntry` | src/main/java/org/jboss/ejb/client/remoting/ConnectionPool.java:78-85 | a new entry is filed exactly when none is filed under the key; either way the entry under the key has its count raised by exactly one; no other entry and no other key changes; the pool invariant is kept |
| `Pool.ConnectionPool.GetConnection` | src/main/java/org/jboss/ejb/client/remoting/ConnectionPool.java:72-98 | success exactly when the wait succeeds; on success the entry under the key (the existing one, or a fresh one) is returned, connected and referenced once more; on failure the wait's error is thrown, the reference is given back, and the map is as before (a fresh entry is removed again); other entries do not change; the pool invariant is kept |
| `Pool.ConnectionPool.Release` | src/main/java/org/jboss/ejb/client/remoting/ConnectionPool.java:100-112 | a missing key changes nothing; otherwise the entry under the key loses one reference; while references remain the map is unchanged; at zero the key is removed and that entry destroyed in the given mode; the pool invariant is kept |
| `Pool.ConnectionPool.Shutdown` | src/main/java/org/jboss/ejb/client/remoting/ConnectionPool.java:114-122 | afterwards the map is empty and every entry it held is destroyed, with a synchronous close, whatever its count |
| `Pool.ConnectionPool.ShutdownAsWritten` | src/main/java/org/jboss/ejb/client/remoting/ConnectionPool.java:114-122 | the map is emptied, but the loop over the live view of the cleared map leaves every entry unchanged |
| `Pool.ConnectionPool.HandleClose` | src/main/java/org/jboss/ejb/client/remoting/ConnectionPool.java:344-346 | the handler's key is removed from the map, whatever the count of the entry filed there; no entry is touched |
| `PoolScenarios.ReleaseThenReacquire` | src/main/java/org/jboss/ejb/client/remoting/ConnectionPool.java:78-112 | releasing the only reference removes the entry and closes its connection synchronously once; the next acquire connects a different entry with one factory call |
| `PoolScenarios.StaleHandleReleasesNewEntry` | src/main/java/org/jboss/ejb/client/remoting/ConnectionPool.java:100-112 | a remote close evicts a referenced entry and keeps its count; the next acquire builds a fresh, undestroyed entry; closing the old handle then destroys the NEW entry and removes its key, while the old entry keeps count 1 |
| `PoolScenarios.ConcurrentAcquirersConnectOnce` | src/main/java/org/jboss/ejb/client/remoting/ConnectionPool.java:78-85 | two callers that take references before either waits share one entry with count 2, and both succeed with a single factory call |
| `PoolScenarios.FailedAttemptIsRetriedByNextWaiter` | src/main/java/org/jboss/ejb/client/remoting/ConnectionPool.java:88-95 | a timed-out attempt fails only its caller, whose release leaves the entry filed with count 1; the other caller's wait makes a second, successful attempt |
| `PoolScenarios.FailedGetConnectionLeavesNoEntry` | src/main/java/org/jboss/ejb/client/remoting/ConnectionPool.java:88-95 | a failed `getConnection` on a new key throws the transport error and files nothing; the next call starts a new entry with count 1 and one factory call |
| `PoolScenarios.ShutdownClosesEverything` | src/main/java/org/jboss/ejb/client/remoting/ConnectionPool.java:114-122 | shutdown empties the map and closes the referenced connection synchronously; a later `getConnection` succeeds with a fresh, undestroyed entry |
| `PoolScenarios.ShutdownAsWrittenLeaks` | src/main/java/org/jboss/ejb/client/remoting/ConnectionPool.java:117-121 | with the source's shutdown, the map is emptied but the connected entry is not destroyed and its connection is never closed |
| `PoolScenarios.WaitAfterShutdownAsWrittenLeaks` | src/main/java/org/jboss/ejb/client/remoting/ConnectionPool.java:100-121 | with the source's shutdown: a caller that took its reference before the shutdown connects with one factory call and succeeds on an entry that is no longer filed; giving the reference back finds no key, so that entry is never destroyed and its connection never closed |
| `PoolScenarios.WaitAfterShutdownIsRefused` | src/main/java/org/jboss/ejb/client/remoting/ConnectionPool.java:226-228 | with the copying `Shutdown`: a caller that took its reference before a shutdown is refused with "shutdown in progress" and no factory call; its release is a no-op because the key is gone |

## Findings

| source | as written | input that shows it | evidently intended | confidence | as-written member | corrected member |
|---|---|---|---|---|---|---|
| src/main/java/org/jboss/ejb/client/remoting/ConnectionPool.java:117-121 | `cache.values()` is a view backed by the map, not a copy; `cache.clear()` empties it before the loop runs, so the loop destroys nothing | a pool holding one connected entry, then `shutdown()`: the map is empty, but the entry is not destroyed and its connection is not closed; a caller that took its reference before `shutdown()` then connects and its connection is never closed | the shutdown task closes all pooled connections (line 327) | not executed; high: a `ConcurrentHashMap` values view reflects later removals | `Pool.ConnectionPool.ShutdownAsWritten`, `PoolScenarios.ShutdownAsWrittenLeaks`, `PoolScenarios.WaitAfterShutdownAsWrittenLeaks` | `Pool.ConnectionPool.Shutdown`, `PoolScenarios.ShutdownClosesEverything`, `PoolScenarios.WaitAfterShutdownIsRefused` |

## Left out

- Locking: the `synchronized` blocks and methods, and the split between the pool's lock
  and each entry's lock, are not modelled. Each critical section is one atomic call, so
  head-of-line blocking across keys cannot be stated here.
- `Pool.ConnectionPool.Release`: the source reads the map at line 101 outside the lock.
  Here the read and the locked decrement are one atomic step, so interleavings between
  them are not captured.
- `NetworkUtil.connect` and `IoFutureHelper.get` are calls into code outside this model.
  Together with the timeout they are the `ConnectOutcome` parameter; the timeout value
  itself does nothing here.
- The underlying remoting `Connection` is only an id. Its close handlers are not
  invoked by the model; a client calls `HandleClose` with the entry's handler when it
  chooses. In the source the handler added at line 235 fires on EVERY close of the
  connection: a remote close, and also the close the pool's own `destroy` makes at
  lines 244 and 246. After `closeAsync` (`release(key, true)`) that call can come after
  a new entry was filed under the same key, and it then evicts the new entry. The model
  does not tie the handler's call to `Destroy`; when it runs is left to the client.
- The `Connection` methods that forward to the underlying connection (`awaitClosed`,
  `awaitClosedUninterruptibly`, `addCloseHandler`, `getPrincipals`, `getUserInfo`,
  `openChannel`, `getRemoteEndpointName`, `getEndpoint`, `getAttachments`,
  `getSslSession`) are left out: they only delegate.
- The static `INSTANCE`, `ShutdownTask`, shutdown-hook registration and removal, the
  thread-id check in `shutdown`, and logging are JVM lifecycle plumbing; the pool is an
  explicit object here.
- `safeClose`: the exception it swallows is logged and dropped, so it is modelled as a
  close call with no error outcome.
- `referenceCount` is an unbounded integer: Java `int` overflow past 2^31 - 1
  references is not modelled.
- `CacheKeys.CacheKey.Equals`: its argument is `null` or a `CacheKey`. The branch that
  returns false for an object of another class (line 151) is not modelled, since no
  other class appears as a key.
- `handlerRegistered`, `connectAttempts` and `closes` of `PooledConnection` are not
  fields of the source class. They record calls the entry made, so that contracts can
  say which calls happened.
- The bodies of `equals` and `hashCode` of `Endpoint`, `OptionMap` and
  `CallbackHandler` are not part of this model (see the representation above).
- The test file `IndependentConnectionsTestCase.java` is not modelled: it checks thread
  timing against a live server.
