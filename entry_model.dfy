/**
 * The state of one pooled connection entry as a value, and the effect of each
 * of its operations (`incRef`, `decRef`, `waitConnected`, `destroy`) as a
 * function of it. The heap objects in module Pool are proved to follow these
 * functions; the lemmas here state what holds over any history of calls.
 */
module EntryModel {
  import opened Wrappers

  /** The identity of an underlying transport connection produced by the connection factory. */
  type ConnId = nat

  /** How the underlying connection was closed: `closeAsync()` or `safeClose` (blocking `close()`). */
  datatype CloseMode = Async | Sync

  /** Why an attempt to connect failed: the bounded wait elapsed, or the transport reported an error. */
  datatype ConnectFailure = Timeout | TransportError

  /**
   * What one call of the connection factory followed by the bounded wait for
   * its future yields: an established connection, or the exception thrown.
   */
  datatype ConnectOutcome = Established(conn: ConnId) | Failed(cause: ConnectFailure)

  /** The `IOException`s `waitConnected` (and so `getConnection`) can throw. */
  datatype PoolError =
    | ShutdownInProgress                      // the entry was destroyed
    | ConnectFailed(cause: ConnectFailure)    // propagated from the connect attempt

  /**
   * The mutable part of a `PooledConnection`:
   * refCount          `referenceCount`
   * conn              `underlyingConnection` (None is null)
   * destroyed         `destroyed`
   * handlerRegistered the removal handler was added as a close handler of `conn`
   * attempts          how many times the connection factory was called for this entry
   * closes            the close calls made on the underlying connection, in order
   */
  datatype EntryState = EntryState(
    refCount: int,
    conn: Option<ConnId>,
    destroyed: bool,
    handlerRegistered: bool,
    attempts: nat,
    closes: seq<CloseMode>)

  /** A freshly constructed entry. */
  function Initial(): EntryState {
    EntryState(0, None, false, false, 0, [])
  }

  /**
   * What every reachable entry state satisfies: a handle is published together
   * with its close handler and only after a factory call; the underlying
   * connection is closed at most once, only by destruction, and destruction
   * closes it whenever there is one.
   */
  ghost predicate EntryInv(s: EntryState) {
    && (s.conn.Some? <==> s.handlerRegistered)
    && (s.conn.Some? ==> s.attempts >= 1)
    && |s.closes| <= 1
    && (s.closes != [] ==> s.destroyed && s.conn.Some?)
    && (s.destroyed && s.conn.Some? ==> s.closes != [])
  }

  /** `incRef()`: one more reference; nothing else about the entry changes. */
  function IncRef(s: EntryState): (r: EntryState)
    ensures r.refCount == s.refCount + 1
    ensures r.(refCount := s.refCount) == s
    ensures EntryInv(s) ==> EntryInv(r)
  {
    s.(refCount := s.refCount + 1)
  }

  /** `decRef()`: one reference fewer; nothing else about the entry changes. */
  function DecRef(s: EntryState): (r: EntryState)
    ensures r.refCount == s.refCount - 1
    ensures r.(refCount := s.refCount) == s
    ensures EntryInv(s) ==> EntryInv(r)
  {
    s.(refCount := s.refCount - 1)
  }

  datatype WaitResult = WaitResult(state: EntryState, status: Outcome<PoolError>)

  /**
   * `waitConnected(timeout)`, given what the factory call and the bounded wait
   * would produce if they were made.
   */
  function WaitConnected(s: EntryState, outcome: ConnectOutcome): (r: WaitResult)
    // a destroyed entry refuses and is left as it is
    ensures s.destroyed ==> r == WaitResult(s, Fail(ShutdownInProgress))
    // a connected entry is returned as it is: no factory call, same handle
    ensures !s.destroyed && s.conn.Some? ==> r == WaitResult(s, Pass)
    // otherwise exactly one factory call is made
    ensures r.state.attempts == if !s.destroyed && s.conn.None? then s.attempts + 1 else s.attempts
    // the call succeeds exactly when a handle is published on an undestroyed entry
    ensures r.status.Pass? <==> !r.state.destroyed && r.state.conn.Some?
    // a failed attempt publishes nothing, so the next caller tries again
    ensures !s.destroyed && outcome.Failed? && s.conn.None? ==>
              r.state.conn.None? && r.status == Fail(ConnectFailed(outcome.cause))
    // a successful attempt publishes its handle and registers the removal handler
    ensures !s.destroyed && outcome.Established? && s.conn.None? ==>
              r.state.conn == Some(outcome.conn) && r.state.handlerRegistered
    // a published handle is never replaced; count, flag and close calls are not touched
    ensures s.conn.Some? ==> r.state.conn == s.conn
    ensures r.state.refCount == s.refCount && r.state.destroyed == s.destroyed
    ensures r.state.closes == s.closes
    // the removal handler is registered only together with a newly published handle
    ensures r.state.handlerRegistered
            == (s.handlerRegistered || (!s.destroyed && s.conn.None? && outcome.Established?))
    ensures EntryInv(s) ==> EntryInv(r.state)
  {
    if s.destroyed then
      WaitResult(s, Fail(ShutdownInProgress))
    else if s.conn.None? then
      match outcome
      case Established(c) =>
        WaitResult(s.(conn := Some(c), handlerRegistered := true, attempts := s.attempts + 1), Pass)
      case Failed(cause) =>
        WaitResult(s.(attempts := s.attempts + 1), Fail(ConnectFailed(cause)))
    else
      WaitResult(s, Pass)
  }

  /** `destroy(async)`. */
  function Destroy(s: EntryState, async: bool): (r: EntryState)
    ensures r.destroyed
    // idempotent: a second call changes nothing and closes nothing
    ensures s.destroyed ==> r == s
    // the first call closes the underlying connection once, in the requested mode, if there is one
    ensures !s.destroyed ==>
              r.closes == s.closes + (if s.conn.Some? then [if async then Async else Sync] else [])
    ensures r.conn == s.conn && r.refCount == s.refCount && r.attempts == s.attempts
    ensures r.handlerRegistered == s.handlerRegistered
    ensures EntryInv(s) ==> EntryInv(r)
  {
    if s.destroyed then s
    else if s.conn.Some? then
      s.(destroyed := true, closes := s.closes + [if async then Async else Sync])
    else
      s.(destroyed := true)
  }

  /** `decRef()` undoes `incRef()`. */
  lemma DecRefUndoesIncRef(s: EntryState)
    ensures DecRef(IncRef(s)) == s
  {
  }

  /** Destroying twice is destroying once, whatever the modes. */
  lemma DestroyIdempotent(s: EntryState, async1: bool, async2: bool)
    ensures Destroy(Destroy(s, async1), async2) == Destroy(s, async1)
  {
  }

  /** Once destroyed, an entry is never connected again. */
  lemma DestroyedRefusesConnect(s: EntryState, async: bool, outcome: ConnectOutcome)
    ensures WaitConnected(Destroy(s, async), outcome) == WaitResult(Destroy(s, async), Fail(ShutdownInProgress))
  {
  }

  /** After one waiter's attempt succeeds, every later waiter reuses the handle with no factory call. */
  lemma ConnectOnce(s: EntryState, first: ConnectOutcome, later: ConnectOutcome)
    requires WaitConnected(s, first).status.Pass?
    ensures WaitConnected(WaitConnected(s, first).state, later)
            == WaitResult(WaitConnected(s, first).state, Pass)
  {
  }

  /** After one waiter's attempt fails, the next waiter makes a fresh attempt. */
  lemma FailedAttemptIsRetried(s: EntryState, first: ConnectOutcome, later: ConnectOutcome)
    requires !s.destroyed && s.conn.None? && first.Failed?
    ensures WaitConnected(WaitConnected(s, first).state, later).state.attempts == s.attempts + 2
  {
  }

  /** The reference taken before a failed wait and given back after it leaves the count as it was. */
  lemma FailedAcquireNetZero(s: EntryState, outcome: ConnectOutcome)
    requires WaitConnected(IncRef(s), outcome).status.Fail?
    ensures DecRef(WaitConnected(IncRef(s), outcome).state).refCount == s.refCount
  {
  }

  /** One call on an entry, for stating properties of histories of calls. */
  datatype EntryCall =
    | CallIncRef
    | CallDecRef
    | CallWaitConnected(outcome: ConnectOutcome)
    | CallDestroy(async: bool)

  function Step(s: EntryState, c: EntryCall): EntryState {
    match c
    case CallIncRef => IncRef(s)
    case CallDecRef => DecRef(s)
    case CallWaitConnected(o) => WaitConnected(s, o).state
    case CallDestroy(a) => Destroy(s, a)
  }

  /** The state after the calls `cs`, in order. */
  function Run(s: EntryState, cs: seq<EntryCall>): EntryState
    decreases |cs|
  {
    if cs == [] then s else Run(Step(s, cs[0]), cs[1..])
  }

  /** The number of `incRef` minus the number of `decRef` calls in `cs`. */
  function NetRefs(cs: seq<EntryCall>): int
    decreases |cs|
  {
    if cs == [] then 0
    else (match cs[0] case CallIncRef => 1 case CallDecRef => -1 case _ => 0) + NetRefs(cs[1..])
  }

  /**
   * Over any history of calls: the invariant is kept; the count moves by
   * exactly one per `incRef` and `decRef`; a published handle is never
   * replaced and a connected entry never calls the factory again; a destroyed
   * entry stays destroyed, is never connected and never calls the factory;
   * close calls are only ever appended, so at most one is ever made.
   */
  lemma {:induction false} EntryLifetime(s: EntryState, cs: seq<EntryCall>)
    requires EntryInv(s)
    ensures var t := Run(s, cs);
      && EntryInv(t)
      && t.refCount == s.refCount + NetRefs(cs)
      && (s.conn.Some? ==> t.conn == s.conn && t.attempts == s.attempts)
      && (s.destroyed ==> t.destroyed && t.conn == s.conn && t.attempts == s.attempts)
      && s.closes <= t.closes
      && |t.closes| <= 1
    decreases |cs|
  {
    if cs != [] {
      var s' := Step(s, cs[0]);
      assert EntryInv(s');
      EntryLifetime(s', cs[1..]);
    }
  }
}
