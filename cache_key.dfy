/**
 * The identity of a pooled connection: the six-field `CacheKey` of the pool,
 * with Java's null-safe structural `equals` and the `31 *` `hashCode`.
 *
 * The collaborator classes (`Endpoint`, `OptionMap`, `CallbackHandler`) are not
 * part of this model. An object of such a class is represented by what its own
 * `equals` distinguishes, together with the hash code it reports; Java's
 * equals/hashCode contract (equal objects report equal hash codes) is what
 * makes this representation sound, and it makes each field's `equals` the
 * value equality of its representation.
 */
module CacheKeys {
  import opened Wrappers
  import opened JavaInt

  /** A remoting `Endpoint`, up to its own `equals`, with its `hashCode()`. */
  datatype Endpoint = Endpoint(identity: nat, hash: Int32)

  /** An xnio `OptionMap`, up to its own `equals`, with its `hashCode()`. */
  datatype OptionMap = OptionMap(contents: nat, hash: Int32)

  /** A `CallbackHandler`, up to its own `equals`, with its `hashCode()`. */
  datatype CallbackHandler = CallbackHandler(identity: nat, hash: Int32)

  /** `x != null ? x.equals(y) : y == null`, where `equals(null)` is false. */
  function NullSafeEquals<T(==)>(x: Option<T>, y: Option<T>): (r: bool)
    ensures r <==> x == y
  {
    match x
    case Some(v) => y.Some? && v == y.value
    case None => y.None?
  }

  datatype CacheKey = CacheKey(
    endpoint: Option<Endpoint>,
    callbackHandler: Option<CallbackHandler>,
    connectOptions: Option<OptionMap>,
    host: Option<JavaString>,
    port: Int32,
    protocol: Option<JavaString>)
  {
    /**
     * `equals(Object o)`. The argument is `null` or another `CacheKey`; an
     * object of another class is not modelled. The `this == o` shortcut is
     * subsumed, since identical keys have identical fields.
     */
    function Equals(o: Option<CacheKey>): (r: bool)
      ensures r <==> o == Some(this)
      ensures r <==> o.Some? && o.value.port == port
                     && o.value.callbackHandler == callbackHandler
                     && o.value.connectOptions == connectOptions
                     && o.value.endpoint == endpoint
                     && o.value.host == host
                     && o.value.protocol == protocol
    {
      if o.None? then false
      else
        var that := o.value;
        if port != that.port then false
        else if !NullSafeEquals(callbackHandler, that.callbackHandler) then false
        else if !NullSafeEquals(connectOptions, that.connectOptions) then false
        else if !NullSafeEquals(endpoint, that.endpoint) then false
        else if !NullSafeEquals(host, that.host) then false
        else if !NullSafeEquals(protocol, that.protocol) then false
        else true
    }

    /** The hash code of each field, 0 for a null field, in the order `hashCode()` folds them. */
    function FieldHashes(): seq<Int32> {
      [ if endpoint.Some? then endpoint.value.hash else 0,
        if host.Some? then StringHashCode(host.value) else 0,
        port,
        if connectOptions.Some? then connectOptions.value.hash else 0,
        if callbackHandler.Some? then callbackHandler.value.hash else 0,
        if protocol.Some? then StringHashCode(protocol.value) else 0 ]
    }

    /**
     * `hashCode()`, statement by statement, in Java int arithmetic. It is the
     * accumulation of the field hash codes in the order endpoint, host, port,
     * options, callback handler, protocol, and therefore the polynomial
     * h0*31^5 + h1*31^4 + ... + h5 reduced to a Java int: overflow in the
     * intermediate steps loses nothing beyond that reduction.
     */
    function HashCode(): (r: Int32)
      ensures r == HashFold(FieldHashes())
      ensures r == Wrap(PolyHash(FieldHashes()))
    {
      var h := FieldHashes();
      FoldSix(h);
      var result := h[0];
      var result := HashStep(result, h[1]);
      var result := HashStep(result, h[2]);
      var result := HashStep(result, h[3]);
      var result := HashStep(result, h[4]);
      var result := HashStep(result, h[5]);
      result
    }
  }

  lemma EqualsReflexive(a: CacheKey)
    ensures a.Equals(Some(a))
  {
  }

  lemma EqualsSymmetric(a: CacheKey, b: CacheKey)
    ensures a.Equals(Some(b)) <==> b.Equals(Some(a))
  {
  }

  lemma EqualsTransitive(a: CacheKey, b: CacheKey, c: CacheKey)
    requires a.Equals(Some(b)) && b.Equals(Some(c))
    ensures a.Equals(Some(c))
  {
  }

  /** No key equals `null`. */
  lemma EqualsNull(a: CacheKey)
    ensures !a.Equals(None)
  {
  }

  /** Equal keys report equal hash codes, as the hash map holding them requires. */
  lemma HashCodeConsistent(a: CacheKey, b: CacheKey)
    requires a.Equals(Some(b))
    ensures a.HashCode() == b.HashCode()
  {
  }

  /** The first statement `result = h0` is the first accumulation step from 0. */
  lemma HashStepFromZero(h: Int32)
    ensures HashStep(0, h) == h
  {
    Int32Congruent(HashStep(0, h), h);
  }

  /** Unrolling the accumulation over six terms. */
  lemma FoldSix(h: seq<Int32>)
    requires |h| == 6
    ensures HashFold(h)
            == HashStep(HashStep(HashStep(HashStep(HashStep(h[0], h[1]), h[2]), h[3]), h[4]), h[5])
  {
    HashStepFromZero(h[0]);
    assert HashFold(h[..1]) == h[0] by {
      assert h[..1][..0] == [];
    }
    assert HashFold(h[..2]) == HashStep(h[0], h[1]) by {
      assert h[..2][..1] == h[..1];
    }
    assert HashFold(h[..3]) == HashStep(HashFold(h[..2]), h[2]) by {
      assert h[..3][..2] == h[..2];
    }
    assert HashFold(h[..4]) == HashStep(HashFold(h[..3]), h[3]) by {
      assert h[..4][..3] == h[..3];
    }
    assert HashFold(h[..5]) == HashStep(HashFold(h[..4]), h[4]) by {
      assert h[..5][..4] == h[..4];
    }
    assert h[..5] == h[..|h| - 1];
  }
}
