/**
 * Java's 32-bit `int` arithmetic and the hash code of `java.lang.String`.
 * Overflow is modelled explicitly: every `int` result is reduced modulo 2^32
 * into the two's-complement range.
 */
module JavaInt {

  const TWO_32: int := 0x1_0000_0000

  /** Java `int`. */
  type Int32 = x: int | -0x8000_0000 <= x < 0x8000_0000

  /** Java `char`: one UTF-16 code unit. */
  type Char16 = c: int | 0 <= c < 0x1_0000

  /** A non-null `java.lang.String`, as its sequence of UTF-16 code units. */
  type JavaString = seq<Char16>

  /** x and y are equal modulo 2^32, i.e. indistinguishable as Java ints. */
  ghost predicate Congruent(x: int, y: int) {
    (x - y) % TWO_32 == 0
  }

  /** The Java `int` that an exact integer result overflows to. */
  function Wrap(x: int): (r: Int32)
    ensures Congruent(r, x)
  {
    (x + 0x8000_0000) % TWO_32 - 0x8000_0000
  }

  /** Java `a * b` on ints. */
  function Mul32(a: Int32, b: Int32): Int32 {
    Wrap(a * b)
  }

  /** Java `a + b` on ints. */
  function Add32(a: Int32, b: Int32): Int32 {
    Wrap(a + b)
  }

  /** One step of the `31 * result + h` accumulation used by Java hash codes. */
  function HashStep(acc: Int32, h: Int32): Int32 {
    Add32(Mul32(31, acc), h)
  }

  lemma MultipleIsCongruent(x: int, y: int, q: int)
    requires x - y == TWO_32 * q
    ensures Congruent(x, y)
  {
  }

  lemma CongruentHasQuotient(x: int, y: int)
    requires Congruent(x, y)
    ensures x - y == TWO_32 * ((x - y) / TWO_32)
  {
  }

  lemma CongruentTrans(x: int, y: int, z: int)
    requires Congruent(x, y) && Congruent(y, z)
    ensures Congruent(x, z)
  {
    CongruentHasQuotient(x, y);
    CongruentHasQuotient(y, z);
    var q1, q2 := (x - y) / TWO_32, (y - z) / TWO_32;
    MultipleIsCongruent(x, z, q1 + q2);
  }

  lemma CongruentHorner(x: int, y: int, h: int)
    requires Congruent(x, y)
    ensures Congruent(31 * x + h, 31 * y + h)
  {
    CongruentHasQuotient(x, y);
    var q := (x - y) / TWO_32;
    MultipleIsCongruent(31 * x + h, 31 * y + h, 31 * q);
  }

  /** Two ints that agree modulo 2^32 are the same int. */
  lemma Int32Congruent(a: Int32, b: Int32)
    requires Congruent(a, b)
    ensures a == b
  {
    CongruentHasQuotient(a, b);
  }

  /** Wrap depends only on its argument modulo 2^32. */
  lemma WrapCongruent(x: int, y: int)
    requires Congruent(x, y)
    ensures Wrap(x) == Wrap(y)
  {
    CongruentTrans(Wrap(x), x, y);
    assert Congruent(y, Wrap(y)) by {
      assert (y - Wrap(y)) == -(Wrap(y) - y);
    }
    CongruentTrans(Wrap(x), y, Wrap(y));
    Int32Congruent(Wrap(x), Wrap(y));
  }

  /** The two wrapping operations of `31 * acc + h` agree with one wrap of the exact value. */
  lemma {:induction false} HashStepCongruent(acc: Int32, x: int, h: Int32)
    requires Congruent(acc, x)
    ensures Congruent(HashStep(acc, h), 31 * x + h)
  {
    var m := Mul32(31, acc);
    // m == 31 * acc (mod 2^32), so m + h == 31 * acc + h == 31 * x + h
    assert Congruent(m + h, 31 * acc + h) by {
      CongruentHasQuotient(m, 31 * acc);
      MultipleIsCongruent(m + h, 31 * acc + h, (m - 31 * acc) / TWO_32);
    }
    CongruentHorner(acc, x, h);
    CongruentTrans(m + h, 31 * acc + h, 31 * x + h);
    CongruentTrans(HashStep(acc, h), m + h, 31 * x + h);
  }

  /** 31 to the power n. */
  function Pow31(n: nat): nat {
    if n == 0 then 1 else 31 * Pow31(n - 1)
  }

  /** The exact polynomial s[0]*31^(n-1) + s[1]*31^(n-2) + ... + s[n-1]. */
  function PolyHash(s: seq<int>): int {
    if |s| == 0 then 0 else s[0] * Pow31(|s| - 1) + PolyHash(s[1..])
  }

  /** The polynomial in Horner form: appending a term multiplies the rest by 31. */
  lemma {:induction false} PolyHashAppend(s: seq<int>, c: int)
    ensures PolyHash(s + [c]) == 31 * PolyHash(s) + c
  {
    if |s| == 0 {
      assert s + [c] == [c];
      assert [c][1..] == [];
    } else {
      var t := s + [c];
      assert t[0] == s[0];
      assert t[1..] == s[1..] + [c];
      PolyHashAppend(s[1..], c);
      assert Pow31(|t| - 1) == 31 * Pow31(|s| - 1);
      assert s[0] * Pow31(|t| - 1) == 31 * (s[0] * Pow31(|s| - 1));
    }
  }

  /**
   * The `result = 31 * result + h` accumulation over a sequence of int terms,
   * starting from 0. In int arithmetic it is the exact polynomial
   * hs[0]*31^(n-1) + ... + hs[n-1] reduced to a Java int.
   */
  function HashFold(hs: seq<Int32>): (r: Int32)
    ensures r == Wrap(PolyHash(hs))
  {
    if |hs| == 0 then 0
    else
      var p, c := hs[..|hs| - 1], hs[|hs| - 1];
      var acc := HashFold(p);
      assert hs == p + [c];
      // acc == Wrap(PolyHash(p)), so acc == PolyHash(p) (mod 2^32)
      HashStepCongruent(acc, PolyHash(p), c);
      PolyHashAppend(p, c);
      WrapCongruent(HashStep(acc, c), PolyHash(hs));
      Int32Congruent(Wrap(HashStep(acc, c)), HashStep(acc, c));
      HashStep(acc, c)
  }

  /**
   * `String.hashCode()`: `h = 31 * h + value[i]` over the code units, in int
   * arithmetic; it is the documented s[0]*31^(n-1) + ... + s[n-1] reduced to an int.
   */
  function StringHashCode(s: JavaString): (r: Int32)
    ensures r == Wrap(PolyHash(s))
  {
    HashFold(s)
  }
}
