/** The C-level vocabulary the plugin code is written in: 32-bit signed
    integers, C's truncating integer division, the conversion of a signed
    value to `unsigned int`, nullable pointers and optional arguments. */
module CTypes {

  const INT32_MIN: int := -0x8000_0000
  const INT32_MAX: int := 0x7fff_ffff
  const UINT32_MODULUS: int := 0x1_0000_0000

  /** A C `int` on the platforms the plugin targets. */
  newtype int32 = x: int | INT32_MIN <= x <= INT32_MAX

  /** An optional value; used for nullable `char*` arguments. */
  datatype Option<+T> = None | Some(value: T)

  /** A pointer-valued C object (`mtl_handle`, `void*`, a function pointer),
      seen only through its identity. */
  datatype Ptr = Null | At(addr: nat)

  function Abs(x: int): (a: nat)
    ensures a == x || a == -x
  {
    if x < 0 then -x else x
  }

  /** C's `/` on integers: the quotient is truncated toward zero
      (section 6.5.5 of ISO/IEC 9899:1999). The two ensures are the
      standard's definition: the remainder `a - b*q` is smaller in magnitude
      than the divisor and is zero or has the sign of the dividend. */
  function TruncDiv(a: int, b: int): (q: int)
    requires b != 0
    ensures Abs(a - b * q) < Abs(b)
    ensures a - b * q == 0 || (a - b * q < 0 <==> a < 0)
    ensures Abs(q) <= Abs(a)
  {
    TruncDivRemainder(a, b);
    if a >= 0 then a / b else -((-a) / b)
  }

  /** The remainder left by the magnitude quotient `Abs(a) / b`, with its
      sign put back, is the remainder of the truncated division. */
  lemma TruncDivRemainder(a: int, b: int)
    requires b != 0
    ensures var q := if a >= 0 then a / b else -((-a) / b);
      && Abs(a - b * q) < Abs(b)
      && (a - b * q == 0 || (a - b * q < 0 <==> a < 0))
      && Abs(q) <= Abs(a)
  {
    var m := Abs(a);
    var q0, r0 := m / b, m % b;
    assert m == b * q0 + r0 && 0 <= r0 < Abs(b);
    QuotientBound(m, b);
    if a >= 0 {
      assert a - b * q0 == r0;
    } else {
      assert a - b * (-q0) == -r0;
    }
  }

  /** Dafny's `/` on a non-negative dividend agrees with C's and does not
      grow the magnitude. */
  lemma QuotientBound(m: nat, b: int)
    requires b != 0
    ensures Abs(m / b) <= m
  {
    var q := m / b;
    var r := m % b;
    assert m == b * q + r && 0 <= r;
    if b > 0 {
      assert q >= 0;
      MulAtLeast(q, b);
    } else {
      assert q <= 0;
      MulAtLeast(-q, -b);
      assert b * q == (-b) * (-q);
    }
  }

  lemma MulAtLeast(x: nat, n: nat)
    requires n >= 1
    ensures x <= n * x
  {
    assert n * x == x + (n - 1) * x;
  }

  /** Where C's quotient agrees with Dafny's, and where its sign is forced
      negative by operands of opposite signs. */
  lemma TruncDivSigns(a: int, b: int)
    requires b != 0
    ensures a >= 0 && b > 0 ==> TruncDiv(a, b) == a / b
    ensures a < 0 && b < 0 ==> TruncDiv(a, b) == (-a) / (-b)
    ensures (a < 0) != (b < 0) && Abs(a) >= Abs(b) ==> TruncDiv(a, b) < 0
    ensures Abs(a) < Abs(b) ==> TruncDiv(a, b) == 0
  {
    if Abs(a) < Abs(b) {
      SmallQuotient(Abs(a), b);
    }
    if a < 0 && b < 0 {
      var e, r := (-a) / (-b), (-a) % (-b);
      assert -a == b * (-e) + r && 0 <= r < Abs(b);
      DivUnique(-a, b, -e, r);
    }
  }

  /** Dafny's `/` is the one quotient leaving a remainder in `[0, |b|)`. */
  lemma DivUnique(m: int, b: int, q: int, r: int)
    requires b != 0 && m == b * q + r && 0 <= r < Abs(b)
    ensures q == m / b
  {
    var e, r0 := m / b, m % b;
    assert m == b * e + r0 && 0 <= r0 < Abs(b);
    var d := q - e;
    assert b * d == b * q - b * e;
    if d != 0 {
      ProductAtLeastFactor(b, d);
      assert false;
    }
  }

  lemma ProductAtLeastFactor(b: int, d: int)
    requires d != 0
    ensures Abs(b * d) >= Abs(b)
  {
    MulAtLeast(Abs(b), Abs(d));
    if b < 0 && d < 0 { assert b * d == Abs(d) * Abs(b); }
    else if b < 0 { assert b * d == -(Abs(d) * Abs(b)); }
    else if d < 0 { assert b * d == -(Abs(d) * Abs(b)); }
    else { assert b * d == Abs(d) * Abs(b); }
  }

  lemma SmallQuotient(m: nat, b: int)
    requires m < Abs(b)
    ensures m / b == 0
  {
    var q := m / b;
    assert m == b * q + m % b && 0 <= m % b < Abs(b);
  }

  /** The conversion of a C `int` value to `unsigned int`: the unique
      value in `[0, 2^32)` congruent to `x` modulo 2^32 (section 6.3.1.3
      of ISO/IEC 9899:1999). */
  function ToUint32(x: int): (u: nat)
    requires INT32_MIN <= x <= INT32_MAX
    ensures u < UINT32_MODULUS
    ensures (u - x) % UINT32_MODULUS == 0
    ensures x >= 0 ==> u == x
    ensures x < 0 ==> u >= 0x8000_0000
  {
    if x < 0 then x + UINT32_MODULUS else x
  }

  /** `strncpy(dst, src, n)` followed by reading `dst` back as a string:
      at most the first `n` characters of `src` survive. */
  function Truncate(s: string, n: nat): (t: string)
    ensures |t| <= n
    ensures |t| == if |s| <= n then |s| else n
    ensures t <= s
  {
    if |s| <= n then s else s[..n]
  }
}
