/** Bitwise operators on unbounded naturals, and JavaScript's 32-bit wrappers around them. */
module Bits {

  function Pow2(n: nat): (p: nat)
    ensures p >= 1
  {
    if n == 0 then 1 else 2 * Pow2(n - 1)
  }

  function Or(x: nat, y: nat): nat
    decreases x + y
  {
    if x == 0 && y == 0 then 0
    else (if x % 2 == 1 || y % 2 == 1 then 1 else 0) + 2 * Or(x / 2, y / 2)
  }

  function And(x: nat, y: nat): nat
    decreases x + y
  {
    if x == 0 || y == 0 then 0
    else (if x % 2 == 1 && y % 2 == 1 then 1 else 0) + 2 * And(x / 2, y / 2)
  }

  function Shl(x: nat, k: nat): nat { x * Pow2(k) }

  function Shr(x: nat, k: nat): nat
  {
    DivNonNegative(x, Pow2(k));
    x / Pow2(k)
  }

  lemma {:induction false} DivNonNegative(x: nat, m: nat)
    requires m > 0
    ensures x / m >= 0
  {
  }

  const TWO_31: int := 0x8000_0000
  const TWO_32: int := 0x1_0000_0000

  /** ECMAScript ToUint32. */
  function ToUint32(x: int): (u: nat)
    ensures u < 0x1_0000_0000
  {
    x % TWO_32
  }

  /** ECMAScript ToInt32. */
  function ToInt32(x: int): int
  {
    var u := ToUint32(x);
    if u >= TWO_31 then u - TWO_32 else u
  }

  /** The `<<` operator on Numbers: both sides are 32-bit, the result is signed. */
  function JsShl(x: int, k: nat): int { ToInt32(Shl(ToUint32(x), k)) }

  /** The `|` operator on Numbers: both sides are 32-bit, the result is signed. */
  function JsOr(x: int, y: int): int { ToInt32(Or(ToUint32(x), ToUint32(y))) }

  /** The `&` operator on Numbers: both sides are 32-bit, the result is signed. */
  function JsAnd(x: int, y: int): int { ToInt32(And(ToUint32(x), ToUint32(y))) }

  /** The `>>` operator on Numbers: the sign is kept. */
  function JsShr(x: int, k: nat): int { ToInt32(x) / Pow2(k) }

  /** The `>>>` operator on Numbers: the operand is taken as unsigned. */
  function JsUShr(x: int, k: nat): nat { Shr(ToUint32(x), k) }

  /** Conversion of a Number to an element of a byte array. */
  function ToUint8(x: int): (b: nat)
    ensures b < 256
  {
    x % 256
  }

  lemma {:induction false} OrZero(x: nat)
    ensures Or(0, x) == x && Or(x, 0) == x
    decreases x
  {
    if x == 0 {
    } else {
      OrZero(x / 2);
    }
  }

  /** Or with disjoint bits is addition. */
  lemma {:induction false} OrDisjoint(x: nat, y: nat, k: nat)
    requires y < Pow2(k)
    ensures Or(x * Pow2(k), y) == x * Pow2(k) + y
    decreases k
  {
    var p := x * Pow2(k);
    if k == 0 {
      OrZero(p);
    } else {
      var h := x * Pow2(k - 1);
      assert p == 2 * h by {
        assert Pow2(k) == 2 * Pow2(k - 1);
      }
      OrDisjoint(x, y / 2, k - 1);
      assert p / 2 == h && p % 2 == 0;
    }
  }

  lemma {:induction false} ModDouble(x: nat, m: nat)
    requires m > 0
    ensures x % (2 * m) == x % 2 + 2 * ((x / 2) % m)
  {
    var q, r := (x / 2) / m, (x / 2) % m;
    assert x / 2 == q * m + r;
    var t := 2 * r + x % 2;
    assert x == q * (2 * m) + t;
    assert 0 <= t < 2 * m;
    ModUnique(x, 2 * m, q, t);
  }

  lemma {:induction false} MulAtLeast(k: int, m: int)
    requires k >= 1 && m > 0
    ensures k * m >= m
  {
  }

  lemma {:induction false} ModUnique(x: int, m: int, q: int, t: int)
    requires 0 <= t < m && x == q * m + t
    ensures x % m == t && x / m == q
  {
    var q', t' := x / m, x % m;
    assert x == q' * m + t' && 0 <= t' < m;
    assert (q - q') * m == t' - t;
    if q > q' {
      MulAtLeast(q - q', m);
    } else if q < q' {
      MulAtLeast(q' - q, m);
    }
  }

  /** And with an all-ones mask keeps the low bits. */
  lemma {:induction false} AndMask(x: nat, k: nat)
    ensures And(x, Pow2(k) - 1) == x % Pow2(k)
    decreases k
  {
    if k == 0 {
    } else if x == 0 {
      ModUnique(0, Pow2(k), 0, 0);
    } else {
      var m := Pow2(k - 1);
      AndMask(x / 2, k - 1);
      ModDouble(x, m);
      assert Pow2(k) - 1 == 2 * m - 1;
      assert (2 * m - 1) % 2 == 1 && (2 * m - 1) / 2 == m - 1;
    }
  }

  /** The values of the powers used by the codec. */
  lemma {:induction false} Powers()
    ensures Pow2(5) == 32 && Pow2(8) == 0x100 && Pow2(16) == 0x1_0000 && Pow2(24) == 0x100_0000
  {
    assert Pow2(4) == 16 && Pow2(5) == 32 && Pow2(8) == 256;
    assert Pow2(12) == 4096;
    assert Pow2(16) == 65536;
    assert Pow2(20) == 1048576;
    assert Pow2(24) == 16777216;
  }

  /** `v & 0xff` is the low byte. */
  lemma {:induction false} LowByte(v: nat)
    ensures And(v, 0xFF) == v % 256
  {
    AndMask(v, 8);
    Powers();
  }

  lemma {:induction false} Shifts(v: nat)
    ensures Shr(v, 8) == v / 0x100 && Shr(v, 16) == v / 0x1_0000 && Shr(v, 24) == v / 0x100_0000
    ensures Shl(v, 5) == v * 32 && Shl(v, 8) == v * 0x100
    ensures Shl(v, 16) == v * 0x1_0000 && Shl(v, 24) == v * 0x100_0000
  {
    Powers();
  }

  /** `hi * 2^k | lo` for the shift widths of the codec. */
  lemma {:induction false} OrBits(hi: nat, lo: nat)
    ensures lo < 32 ==> Or(hi * 32, lo) == hi * 32 + lo
    ensures lo < 0x100 ==> Or(hi * 0x100, lo) == hi * 0x100 + lo
    ensures lo < 0x1_0000 ==> Or(hi * 0x1_0000, lo) == hi * 0x1_0000 + lo
    ensures lo < 0x100_0000 ==> Or(hi * 0x100_0000, lo) == hi * 0x100_0000 + lo
  {
    Powers();
    if lo < 32 { OrDisjoint(hi, lo, 5); }
    if lo < 0x100 { OrDisjoint(hi, lo, 8); }
    if lo < 0x1_0000 { OrDisjoint(hi, lo, 16); }
    if lo < 0x100_0000 { OrDisjoint(hi, lo, 24); }
  }
}
