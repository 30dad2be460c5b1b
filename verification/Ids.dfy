/** Hexadecimal identifiers and TCert ids `keyId:certificateNumber`. */
module Ids {
  import opened Bytes

  /* ------------------------------------- hex ------------------------------------ */

  function HexDigit(d: int): char
    requires 0 <= d < 16
  {
    if d < 10 then '0' + d as char else 'a' + (d - 10) as char
  }

  function HexValue(c: char): int
  {
    if '0' <= c <= '9' then (c - '0') as int
    else if 'a' <= c <= 'f' then (c - 'a') as int + 10
    else if 'A' <= c <= 'F' then (c - 'A') as int + 10
    else -1
  }

  function ToHex(b: bytes): (s: string)
    ensures |s| == 2 * |b|
    ensures forall i :: 0 <= i < |s| ==> HexValue(s[i]) >= 0
  {
    if b == [] then [] else [HexDigit(b[0] / 16), HexDigit(b[0] % 16)] + ToHex(b[1..])
  }

  /** `fromHex`: only an even number of hexadecimal digits is accepted. */
  function FromHex(s: string): Result<bytes>
  {
    if s == [] then Ok([])
    else if |s| == 1 || HexValue(s[0]) < 0 || HexValue(s[1]) < 0 then Err(ParseError)
    else
      var rest :- FromHex(s[2..]);
      var b: byte := HexValue(s[0]) * 16 + HexValue(s[1]);
      Ok([b] + rest)
  }

  lemma {:induction false} HexDigitValue(d: int)
    requires 0 <= d < 16
    ensures HexValue(HexDigit(d)) == d
  {
  }

  lemma {:induction false} HexRoundTrip(b: bytes)
    ensures FromHex(ToHex(b)) == Ok(b)
  {
    if b == [] {
    } else {
      HexRoundTrip(b[1..]);
      var s := ToHex(b);
      HexDigitValue(b[0] / 16);
      HexDigitValue(b[0] % 16);
      assert s[0] == HexDigit(b[0] / 16) && s[1] == HexDigit(b[0] % 16) && s[2..] == ToHex(b[1..]);
      assert [b[0]] + b[1..] == b;
    }
  }

  /* ---------------------------------- TCert ids --------------------------------- */

  type KeyId = string
  type TcertId = string

  function DigitChar(d: int): char
    requires 0 <= d < 10
  {
    '0' + d as char
  }

  /** Decimal digits of a number, as string interpolation writes them. */
  function Decimal(n: nat): (s: string)
    ensures |s| >= 1
  {
    if n < 10 then [DigitChar(n)] else Decimal(n / 10) + [DigitChar(n % 10)]
  }

  /** The value of a digit string; `None` when something else than a digit occurs. */
  function ParseDecimal(s: string): Option<nat>
  {
    if s == [] then Some(0)
    else
      var last := s[|s| - 1];
      match ParseDecimal(s[..|s| - 1])
      case None => None
      case Some(hi) => if '0' <= last <= '9' then Some(hi * 10 + (last - '0') as int) else None
  }

  function IntString(n: int): string { if n < 0 then "-" + Decimal(-n) else Decimal(n) }

  function TcertIdOf(keyId: KeyId, n: int): TcertId { keyId + ":" + IntString(n) }

  /** Position of the first `c`, or the length when there is none. */
  function IndexOf(s: string, c: char): (i: nat)
    ensures i <= |s|
    ensures i < |s| ==> s[i] == c
    ensures c !in s[..i]
  {
    if s == [] then 0
    else if s[0] == c then 0
    else
      var i := 1 + IndexOf(s[1..], c);
      assert s[..i] == [s[0]] + s[1..][..i - 1];
      i
  }

  /** `splitTcertId`: key id before the first colon, a number in 1..255 after it. */
  function SplitTcertId(id: TcertId): Result<(KeyId, nat)>
  {
    var i := IndexOf(id, ':');
    if i == 0 || i == |id| then Err(ParseError)
    else
      match ParseDecimal(id[i + 1..])
      case None => Err(ParseError)
      case Some(n) => if i + 1 < |id| && 1 <= n <= 255 then Ok((id[..i], n)) else Err(ParseError)
  }

  lemma {:induction false} DecimalRoundTrip(n: nat)
    ensures ParseDecimal(Decimal(n)) == Some(n)
    ensures forall i :: 0 <= i < |Decimal(n)| ==> '0' <= Decimal(n)[i] <= '9'
  {
    var s := Decimal(n);
    if n < 10 {
      assert s[..0] == [];
    } else {
      DecimalRoundTrip(n / 10);
      assert s[..|s| - 1] == Decimal(n / 10);
    }
  }

  lemma {:induction false} IndexOfSplit(a: string, c: char, b: string)
    requires c !in a
    ensures IndexOf(a + [c] + b, c) == |a|
  {
    if a == [] {
    } else {
      IndexOfSplit(a[1..], c, b);
      assert (a + [c] + b)[1..] == a[1..] + [c] + b;
    }
  }

  /** Splitting an id gives back the key id and the number it was made of. */
  lemma {:induction false} SplitInvertsJoin(keyId: KeyId, n: int)
    requires keyId != "" && ':' !in keyId
    ensures SplitTcertId(TcertIdOf(keyId, n)) == if 1 <= n <= 255 then Ok((keyId, n)) else Err(ParseError)
  {
    var id := TcertIdOf(keyId, n);
    IndexOfSplit(keyId, ':', IntString(n));
    assert id[|keyId| + 1..] == IntString(n);
    assert id[..|keyId|] == keyId;
    if n >= 0 {
      DecimalRoundTrip(n);
    } else {
      MinusIsNoDigit(Decimal(-n));
    }
  }

  lemma {:induction false} MinusIsNoDigit(s: string)
    ensures ParseDecimal("-" + s).None?
  {
    var t := "-" + s;
    if s == [] {
      assert t[..0] == [] && t[0] == '-';
    } else {
      MinusIsNoDigit(s[..|s| - 1]);
      assert t[..|t| - 1] == "-" + s[..|s| - 1];
    }
  }

  lemma {:induction false} IntStringInjective(m: int, n: int)
    requires IntString(m) == IntString(n)
    ensures m == n
  {
    DecimalRoundTrip(if m < 0 then -m else m);
    DecimalRoundTrip(if n < 0 then -n else n);
    assert (IntString(m)[0] == '-') <==> m < 0;
    assert (IntString(n)[0] == '-') <==> n < 0;
    if m < 0 && n < 0 {
      assert IntString(m)[1..] == Decimal(-m) && IntString(n)[1..] == Decimal(-n);
    }
  }

  /** Ids of one key are told apart by their numbers, and ids of different keys never meet. */
  lemma {:induction false} TcertIdInjective(k: KeyId, m: int, l: KeyId, n: int)
    requires ':' !in k && ':' !in l && TcertIdOf(k, m) == TcertIdOf(l, n)
    ensures k == l && m == n
  {
    IndexOfSplit(k, ':', IntString(m));
    IndexOfSplit(l, ':', IntString(n));
    var id := TcertIdOf(k, m);
    assert id[..|k|] == k && id[..|l|] == l;
    assert id[|k| + 1..] == IntString(m) && id[|l| + 1..] == IntString(n);
    IntStringInjective(m, n);
  }

  /** Key ids are hexadecimal, so they contain no colon and no bar. */
  lemma {:induction false} HexHasNoSeparators(b: bytes)
    ensures ':' !in ToHex(b) && '|' !in ToHex(b)
  {
    assert HexValue(':') == -1 && HexValue('|') == -1;
  }
}
