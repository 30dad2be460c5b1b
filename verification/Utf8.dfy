/** UTF-8 (RFC 3629) on strings of Unicode scalar values: `str.encode` and strict `bytes.decode`. */
module Utf8 {
  import opened Bytes

  function EncodeChar(c: char): (b: bytes)
    ensures 1 <= |b| <= 4
  {
    var n := c as int;
    if n < 0x80 then [n]
    else if n < 0x800 then [0xC0 + n / 64, 0x80 + n % 64]
    else if n < 0x1_0000 then [0xE0 + n / 4096, 0x80 + n / 64 % 64, 0x80 + n % 64]
    else [0xF0 + n / 262144, 0x80 + n / 4096 % 64, 0x80 + n / 64 % 64, 0x80 + n % 64]
  }

  function EncodeUtf8(s: string): (b: bytes)
    ensures |s| <= |b| <= 4 * |s|
  {
    if s == [] then [] else EncodeChar(s[0]) + EncodeUtf8(s[1..])
  }

  predicate Continuation(b: byte) { 0x80 <= b <= 0xBF }

  function Code2(a: int, b: int): int { (a - 0xC0) * 64 + (b - 0x80) }

  function Code3(a: int, b: int, c: int): int { (a - 0xE0) * 4096 + (b - 0x80) * 64 + (c - 0x80) }

  function Code4(a: int, b: int, c: int, d: int): int
  {
    (a - 0xF0) * 262144 + (b - 0x80) * 4096 + (c - 0x80) * 64 + (d - 0x80)
  }

  /** The first character and its width: no overlong forms, no surrogates, nothing above U+10FFFF. */
  function DecodeChar(b: bytes): (r: Option<(char, nat)>)
    requires b != []
    ensures r.Some? ==> 1 <= r.value.1 <= |b|
  {
    if b[0] < 0x80 then Some((b[0] as char, 1))
    else if 0xC2 <= b[0] <= 0xDF && |b| >= 2 && Continuation(b[1]) then Some((Code2(b[0], b[1]) as char, 2))
    else if 0xE0 <= b[0] <= 0xEF && |b| >= 3 && Continuation(b[1]) && Continuation(b[2])
            && (b[0] == 0xE0 ==> b[1] >= 0xA0) && (b[0] == 0xED ==> b[1] <= 0x9F) then
      Some((Code3(b[0], b[1], b[2]) as char, 3))
    else if 0xF0 <= b[0] <= 0xF4 && |b| >= 4 && Continuation(b[1]) && Continuation(b[2]) && Continuation(b[3])
            && (b[0] == 0xF0 ==> b[1] >= 0x90) && (b[0] == 0xF4 ==> b[1] <= 0x8F) then
      Some((Code4(b[0], b[1], b[2], b[3]) as char, 4))
    else None
  }

  function DecodeUtf8(b: bytes): Option<string>
    decreases |b|
  {
    if b == [] then Some([])
    else
      match DecodeChar(b)
      case None => None
      case Some((c, n)) =>
        match DecodeUtf8(b[n..])
        case None => None
        case Some(rest) => Some([c] + rest)
  }

  lemma {:induction false} Nested(n: nat)
    ensures n / 64 / 64 == n / 4096
  {
    var q, r := n / 4096, n % 4096;
    assert n == 64 * (64 * q) + r;
    assert n / 64 == 64 * q + r / 64;
    assert 0 <= r / 64 < 64;
  }

  lemma {:induction false} Nested3(n: nat)
    ensures n / 4096 / 64 == n / 262144
  {
    var q, r := n / 262144, n % 262144;
    assert n == 4096 * (64 * q) + r;
    assert n / 4096 == 64 * q + r / 4096;
    assert 0 <= r / 4096 < 64;
  }

  /** Base-64 digits of a code point. */
  lemma {:induction false} Digits(n: nat)
    ensures n == n / 64 * 64 + n % 64
    ensures n == n / 4096 * 4096 + n / 64 % 64 * 64 + n % 64
    ensures n == n / 262144 * 262144 + n / 4096 % 64 * 4096 + n / 64 % 64 * 64 + n % 64
  {
    Nested(n);
    Nested3(n);
    var a, b, c := n / 64, n / 4096, n / 262144;
    assert n == a * 64 + n % 64;
    assert a == b * 64 + a % 64;
    assert b == c * 64 + b % 64;
  }

  lemma {:induction false} CharRoundTrip(c: char, rest: bytes)
    ensures DecodeChar(EncodeChar(c) + rest) == Some((c, |EncodeChar(c)|))
  {
    var n: int := c as int;
    var b := EncodeChar(c) + rest;
    Digits(n);
    if n < 0x80 {
      assert b[0] == n;
    } else if n < 0x800 {
      assert b[0] == 0xC0 + n / 64 && b[1] == 0x80 + n % 64;
      assert Code2(b[0], b[1]) == n;
    } else if n < 0x1_0000 {
      assert b[0] == 0xE0 + n / 4096 && b[1] == 0x80 + n / 64 % 64 && b[2] == 0x80 + n % 64;
      assert Code3(b[0], b[1], b[2]) == n;
      LeadByte3(n);
    } else {
      assert b[0] == 0xF0 + n / 262144 && b[1] == 0x80 + n / 4096 % 64;
      assert b[2] == 0x80 + n / 64 % 64 && b[3] == 0x80 + n % 64;
      assert Code4(b[0], b[1], b[2], b[3]) == n;
      LeadByte4(n);
    }
  }

  lemma {:induction false} LeadByte3(n: nat)
    requires 0x800 <= n < 0xD800 || 0xE000 <= n < 0x1_0000
    ensures n / 4096 <= 15
    ensures n / 4096 == 0 ==> n / 64 % 64 >= 0x20
    ensures n / 4096 == 13 ==> n / 64 % 64 <= 0x1F
  {
    Digits(n);
  }

  lemma {:induction false} LeadByte4(n: nat)
    requires 0x1_0000 <= n < 0x11_0000
    ensures n / 262144 <= 4
    ensures n / 262144 == 0 ==> n / 4096 % 64 >= 0x10
    ensures n / 262144 == 4 ==> n / 4096 % 64 <= 0x0F
  {
    Digits(n);
  }

  /** Strict decoding inverts encoding. */
  lemma {:induction false} Utf8RoundTrip(s: string)
    ensures DecodeUtf8(EncodeUtf8(s)) == Some(s)
  {
    if s == [] {
    } else {
      CharRoundTrip(s[0], EncodeUtf8(s[1..]));
      Utf8RoundTrip(s[1..]);
      assert EncodeUtf8(s)[|EncodeChar(s[0])|..] == EncodeUtf8(s[1..]);
      assert [s[0]] + s[1..] == s;
    }
  }
}
