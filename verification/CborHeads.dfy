/** Initial bytes and arguments of CBOR items: the two encoders and the two readers. */
module CborHeads {
  import opened Bytes
  import opened Bits

  const MT_UINT := 0
  const MT_NINT := 1
  const MT_BYTES := 2
  const MT_TEXT := 3
  const MT_ARRAY := 4
  const MT_MAP := 5
  const MT_TAG := 6
  const MT_SIMPLE := 7

  const MAX_ARG: int := 0xFFFF_FFFF_FFFF_FFFF

  type major = m: int | 0 <= m < 8

  /** `n` bytes, most significant first. */
  function BigEndian(v: nat, n: nat): (b: bytes)
    ensures |b| == n
  {
    if n == 0 then [] else BigEndian(v / 256, n - 1) + [v % 256]
  }

  function FromBigEndian(b: bytes): nat
  {
    if b == [] then 0 else FromBigEndian(b[..|b| - 1]) * 256 + b[|b| - 1]
  }

  /** The shortest head (section 4.2.1 of RFC 8949), written arithmetically. */
  function Head(m: major, v: nat): (h: bytes)
    requires v <= MAX_ARG
    ensures 1 <= |h| <= 9
  {
    if v < 24 then [m * 32 + v]
    else if v <= 0xFF then [m * 32 + 24] + BigEndian(v, 1)
    else if v <= 0xFFFF then [m * 32 + 25] + BigEndian(v, 2)
    else if v <= 0xFFFF_FFFF then [m * 32 + 26] + BigEndian(v, 4)
    else [m * 32 + 27] + BigEndian(v, 8)
  }

  /* ---------------------------------- encoders ---------------------------------- */

  /** `_encode_head` of the Python codec, operator by operator. */
  function PyEncodeHead(m: major, v: int): Result<seq<int>>
  {
    var initial := Shl(m, 5);
    if v < 0 || v > MAX_ARG then Err(ParseError)
    else if v < 24 then Ok([Or(initial, v)])
    else if v <= 0xFF then Ok([Or(initial, 24), v])
    else if v <= 0xFFFF then Ok([Or(initial, 25), And(Shr(v, 8), 0xFF), And(v, 0xFF)])
    else if v <= 0xFFFF_FFFF then
      Ok([Or(initial, 26), And(Shr(v, 24), 0xFF), And(Shr(v, 16), 0xFF), And(Shr(v, 8), 0xFF), And(v, 0xFF)])
    else Ok([Or(initial, 27)] + BigEndian(v, 8))
  }

  lemma {:induction false} InitialByte(m: major, info: nat)
    requires info < 32
    ensures Or(Shl(m, 5), info) == m * 32 + info
  {
    Shifts(m);
    OrBits(m, info);
  }

  lemma {:induction false} Bytes2(v: nat)
    ensures BigEndian(v, 2) == [And(Shr(v, 8), 0xFF), And(v, 0xFF)]
  {
    Shifts(v);
    LowByte(v);
    LowByte(v / 0x100);
    assert BigEndian(v / 256, 1) == [v / 256 % 256];
  }

  lemma {:induction false} Bytes4(v: nat)
    ensures BigEndian(v, 4) == [And(Shr(v, 24), 0xFF), And(Shr(v, 16), 0xFF), And(Shr(v, 8), 0xFF), And(v, 0xFF)]
  {
    Shifts(v);
    LowByte(v);
    LowByte(v / 0x100);
    LowByte(v / 0x1_0000);
    LowByte(v / 0x100_0000);
    var a, b, c := v / 0x100, v / 0x1_0000, v / 0x100_0000;
    assert a / 256 == b && b / 256 == c;
    assert BigEndian(c, 1) == [c % 256];
    assert BigEndian(b, 2) == [c % 256, b % 256];
    assert BigEndian(a, 3) == [c % 256, b % 256, a % 256];
  }

  lemma {:induction false} OneByte(v: nat)
    requires v <= 0xFF
    ensures BigEndian(v, 1) == [v]
  {
    assert BigEndian(v, 1) == BigEndian(v / 256, 0) + [v % 256];
  }

  lemma {:induction false} PyHead8Bits(m: major, v: nat)
    requires 24 <= v <= 0xFF
    ensures PyEncodeHead(m, v) == Ok(Head(m, v))
  {
    InitialByte(m, 24);
    OneByte(v);
    assert Head(m, v) == [m * 32 + 24, v];
  }

  lemma {:induction false} PyHead16Bits(m: major, v: nat)
    requires 0xFF < v <= 0xFFFF
    ensures PyEncodeHead(m, v) == Ok(Head(m, v))
  {
    InitialByte(m, 25);
    Bytes2(v);
    assert Head(m, v) == [m * 32 + 25, And(Shr(v, 8), 0xFF), And(v, 0xFF)];
  }

  lemma {:induction false} PyHead32Bits(m: major, v: nat)
    requires 0xFFFF < v <= 0xFFFF_FFFF
    ensures PyEncodeHead(m, v) == Ok(Head(m, v))
  {
    InitialByte(m, 26);
    Bytes4(v);
    assert Head(m, v)
      == [m * 32 + 26, And(Shr(v, 24), 0xFF), And(Shr(v, 16), 0xFF), And(Shr(v, 8), 0xFF), And(v, 0xFF)];
  }

  /** The Python encoder produces the shortest head, and rejects exactly what does not fit. */
  lemma {:induction false} PyHeadIsShortestForm(m: major, v: int)
    ensures PyEncodeHead(m, v) == if 0 <= v <= MAX_ARG then Ok(Head(m, v)) else Err(ParseError)
  {
    if 0 <= v < 24 {
      InitialByte(m, v);
    } else if 24 <= v <= 0xFF {
      PyHead8Bits(m, v);
    } else if 0xFF < v <= 0xFFFF {
      PyHead16Bits(m, v);
    } else if 0xFFFF < v <= 0xFFFF_FFFF {
      PyHead32Bits(m, v);
    } else if 0xFFFF_FFFF < v <= MAX_ARG {
      InitialByte(m, 27);
    }
  }

  lemma {:induction false} BigEndianStep(v: nat, rest: nat, i: nat, tail: bytes)
    requires i >= 1 && BigEndian(v, 8) == BigEndian(rest, i) + tail
    ensures BigEndian(v, 8) == BigEndian(Shr(rest, 8), i - 1) + ([And(rest, 0xFF)] + tail)
  {
    LowByte(rest);
    Shifts(rest);
  }

  /** `initial | info`, as an element of the byte array. */
  function JsInitial(m: major, info: nat): byte { ToUint8(JsOr(JsShl(m, 5), info)) }

  /** The two argument bytes, with the operators of 32-bit Numbers. */
  function JsBytes2(v: nat): bytes { [ToUint8(JsAnd(JsShr(v, 8), 0xFF)), ToUint8(JsAnd(v, 0xFF))] }

  /** The four argument bytes; the shifts are unsigned, the masks are not. */
  function JsBytes4(v: nat): bytes
  {
    [ToUint8(JsAnd(JsUShr(v, 24), 0xFF)), ToUint8(JsAnd(JsUShr(v, 16), 0xFF)),
     ToUint8(JsAnd(JsUShr(v, 8), 0xFF)), ToUint8(JsAnd(v, 0xFF))]
  }

  lemma {:induction false} FitsWrap(x: nat)
    ensures x <= 0xFFFF_FFFF ==> ToUint32(x) == x
    ensures x < 0x8000_0000 ==> ToInt32(x) == x
  {
  }

  lemma {:induction false} JsShlOfSmall(m: major)
    ensures JsShl(m, 5) == m * 32
  {
    Shifts(m);
    FitsWrap(m);
    FitsWrap(m * 32);
  }

  lemma {:induction false} JsOrOfSmall(x: nat, y: nat)
    requires x < 0x8000_0000 && y < 0x8000_0000 && Or(x, y) < 0x8000_0000
    ensures JsOr(x, y) == Or(x, y)
  {
    FitsWrap(x);
    FitsWrap(y);
    FitsWrap(Or(x, y));
  }

  /** The initial byte does not overflow 32 bits. */
  lemma {:induction false} JsInitialByte(m: major, info: nat)
    requires info < 32
    ensures JsInitial(m, info) == m * 32 + info
  {
    JsShlOfSmall(m);
    OrBits(m, info);
    JsOrOfSmall(m * 32, info);
    SmallByte(m * 32 + info);
  }

  lemma {:induction false} SmallByte(x: nat)
    ensures x < 256 ==> ToUint8(x) == x
  {
  }

  /** Masking with 0xff gives the low byte of every unsigned 32-bit number, also when its sign bit is set. */
  lemma {:induction false} JsLowByte(v: nat)
    requires v <= 0xFFFF_FFFF
    ensures ToUint8(JsAnd(v, 0xFF)) == v % 256
  {
    LowByte(v);
    FitsWrap(v);
    FitsWrap(0xFF);
    FitsWrap(v % 256);
    assert JsAnd(v, 0xFF) == ToInt32(And(v, 0xFF));
  }

  /** The unsigned shifts divide, where a signed one would give a negative number from 2^31 on. */
  lemma {:induction false} JsUnsignedShifts(v: nat)
    requires v <= 0xFFFF_FFFF
    ensures JsUShr(v, 8) == v / 0x100 && JsUShr(v, 16) == v / 0x1_0000 && JsUShr(v, 24) == v / 0x100_0000
    ensures v <= 0xFFFF ==> JsShr(v, 8) == v / 0x100
    ensures v >= 0x8000_0000 ==> JsShr(v, 24) < 0
  {
    JsUShrDivides(v, 8);
    JsUShrDivides(v, 16);
    JsUShrDivides(v, 24);
    JsShrMeaning(v);
    Powers();
  }

  lemma {:induction false} JsUShrDivides(v: nat, k: nat)
    requires v <= 0xFFFF_FFFF
    ensures JsUShr(v, k) == v / Pow2(k)
  {
    SmallUint32(v);
  }

  lemma {:induction false} SmallUint32(v: nat)
    requires v <= 0xFFFF_FFFF
    ensures ToUint32(v) == v
  {
  }

  lemma {:induction false} JsShrMeaning(v: nat)
    requires v <= 0xFFFF_FFFF
    ensures v <= 0xFFFF ==> JsShr(v, 8) == v / 0x100
    ensures v >= 0x8000_0000 ==> JsShr(v, 24) < 0
  {
    Powers();
  }

  lemma {:induction false} JsBytes2Are(v: nat)
    requires v <= 0xFFFF
    ensures JsBytes2(v) == BigEndian(v, 2)
  {
    JsUnsignedShifts(v);
    JsLowByte(v);
    JsLowByte(v / 0x100);
    assert BigEndian(v / 256, 1) == [v / 256 % 256];
  }

  lemma {:induction false} JsBytes4Are(v: nat)
    requires v <= 0xFFFF_FFFF
    ensures JsBytes4(v) == BigEndian(v, 4)
  {
    JsUnsignedShifts(v);
    var a, b, c := v / 0x100, v / 0x1_0000, v / 0x100_0000;
    JsLowByte(v);
    JsLowByte(a);
    JsLowByte(b);
    JsLowByte(c);
    Bytes4Are(v, a, b, c);
  }

  lemma {:induction false} Bytes4Are(v: nat, a: nat, b: nat, c: nat)
    requires a == v / 0x100 && b == v / 0x1_0000 && c == v / 0x100_0000
    ensures BigEndian(v, 4) == [c % 256, b % 256, a % 256, v % 256]
  {
    assert a / 256 == b && b / 256 == c;
    assert BigEndian(c, 1) == [c % 256];
    assert BigEndian(b, 2) == [c % 256, b % 256];
    assert BigEndian(a, 3) == [c % 256, b % 256, a % 256];
  }

  /** `encodeHead` of the TypeScript codec: 32-bit operators, and a byte loop for 64-bit arguments. */
  method JsEncodeHead(m: major, v: int) returns (r: Result<bytes>)
    ensures r == if 0 <= v <= MAX_ARG then Ok(Head(m, v)) else Err(ParseError)
  {
    if v < 0 || v > MAX_ARG { return Err(ParseError); }
    if v < 24 {
      JsInitialByte(m, v);
      return Ok([JsInitial(m, v)]);
    }
    if v <= 0xFF {
      JsInitialByte(m, 24);
      OneByte(v);
      SmallByte(v);
      return Ok([JsInitial(m, 24)] + [ToUint8(v)]);
    }
    if v <= 0xFFFF {
      JsInitialByte(m, 25);
      JsBytes2Are(v);
      return Ok([JsInitial(m, 25)] + JsBytes2(v));
    }
    if v <= 0xFFFF_FFFF {
      JsInitialByte(m, 26);
      JsBytes4Are(v);
      return Ok([JsInitial(m, 26)] + JsBytes4(v));
    }
    JsInitialByte(m, 27);
    var out := JsByteLoop(JsInitial(m, 27), v);
    return Ok(out[..]);
  }

  /** The buffer of a 64-bit head, filled from its last byte to its first. */
  method JsByteLoop(initial: byte, v: nat) returns (out: array<byte>)
    ensures out[..] == [initial] + BigEndian(v, 8)
  {
    out := new byte[9](_ => 0);
    out[0] := initial;
    var rest: nat := v;
    var i := 8;
    while i >= 1
      invariant 0 <= i <= 8
      invariant out.Length == 9 && out[0] == initial
      invariant BigEndian(v, 8) == BigEndian(rest, i) + out[i + 1..]
    {
      ghost var before := out[i + 1..];
      BigEndianStep(v, rest, i, before);
      LowByte(rest);
      out[i] := And(rest, 0xFF);
      assert out[i + 1..] == before;
      assert out[i..] == [out[i]] + before;
      rest := Shr(rest, 8);
      i := i - 1;
    }
    assert out[..] == [out[0]] + out[1..];
  }

  /* ---------------------------------- readers ---------------------------------- */

  /** The outcome of reading one part of the input at a position. */
  datatype Read<+T> = Done(value: T, next: nat) | Fail(error: Error)

  datatype ItemHead = ItemHead(major: major, info: nat, arg: nat)

  /** How many argument bytes follow an initial byte with additional information `info`. */
  function ArgLength(info: nat): nat
  {
    if info == 24 then 1 else if info == 25 then 2 else if info == 26 then 4 else if info == 27 then 8 else 0
  }

  /** `_read_head` of the Python codec. */
  function ReadHead(data: bytes, pos: nat): (r: Read<ItemHead>)
    requires pos <= |data|
    ensures r.Done? ==> pos < r.next <= |data| && r.value.info < 28
  {
    if pos == |data| then Fail(ParseError)
    else
      var m, info, p := data[pos] / 32, data[pos] % 32, pos + 1;
      if m == MT_SIMPLE && 25 <= info <= 27 then Done(ItemHead(m, info, 0), p)
      else if info < 24 then Done(ItemHead(m, info, info), p)
      else if info >= 28 then Fail(ParseError)
      else if p + ArgLength(info) > |data| then Fail(ParseError)
      else Done(ItemHead(m, info, FromBigEndian(data[p..p + ArgLength(info)])), p + ArgLength(info))
  }

  /** `bs` is found in `data` at `pos`. */
  predicate At(data: bytes, pos: nat, bs: bytes)
  {
    pos + |bs| <= |data| && data[pos..pos + |bs|] == bs
  }

  lemma {:induction false} AtSplit(data: bytes, pos: nat, a: bytes, b: bytes)
    requires At(data, pos, a + b)
    ensures At(data, pos, a) && At(data, pos + |a|, b)
  {
    var s := data[pos..pos + |a + b|];
    assert s[..|a|] == a && s[|a|..] == b;
    assert data[pos..pos + |a|] == s[..|a|];
    assert data[pos + |a|..pos + |a| + |b|] == s[|a|..];
  }

  lemma {:induction false} BigEndianInverse(v: nat, n: nat)
    requires v < Pow2(8 * n)
    ensures FromBigEndian(BigEndian(v, n)) == v
    decreases n
  {
    if n == 0 {
    } else {
      var b := BigEndian(v, n);
      assert b[..n - 1] == BigEndian(v / 256, n - 1);
      assert Pow2(8 * n) == 256 * Pow2(8 * (n - 1)) by {
        Pow2Times256(8 * (n - 1));
      }
      BigEndianInverse(v / 256, n - 1);
    }
  }

  lemma {:induction false} Pow2Times256(k: nat)
    ensures Pow2(k + 8) == 256 * Pow2(k)
  {
    assert Pow2(k + 2) == 4 * Pow2(k);
    assert Pow2(k + 4) == 16 * Pow2(k);
    assert Pow2(k + 6) == 64 * Pow2(k);
  }

  lemma {:induction false} ArgumentWidths()
    ensures Pow2(8 * 1) == 0x100 && Pow2(8 * 2) == 0x1_0000
    ensures Pow2(8 * 4) == 0x1_0000_0000 && Pow2(8 * 8) == MAX_ARG + 1
  {
    Powers();
    Pow2Times256(24);
    Pow2Times256(32);
    Pow2Times256(40);
    Pow2Times256(48);
    Pow2Times256(56);
  }

  /** Reading back a head gives the major type and the argument, whatever follows. */
  lemma {:induction false} HeadRoundTrip(m: major, v: nat, data: bytes, pos: nat)
    requires v <= MAX_ARG && m != MT_SIMPLE && At(data, pos, Head(m, v))
    ensures ReadHead(data, pos).Done?
    ensures ReadHead(data, pos).value.major == m && ReadHead(data, pos).value.arg == v
    ensures ReadHead(data, pos).next == pos + |Head(m, v)|
  {
    var h := Head(m, v);
    assert data[pos..pos + |h|][0] == h[0];
    assert data[pos] == h[0];
    if v >= 24 {
      var n := |h| - 1;
      AtSplit(data, pos, [h[0]], BigEndian(v, n));
      LongHeadRoundTrip(m, v, n, data, pos, h[0] - m * 32);
    }
  }

  lemma {:induction false} LongHeadRoundTrip(m: major, v: nat, n: nat, data: bytes, pos: nat, info: nat)
    requires m != MT_SIMPLE && At(data, pos + 1, BigEndian(v, n)) && data[pos] == m * 32 + info
    requires 24 <= info < 28 && n == ArgLength(info) && FitsIn(v, n)
    ensures ReadHead(data, pos) == Done(ItemHead(m, info, v), pos + 1 + n)
  {
    InfoOf(m, info);
    ArgumentRoundTrip(v, n);
  }

  predicate FitsIn(v: nat, n: nat)
  {
    (n == 1 && v <= 0xFF) || (n == 2 && v <= 0xFFFF) || (n == 4 && v <= 0xFFFF_FFFF) || (n == 8 && v <= MAX_ARG)
  }

  lemma {:induction false} InfoOf(m: major, info: nat)
    requires info < 32
    ensures (m * 32 + info) / 32 == m && (m * 32 + info) % 32 == info
  {
  }

  lemma {:induction false} ArgumentRoundTrip(v: nat, n: nat)
    requires FitsIn(v, n)
    ensures FromBigEndian(BigEndian(v, n)) == v
  {
    ArgumentWidths();
    BigEndianInverse(v, n);
  }

  lemma {:induction false} BigEndianBound(b: bytes)
    ensures FromBigEndian(b) < Pow2(8 * |b|)
    decreases |b|
  {
    if b == [] {
    } else {
      BigEndianBound(b[..|b| - 1]);
      Pow2Times256(8 * (|b| - 1));
    }
  }

  /** Every head that is read fits in 64 bits. */
  lemma {:induction false} ReadHeadBound(data: bytes, pos: nat)
    requires pos <= |data| && ReadHead(data, pos).Done?
    ensures ReadHead(data, pos).value.arg <= MAX_ARG
  {
    var info := data[pos] % 32;
    ArgumentWidths();
    if 24 <= info < 28 && pos + 1 + ArgLength(info) <= |data| {
      BigEndianBound(data[pos + 1..pos + 1 + ArgLength(info)]);
    }
  }

  /** No head that reads to this argument is shorter than the encoder's. */
  lemma {:induction false} HeadIsShortest(data: bytes, pos: nat)
    requires pos <= |data| && ReadHead(data, pos).Done? && ReadHead(data, pos).value.major != MT_SIMPLE
    ensures ReadHead(data, pos).value.arg <= MAX_ARG
    ensures |Head(ReadHead(data, pos).value.major, ReadHead(data, pos).value.arg)| <= ReadHead(data, pos).next - pos
  {
    ReadHeadBound(data, pos);
    var info := data[pos] % 32;
    ArgumentWidths();
    if 24 <= info {
      BigEndianBound(data[pos + 1..pos + 1 + ArgLength(info)]);
    }
  }

  /** The 4-byte argument as the TypeScript decoder computes it: shifts and ors on 32-bit Numbers. */
  function JsArg4(a: byte, b: byte, c: byte, d: byte): int
  {
    JsOr(JsOr(JsOr(JsShl(a, 24), JsShl(b, 16)), JsShl(c, 8)), d)
  }

  /** The 2-byte argument as the TypeScript decoder computes it. */
  function JsArg2(a: byte, b: byte): int { JsOr(JsShl(a, 8), b) }

  /** `uint8ToBigInt`: the 8-byte argument of the TypeScript decoder. */
  method JsArg8(b: bytes) returns (out: nat)
    ensures out == FromBigEndian(b)
  {
    out := 0;
    for i := 0 to |b|
      invariant out == FromBigEndian(b[..i])
    {
      Shifts(out);
      OrBits(out, b[i]);
      assert b[..i + 1][..i] == b[..i];
      out := Or(Shl(out, 8), b[i]);
    }
    assert b[..|b|] == b;
  }

  lemma {:induction false} FromBigEndian2(a: byte, b: byte)
    ensures FromBigEndian([a, b]) == a * 0x100 + b
  {
    assert [a, b][..1] == [a] && [a][..0] == [];
    assert FromBigEndian([a]) == a;
  }

  lemma {:induction false} FromBigEndian4(a: byte, b: byte, c: byte, d: byte)
    ensures FromBigEndian([a, b, c, d]) == a * 0x100_0000 + b * 0x1_0000 + c * 0x100 + d
  {
    FromBigEndian2(a, b);
    assert [a, b, c, d][..3] == [a, b, c] && [a, b, c][..2] == [a, b];
    assert FromBigEndian([a, b, c]) == (a * 256 + b) * 256 + c;
  }

  /** The unsigned value of a byte shifted into place. */
  lemma {:induction false} JsShlBits(x: byte)
    ensures ToUint32(JsShl(x, 8)) == x * 0x100
    ensures JsShl(x, 8) == x * 0x100 && JsShl(x, 16) == x * 0x1_0000
    ensures ToUint32(JsShl(x, 24)) == x * 0x100_0000
  {
    Shifts(x);
    assert ToUint32(x) == x;
    WrapFixes(x * 0x100);
    WrapFixes(x * 0x1_0000);
    WrapUnwrap(x * 0x100_0000);
  }

  lemma {:induction false} WrapFixes(x: nat)
    requires x < 0x1_0000_0000
    ensures ToInt32(x) == x <==> x < 0x8000_0000
    ensures x >= 0x8000_0000 ==> ToInt32(x) < 0
  {
  }

  /** ToUint32 undoes ToInt32, so nested 32-bit operators combine as unsigned ones. */
  lemma {:induction false} WrapUnwrap(x: nat)
    requires x < 0x1_0000_0000
    ensures ToUint32(ToInt32(x)) == x
  {
    if x >= 0x8000_0000 {
      ModUnique(x - TWO_32, TWO_32, -1, x);
    }
  }

  lemma {:induction false} OrFields(base: nat, hi: nat, field: nat)
    requires (field < 0x100 && base == hi * 0x100)
          || (field < 0x1_0000 && base == hi * 0x1_0000)
          || (field < 0x100_0000 && base == hi * 0x100_0000)
    ensures Or(base, field) == base + field
  {
    OrBits(hi, field);
  }

  lemma {:induction false} JsOrIsOr(acc: int, field: nat)
    requires field < 0x1_0000_0000
    ensures JsOr(acc, field) == ToInt32(Or(ToUint32(acc), field))
  {
  }

  /** Or of a signed accumulator with a smaller field adds the field to its unsigned value. */
  lemma {:induction false} JsOrAdds(acc: int, base: nat, hi: nat, field: nat)
    requires ToUint32(acc) == base && base + field < 0x1_0000_0000
    requires (field < 0x100 && base == hi * 0x100)
          || (field < 0x1_0000 && base == hi * 0x1_0000)
          || (field < 0x100_0000 && base == hi * 0x100_0000)
    ensures ToUint32(JsOr(acc, field)) == base + field
    ensures JsOr(acc, field) == ToInt32(base + field)
  {
    JsOrIsOr(acc, field);
    OrFields(base, hi, field);
    WrapUnwrap(base + field);
  }

  lemma {:induction false} JsArg2IsBigEndian(a: byte, b: byte)
    ensures JsArg2(a, b) == FromBigEndian([a, b])
  {
    FromBigEndian2(a, b);
    JsShlBits(a);
    var hi := JsShl(a, 8);
    JsOrAdds(hi, a * 0x100, a, b);
    WrapFixes(a * 0x100 + b);
  }

  /** The TypeScript 4-byte argument is the big-endian one wrapped to a signed 32-bit value. */
  lemma {:induction false} JsArg4Wraps(a: byte, b: byte, c: byte, d: byte)
    ensures JsArg4(a, b, c, d) == ToInt32(FromBigEndian([a, b, c, d]))
  {
    FromBigEndian4(a, b, c, d);
    JsShlBits(a);
    JsShlBits(b);
    JsShlBits(c);
    var x := JsShl(a, 24);
    JsOrAdds(x, a * 0x100_0000, a, b * 0x1_0000);
    var y := JsOr(x, JsShl(b, 16));
    JsOrAdds(y, a * 0x100_0000 + b * 0x1_0000, a * 0x100 + b, c * 0x100);
    var z := JsOr(y, JsShl(c, 8));
    JsOrAdds(z, a * 0x100_0000 + b * 0x1_0000 + c * 0x100, a * 0x1_0000 + b * 0x100 + c, d);
  }

  /**
   * The TypeScript reader agrees with the Python reader on a 4-byte argument exactly when the
   * argument's first byte leaves the sign bit clear; otherwise it yields a negative number.
   */
  lemma {:induction false} JsArg4AgreesIff(a: byte, b: byte, c: byte, d: byte)
    ensures JsArg4(a, b, c, d) == FromBigEndian([a, b, c, d]) <==> a < 0x80
    ensures a >= 0x80 ==> JsArg4(a, b, c, d) < 0
  {
    JsArg4Wraps(a, b, c, d);
    FromBigEndian4(a, b, c, d);
    WrapFixes(FromBigEndian([a, b, c, d]));
  }
}
