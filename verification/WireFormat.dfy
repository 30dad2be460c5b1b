/**
 * The bytes on the wire, spelled out: the conformance vectors of the encoder, the order of map keys, and
 * the layout of messages and statements down to their names and numbers.
 */
module WireFormat {
  import opened Bytes
  import opened CborHeads
  import opened Cbor
  import opened CborDecoder
  import opened CborLaws
  import opened Ids
  import opened JsDecoder
  import opened Sorting
  import opened Utf8
  import Cose
  import SO = SignedObjects
  import St = Statements

  /* ------------------------------------- texts ---------------------------------- */

  /** An ASCII text is encoded as its codes. */
  lemma {:induction false} AsciiBytes(s: string, b: bytes)
    requires |s| == |b| && forall i :: 0 <= i < |s| ==> s[i] as int == b[i] < 0x80
    ensures EncodeUtf8(s) == b
  {
    if s == [] {
    } else {
      AsciiBytes(s[1..], b[1..]);
      assert EncodeChar(s[0]) == [b[0]];
      assert b == [b[0]] + b[1..];
    }
  }

  predicate Ascii(s: string) { |s| < 24 && forall i :: 0 <= i < |s| ==> s[i] as int < 0x80 }

  /** A short ASCII text on the wire: its length over the bits of major type 3, and its codes. */
  function TextOf(s: string): bytes
    requires Ascii(s)
  {
    [0x60 + |s|] + seq(|s|, i requires 0 <= i < |s| => s[i] as int)
  }

  lemma {:induction false} TextItem(s: string)
    requires Ascii(s)
    ensures Encodable(Tstr(s)) && Enc(Tstr(s)) == TextOf(s)
  {
    ShortText(s, seq(|s|, i requires 0 <= i < |s| => s[i] as int));
  }

  lemma {:induction false} ShortText(s: string, b: bytes)
    requires |s| == |b| < 24 && forall i :: 0 <= i < |s| ==> s[i] as int == b[i] < 0x80
    ensures Encodable(Tstr(s)) && Enc(Tstr(s)) == [0x60 + |b|] + b
  {
    AsciiBytes(s, b);
  }

  /** The vector `text` of the conformance suite. */
  lemma {:induction false} TextVector()
    ensures Enc(Tstr("hello")) == [0x65, 0x68, 0x65, 0x6C, 0x6C, 0x6F]
  {
    var hello := "hello";
    ShortText(hello, [0x68, 0x65, 0x6C, 0x6C, 0x6F]);
  }

  /** Characters of two, three and four bytes, the first two from its vector `textUnicode`. */
  lemma {:induction false} CharVectors()
    ensures EncodeUtf8(['\U{E9}']) == [0xC3, 0xA9]
    ensures EncodeUtf8(['\U{4E16}']) == [0xE4, 0xB8, 0x96]
    ensures EncodeUtf8(['\U{1F600}']) == [0xF0, 0x9F, 0x98, 0x80]
  {
    OneChar('\U{E9}');
    OneChar('\U{4E16}');
    OneChar('\U{1F600}');
  }

  lemma {:induction false} OneChar(c: char)
    ensures EncodeUtf8([c]) == EncodeChar(c)
  {
    assert [c][1..] == [];
  }

  /** Strictness: only the encoding of a text decodes to it. */
  lemma {:induction false} StrictUtf8(b: bytes)
    requires DecodeUtf8(b).Some?
    ensures EncodeUtf8(DecodeUtf8(b).value) == b
    decreases |b|
  {
    if b == [] {
    } else {
      var (c, n) := DecodeChar(b).value;
      StrictUtf8(b[n..]);
      StrictChar(b);
      StrictStep(b, c, n, DecodeUtf8(b[n..]).value);
    }
  }

  lemma {:induction false} StrictStep(b: bytes, c: char, n: nat, rest: string)
    requires n <= |b| && EncodeUtf8(rest) == b[n..] && EncodeChar(c) == b[..n]
    ensures EncodeUtf8([c] + rest) == b
  {
    FirstChar(c, rest);
    assert b == b[..n] + b[n..];
  }

  lemma {:induction false} FirstChar(c: char, rest: string)
    ensures EncodeUtf8([c] + rest) == EncodeChar(c) + EncodeUtf8(rest)
  {
    assert ([c] + rest)[1..] == rest;
  }

  lemma {:induction false} StrictChar(b: bytes)
    requires b != [] && DecodeChar(b).Some?
    ensures EncodeChar(DecodeChar(b).value.0) == b[..DecodeChar(b).value.1]
  {
    if b[0] < 0x80 {
      assert b[..1] == [b[0]];
    } else if b[0] <= 0xDF {
      Low6(b[0] - 0xC0, b[1] - 0x80);
      Encoded2(DecodeChar(b).value.0, b[0], b[1]);
      assert b[..2] == [b[0], b[1]];
    } else if b[0] <= 0xEF {
      Encoded3(DecodeChar(b).value.0, b[0], b[1], b[2]);
      assert b[..3] == [b[0], b[1], b[2]];
    } else {
      Encoded4(DecodeChar(b).value.0, b[0], b[1], b[2], b[3]);
      assert b[..4] == [b[0], b[1], b[2], b[3]];
    }
  }

  lemma {:induction false} Low6(q: int, r: int)
    requires 0 <= r < 64
    ensures (q * 64 + r) / 64 == q && (q * 64 + r) % 64 == r
  {
  }

  lemma {:induction false} Quotients(n: nat)
    ensures n / 4096 == n / 64 / 64 && n / 262144 == n / 4096 / 64
  {
    Nested(n);
    Nested3(n);
  }

  lemma {:induction false} Encoded2(ch: char, a: int, b: int)
    requires 0xC2 <= a <= 0xDF && 0x80 <= b <= 0xBF && ch as int == Code2(a, b)
    ensures EncodeChar(ch) == [a, b]
  {
    Low6(a - 0xC0, b - 0x80);
  }

  lemma {:induction false} Encoded3(ch: char, a: int, b: int, c: int)
    requires 0xE0 <= a <= 0xEF && 0x80 <= b <= 0xBF && 0x80 <= c <= 0xBF && (a == 0xE0 ==> b >= 0xA0)
    requires ch as int == Code3(a, b, c)
    ensures EncodeChar(ch) == [a, b, c]
  {
    var n := ch as int;
    Digits3(n, a, b, c);
    assert 0x800 <= n < 0x1_0000;
  }

  lemma {:induction false} Digits3(n: nat, a: int, b: int, c: int)
    requires 0xE0 <= a <= 0xEF && 0x80 <= b <= 0xBF && 0x80 <= c <= 0xBF && n == Code3(a, b, c)
    ensures n / 4096 == a - 0xE0 && n / 64 % 64 == b - 0x80 && n % 64 == c - 0x80
  {
    var high: int := (a - 0xE0) * 64 + (b - 0x80);
    assert n == high * 64 + (c - 0x80);
    Low6(high, c - 0x80);
    Low6(a - 0xE0, b - 0x80);
    Quotients(n);
  }

  lemma {:induction false} Encoded4(ch: char, a: int, b: int, c: int, d: int)
    requires 0xF0 <= a <= 0xF4 && 0x80 <= b <= 0xBF && 0x80 <= c <= 0xBF && 0x80 <= d <= 0xBF
    requires (a == 0xF0 ==> b >= 0x90) && ch as int == Code4(a, b, c, d)
    ensures EncodeChar(ch) == [a, b, c, d]
  {
    var n := ch as int;
    Digits4(n, a, b, c, d);
    assert n >= 0x1_0000;
  }

  lemma {:induction false} Digits4(n: nat, a: int, b: int, c: int, d: int)
    requires 0xF0 <= a <= 0xF4 && 0x80 <= b <= 0xBF && 0x80 <= c <= 0xBF && 0x80 <= d <= 0xBF
    requires n == Code4(a, b, c, d)
    ensures n / 262144 == a - 0xF0 && n / 4096 % 64 == b - 0x80 && n / 64 % 64 == c - 0x80 && n % 64 == d - 0x80
  {
    var top: int := (a - 0xF0) * 64 + (b - 0x80);
    var high := top * 64 + (c - 0x80);
    assert n == high * 64 + (d - 0x80);
    Low6(high, d - 0x80);
    Low6(top, c - 0x80);
    Low6(a - 0xF0, b - 0x80);
    Quotients(n);
  }

  /* ----------------------------------- integers --------------------------------- */

  /** Every head, byte by byte: the argument in the five low bits, or in one, two, four or eight bytes. */
  lemma {:induction false} HeadLayout(m: major, v: nat)
    requires v <= MAX_ARG
    ensures var h := Head(m, v);
      && (v < 24 ==> h == [m * 32 + v])
      && (24 <= v < 0x100 ==> h == [m * 32 + 24, v])
      && (0x100 <= v < 0x1_0000 ==> |h| == 3 && h[0] == m * 32 + 25 && FromBigEndian(h[1..]) == v)
      && (0x1_0000 <= v < 0x1_0000_0000 ==> |h| == 5 && h[0] == m * 32 + 26 && FromBigEndian(h[1..]) == v)
      && (0x1_0000_0000 <= v ==> |h| == 9 && h[0] == m * 32 + 27 && FromBigEndian(h[1..]) == v)
  {
    var h := Head(m, v);
    if v < 24 {
    } else if v < 0x100 {
      assert BigEndian(v, 1) == BigEndian(v / 256, 0) + [v % 256];
    } else {
      var n := if v < 0x1_0000 then 2 else if v < 0x1_0000_0000 then 4 else 8;
      ArgumentRoundTrip(v, n);
      assert h[1..] == BigEndian(v, n);
    }
  }

  /** The vectors of the conformance suite for null, booleans and numbers of up to four bytes. */
  lemma {:induction false} SimpleVectors()
    ensures Enc(Null) == [0xF6] && Enc(Bool(true)) == [0xF5] && Enc(Bool(false)) == [0xF4]
  {
  }

  lemma {:induction false} ShortVector(i: int)
    requires -256 <= i < 256
    ensures Enc(Int(i)) == if 0 <= i < 24 then [i] else if i >= 24 then [0x18, i]
                           else if -24 <= i then [0x20 + (-1 - i)] else [0x38, -1 - i]
  {
    HeadLayout(if i >= 0 then MT_UINT else MT_NINT, if i >= 0 then i else -1 - i);
  }

  lemma {:induction false} WordVector(v: nat, b: bytes)
    requires |b| in {2, 4} && FromBigEndian(b) == v
      && (if |b| == 2 then 0x100 <= v < 0x1_0000 else 0x1_0000 <= v < 0x1_0000_0000)
    ensures Enc(Int(v)) == [if |b| == 2 then 0x19 else 0x1A] + b
  {
    HeadLayout(MT_UINT, v);
    var h := Head(MT_UINT, v);
    SameBytes(h[1..], b);
    assert h == [h[0]] + h[1..];
  }

  lemma {:induction false} SameBytes(a: bytes, b: bytes)
    requires |a| == |b| && FromBigEndian(a) == FromBigEndian(b)
    ensures a == b
  {
    if a == [] {
    } else {
      var n := |a| - 1;
      SameBytes(a[..n], b[..n]);
      assert a == a[..n] + [a[n]] && b == b[..n] + [b[n]];
    }
  }

  /* ------------------------------------- maps ----------------------------------- */

  /** The first byte in which the two differ is smaller in the first one. */
  ghost predicate Before(a: bytes, b: bytes)
  {
    exists k :: 0 <= k < |a| && k < |b| && a[..k] == b[..k] && a[k] < b[k]
  }

  lemma {:induction false} OrderMeaning(a: bytes, b: bytes, k: nat)
    requires k < |a| && k < |b| && a[k] != b[k]
    ensures LexLe(a, b) ==> Before(a, b)
  {
    if a[0] == b[0] {
      OrderMeaning(a[1..], b[1..], k - 1);
      if LexLe(a, b) {
        var i :| 0 <= i < |a[1..]| && i < |b[1..]| && a[1..][..i] == b[1..][..i] && a[1..][i] < b[1..][i];
        assert a[..i + 1] == [a[0]] + a[1..][..i] && b[..i + 1] == [b[0]] + b[1..][..i];
        assert a[i + 1] < b[i + 1];
      }
    } else {
      assert a[..0] == b[..0];
    }
  }

  /**
   * A map is written as its head and its entries, every key before its value, in the order of the first
   * byte in which the encoded keys differ.
   */
  lemma {:induction false} MapBytes(es: seq<Entry>) returns (s: seq<Entry>)
    requires Profile(Map(es))
    ensures EncodableEntries(s)
    ensures Enc(Map(es)) == Head(5, |es|) + Flatten(EncEntries(s)) && multiset(s) == multiset(es)
    ensures forall i, j :: 0 <= i < j < |s| ==> Before(Enc(s[i].key), Enc(s[j].key))
  {
    s := Sort(es, EntryLe);
    MapLayout(es);
    SortPermutes(es, EntryLe);
    EntryOrder();
    SortSorts(es, EntryLe);
    forall i, j | 0 <= i < j < |s| ensures Before(Enc(s[i].key), Enc(s[j].key)) {
      assert KeyClass(s[i].key) != KeyClass(s[j].key);
      KeysDifferBeforeTheyEnd(s[i].key, s[j].key);
      var k :| 0 <= k < |Enc(s[i].key)| && k < |Enc(s[j].key)| && Enc(s[i].key)[k] != Enc(s[j].key)[k];
      assert EntryLe(s[i], s[j]);
      OrderMeaning(Enc(s[i].key), Enc(s[j].key), k);
    }
  }

  lemma {:induction false} EntryOrder()
    ensures TotalPreorder(EntryLe)
  {
    forall x, y ensures EntryLe(x, y) || EntryLe(y, x) {
      LexTotal(KeyBytes(x.key), KeyBytes(y.key));
    }
    forall x, y, z | EntryLe(x, y) && EntryLe(y, z) ensures EntryLe(x, z) {
      LexTransitive(KeyBytes(x.key), KeyBytes(y.key), KeyBytes(z.key));
    }
  }

  /** The object `{ b: x, a: y }` is written with `a` first. */
  lemma {:induction false} TwoKeys(x: Value, y: Value)
    requires Encodable(x) && Encodable(y)
    ensures var v := Map([Entry(Tstr("b"), x), Entry(Tstr("a"), y)]);
      Encodable(v) && Enc(v) == [0xA2] + ([0x61, 0x61] + Enc(y) + [0x61, 0x62] + Enc(x))
  {
    ShortText("a", [0x61]);
    ShortText("b", [0x62]);
    TwoEntries(Tstr("b"), Tstr("a"), x, y);
  }

  lemma {:induction false} TwoEntries(k: Value, l: Value, x: Value, y: Value)
    requires Encodable(k) && Encodable(l) && Encodable(x) && Encodable(y)
    requires |Enc(k)| == |Enc(l)| == 2 && Enc(k)[0] == Enc(l)[0] && Enc(k)[1] > Enc(l)[1]
    ensures var v := Map([Entry(k, x), Entry(l, y)]);
      Encodable(v) && Enc(v) == [0xA2] + (Enc(l) + Enc(y) + Enc(k) + Enc(x))
  {
    var p, q := EncPair(Enc(k), Enc(x)), EncPair(Enc(l), Enc(y));
    EntryPairs(k, l, x, y, p, q);
    SwappedPairs(p, q);
  }

  lemma {:induction false} EntryPairs(k: Value, l: Value, x: Value, y: Value, p: EncPair, q: EncPair)
    requires Encodable(k) && Encodable(l) && Encodable(x) && Encodable(y)
    requires p == EncPair(Enc(k), Enc(x)) && q == EncPair(Enc(l), Enc(y))
    ensures var v := Map([Entry(k, x), Entry(l, y)]);
      Encodable(v) && Enc(v) == [0xA2] + Flatten(Sort([p, q], PairLe))
  {
    var es := [Entry(k, x), Entry(l, y)];
    assert es[0] == Entry(k, x) && es[1] == Entry(l, y);
    assert es[1..] == [es[1]] && [es[1]][1..] == [];
    assert EncEntries([es[1]]) == [q];
    assert EncEntries(es) == [p, q];
    assert Head(MT_MAP, 2) == [0xA2];
  }

  lemma {:induction false} SwappedPairs(p: EncPair, q: EncPair)
    requires |p.key| == |q.key| == 2 && p.key[0] == q.key[0] && p.key[1] > q.key[1]
    ensures Flatten(Sort([p, q], PairLe)) == q.key + q.val + p.key + p.val
  {
    assert [p, q][1..] == [q] && [q][1..] == [];
    assert !LexLe(p.key, q.key) by {
      assert p.key[1..][0] == p.key[1] && q.key[1..][0] == q.key[1];
    }
    assert Sort([q], PairLe) == [q];
    assert Insert(p, [], PairLe) == [p];
    assert Insert(p, [q], PairLe) == [q, p];
    FlattenTwo(q, p);
  }

  lemma {:induction false} FlattenTwo(p: EncPair, q: EncPair)
    ensures Flatten([p, q]) == p.key + p.val + q.key + q.val
  {
    assert [p, q][1..] == [q] && [q][1..] == [];
    assert Flatten([q]) == q.key + q.val + [];
  }

  /* ---------------------------------- reading ----------------------------------- */

  /**
   * What the decoder makes of first bytes that the encoder never writes: tags are skipped, floats keep their
   * raw bytes, and lengths that are indefinite or reserved, and other simple values, are errors.
   */
  lemma {:induction false} OtherFirstBytes(data: bytes, pos: nat)
    requires pos < |data|
    ensures var b, p := data[pos], pos + 1;
      && (0xC0 <= b <= 0xD7 ==> ReadValue(data, pos) == ReadValue(data, p))
      && (b in {0xD8, 0xD9, 0xDA, 0xDB} ==>
            var q := p + (if b == 0xD8 then 1 else if b == 0xD9 then 2 else if b == 0xDA then 4 else 8);
            ReadValue(data, pos) == if q <= |data| then ReadValue(data, q) else Fail(ParseError))
      && (b in {0xF9, 0xFA, 0xFB} ==>
            var q := p + (if b == 0xF9 then 2 else if b == 0xFA then 4 else 8);
            ReadValue(data, pos) == if q <= |data| then Done(Float(data[p..q]), q) else Fail(ParseError))
      && (b == 0xF4 ==> ReadValue(data, pos) == Done(Bool(false), p))
      && (b == 0xF5 ==> ReadValue(data, pos) == Done(Bool(true), p))
      && (b == 0xF6 ==> ReadValue(data, pos) == Done(Null, p))
      && (0xE0 <= b < 0xF4 || b in {0xF7, 0xF8} || b % 32 >= 28 ==> ReadValue(data, pos) == Fail(ParseError))
  {
  }

  /** The TypeScript decoder does the same, but for `undefined`, which it returns. */
  lemma {:induction false} JsOtherFirstBytes(data: bytes, pos: nat)
    requires pos < |data|
    ensures var b := data[pos];
      && (0xF4 <= b <= 0xF6 || 0xF9 <= b <= 0xFB ==> JsReadValue(data, pos) == Lifted(ReadValue(data, pos)))
      && (b == 0xF7 ==> JsReadValue(data, pos) == Outside)
      && (0xE0 <= b < 0xF4 || b == 0xF8 || b % 32 >= 28 ==> JsReadValue(data, pos) == JsFail(ParseError))
  {
    var head := JsReadHead(data, pos);
    assert data[pos] >= 0xE0 && head.Done? ==> head.value.major == MT_SIMPLE;
  }

  lemma {:induction false} JsTagsAreSkipped(data: bytes, pos: nat)
    requires pos < |data|
    ensures var b, p := data[pos], pos + 1;
      && (0xC0 <= b <= 0xD7 ==> JsReadValue(data, pos) == JsReadValue(data, p))
      && (b in {0xD8, 0xD9, 0xDA, 0xDB} ==>
            var q := p + (if b == 0xD8 then 1 else if b == 0xD9 then 2 else if b == 0xDA then 4 else 8);
            JsReadValue(data, pos) == if q <= |data| then JsReadValue(data, q) else JsFail(ParseError))
  {
    var head := JsReadHead(data, pos);
    assert 0xC0 <= data[pos] < 0xE0 && head.Done? ==> head.value.major == MT_TAG;
  }

  /** A repeated key keeps its place and its spelling and takes the later value; no other key is affected. */
  lemma {:induction false} RepeatedKeys(es: seq<Entry>, k: Value, v: Value, i: nat)
    requires i < |es| && KeyClass(es[i].key) == KeyClass(k)
    requires forall j :: 0 <= j < i ==> KeyClass(es[j].key) != KeyClass(k)
    ensures Upsert(es, k, v) == es[i := Entry(es[i].key, v)]
  {
    if i == 0 {
      assert es[0 := Entry(es[0].key, v)] == [Entry(es[0].key, v)] + es[1..];
    } else {
      RepeatedKeys(es[1..], k, v, i - 1);
      assert es[i := Entry(es[i].key, v)] == [es[0]] + es[1..][i - 1 := Entry(es[i].key, v)];
    }
  }

  /* ----------------------------------- messages --------------------------------- */

  function BytesOf(b: bytes): bytes
    requires |b| <= MAX_ARG
  {
    Head(2, |b|) + b
  }

  /** The first item of a list, and the others. */
  lemma {:induction false} FirstItem(x: Value, rest: seq<Value>)
    requires Encodable(x) && EncodableItems(rest)
    ensures EncodableItems([x] + rest) && EncItems([x] + rest) == Enc(x) + EncItems(rest)
  {
    assert ([x] + rest)[1..] == rest;
  }

  lemma {:induction false} OneItem(x: Value)
    requires Encodable(x)
    ensures EncodableItems([x]) && EncItems([x]) == Enc(x)
  {
    FirstItem(x, []);
    assert [x] + [] == [x] && Enc(x) + [] == Enc(x);
  }

  lemma {:induction false} ThreeItems(x: Value, y: Value, z: Value)
    requires Encodable(x) && Encodable(y) && Encodable(z)
    ensures Encodable(Array([x, y, z])) && Enc(Array([x, y, z])) == [0x83] + EncItems([x, y, z])
    ensures EncItems([x, y, z]) == Enc(x) + (Enc(y) + Enc(z))
  {
    OneItem(z);
    FirstItem(y, [z]);
    assert [y] + [z] == [y, z];
    FirstItem(x, [y, z]);
    assert [x] + [y, z] == [x, y, z];
    assert Head(MT_ARRAY, 3) == [0x83];
  }

  lemma {:induction false} FourItems(w: Value, x: Value, y: Value, z: Value)
    requires Encodable(w) && Encodable(x) && Encodable(y) && Encodable(z)
    ensures Encodable(Array([w, x, y, z]))
    ensures Enc(Array([w, x, y, z])) == [0x84] + (Enc(w) + (Enc(x) + (Enc(y) + Enc(z))))
  {
    ThreeItems(x, y, z);
    FirstItem(w, [x, y, z]);
    assert [w] + [x, y, z] == [w, x, y, z];
    assert Head(MT_ARRAY, 4) == [0x84];
  }

  /** A byte string is its head and its bytes. */
  lemma {:induction false} BytesItem(b: bytes)
    requires |b| <= MAX_ARG
    ensures Encodable(Bstr(b)) && Enc(Bstr(b)) == BytesOf(b)
  {
  }

  /**
   * The bytes that are signed: an array of the text `Signature1`, the protected headers, the external
   * authenticated data and the payload, in this order (section 4.4 of RFC 9052).
   */
  lemma {:induction false} SignedBytes(cose: Cose.CoseSign1, aad: bytes)
    requires |cose.protectedBytes| <= MAX_ARG && |aad| <= MAX_ARG && |cose.payload| <= MAX_ARG
    ensures Ascii("Signature1")
    ensures Cose.SigMessage(cose, aad)
      == Ok([0x84] + (TextOf("Signature1")
                      + (BytesOf(cose.protectedBytes) + (BytesOf(aad) + BytesOf(cose.payload)))))
  {
    SignedItems(cose, aad, "Signature1");
  }

  lemma {:induction false} SignedItems(cose: Cose.CoseSign1, aad: bytes, context: string)
    requires |cose.protectedBytes| <= MAX_ARG && |aad| <= MAX_ARG && |cose.payload| <= MAX_ARG && Ascii(context)
    ensures CborEncode(Array([Tstr(context), Bstr(cose.protectedBytes), Bstr(aad), Bstr(cose.payload)]))
      == Ok([0x84] + (TextOf(context) + (BytesOf(cose.protectedBytes) + (BytesOf(aad) + BytesOf(cose.payload)))))
  {
    TextItem(context);
    BytesItem(cose.protectedBytes);
    BytesItem(aad);
    BytesItem(cose.payload);
    FourItems(Tstr(context), Bstr(cose.protectedBytes), Bstr(aad), Bstr(cose.payload));
  }

  /** The message on the wire: an array of protected headers, empty unprotected ones, payload and signature. */
  lemma {:induction false} MessageBytes(payload: bytes, keyId: KeyId, alg: int, sign: bytes -> bytes, aad: bytes,
                                        n: Option<int>)
    requires Cose.SignCoseSign1(payload, keyId, alg, sign, aad, n).Ok?
    ensures var m := Cose.SignCoseSign1(payload, keyId, alg, sign, aad, n).value;
      && |m.cose.protectedBytes| <= MAX_ARG && |payload| <= MAX_ARG && |m.cose.signature| <= MAX_ARG
      && m.wire == [0x84] + (BytesOf(m.cose.protectedBytes)
                             + (BytesOf([0xA0]) + (BytesOf(payload) + BytesOf(m.cose.signature))))
      && m.cose.payload == payload && m.cose.signature == sign(m.message)
      && Cose.SigMessage(m.cose, aad) == Ok(m.message)
  {
    var m := Cose.SignCoseSign1(payload, keyId, alg, sign, aad, n).value;
    EmptyMap();
    MessageItems(m.cose.protectedBytes, m.cose.unprotectedBytes, payload, m.cose.signature, m.wire);
  }

  lemma {:induction false} MessageItems(headers: bytes, unprotected: bytes, payload: bytes, signature: bytes,
                                        wire: bytes)
    requires CborEncode(Array([Bstr(headers), Bstr(unprotected), Bstr(payload), Bstr(signature)])) == Ok(wire)
    ensures |headers| <= MAX_ARG && |unprotected| <= MAX_ARG && |payload| <= MAX_ARG && |signature| <= MAX_ARG
    ensures wire == [0x84] + (BytesOf(headers) + (BytesOf(unprotected) + (BytesOf(payload) + BytesOf(signature))))
  {
    var items := [Bstr(headers), Bstr(unprotected), Bstr(payload), Bstr(signature)];
    assert Encodable(items[0]) && Encodable(items[1]) && Encodable(items[2]) && Encodable(items[3]);
    FourItems(Bstr(headers), Bstr(unprotected), Bstr(payload), Bstr(signature));
  }

  lemma {:induction false} EmptyMap()
    ensures CborEncode(Map([])) == Ok([0xA0])
  {
    assert EncEntries([]) == [];
    assert Sort<EncPair>([], PairLe) == [];
    assert Flatten([]) == [];
    assert Head(MT_MAP, 0) == [0xA0];
    assert Enc(Map([])) == Head(MT_MAP, 0) + Flatten(Sort(EncEntries([]), PairLe));
    assert Enc(Map([])) == [0xA0] + [];
    assert Enc(Map([])) == [0xA0];
    assert Encodable(Map([]));
  }

  /** The payload: an array of the version 1, the name of the type, and the data as a byte string. */
  lemma {:induction false} EnvelopeBytes(k: SO.ObjectType, data: bytes)
    requires |data| <= MAX_ARG
    ensures Ascii(SO.TypeName(k))
    ensures CborEncode(SO.Payload(k, data)) == Ok([0x83] + ([0x01] + (TextOf(SO.TypeName(k)) + BytesOf(data))))
    ensures SO.TypeName(k) == match k
      case Tcert => "tcert"
      case Sdoc => "sdoc"
      case Statement => "statement"
      case Attachment => "attachment"
  {
    var name := SO.TypeName(k);
    assert Ascii(name);
    TextItem(name);
    BytesItem(data);
    ShortVector(1);
    ThreeItems(Int(1), Tstr(name), Bstr(data));
    assert SO.Payload(k, data) == Array([Int(1), Tstr(name), Bstr(data)]);
  }

  /**
   * The protected headers: 1 is the algorithm, -8 for Ed25519 and -7 for ECDSA; 4 the key id; -70001
   * the TCert number.
   */
  lemma {:induction false} HeaderNumbers(alg: SO.Algorithm, kid: bytes, n: Option<int>)
    ensures var es := Cose.ProtectedHeaders(SO.CoseAlgorithm(alg), kid, n).entries;
      && |es| == (if n.Some? then 3 else 2)
      && es[0] == Entry(Int(1), Int(if alg == SO.Ed25519 then -8 else -7))
      && es[1] == Entry(Int(4), Bstr(kid))
      && (n.Some? ==> es[2] == Entry(Int(-70001), Int(n.value)))
  {
    var es := Cose.ProtectedHeaders(SO.CoseAlgorithm(alg), kid, n).entries;
    assert n.None? ==> |es| == 2;
  }

  /* ---------------------------------- statements -------------------------------- */

  /** The properties of a statement, by name. */
  lemma {:induction false} StatementNamed(id: bytes, a: St.Action, target: seq<Entry>, issuedAt: int, o: St.Options)
    ensures var d := St.StatementData(id, a, target, issuedAt, o);
      && St.Get(d, "statementId") == Some(Bstr(id))
      && St.Get(d, "action") == Some(Tstr(match a
        case Attest => "attest"
        case AddTcert => "addTcert"
        case RevokeAttestation => "revokeAttestation"
        case RevokeTcert => "revokeTcert"
        case BlockSdoc => "blockSdoc"
        case UnblockSdoc => "unblockSdoc"))
      && St.Get(d, "target") == Some(Map(target))
      && St.Get(d, "issuedAt") == Some(Int(issuedAt))
  {
    var v := St.StatementValues(id, a, target, issuedAt, o);
    St.StatementNames();
    St.BuildGet(St.STATEMENT_FIELDS, v, 0);
    St.BuildGet(St.STATEMENT_FIELDS, v, 1);
    St.BuildGet(St.STATEMENT_FIELDS, v, 2);
    St.BuildGet(St.STATEMENT_FIELDS, v, 3);
  }

  lemma {:induction false} OptionsNamed(id: bytes, a: St.Action, target: seq<Entry>, issuedAt: int, o: St.Options)
    ensures var d := St.StatementData(id, a, target, issuedAt, o);
      && St.Get(d, "reason") == (if o.reason.Some? then Some(Tstr(o.reason.value)) else None)
      && (o.revocationType.None? ==> St.Get(d, "revocationType") == None)
      && (o.revocationType == Some(St.Prospective) ==> St.Get(d, "revocationType") == Some(Tstr("prospective")))
      && (o.revocationType == Some(St.Retrospective) ==> St.Get(d, "revocationType") == Some(Tstr("retrospective")))
      && St.Get(d, "claims") == (if o.claims.Some? then Some(Map(o.claims.value)) else None)
      && St.Get(d, "validity") == (if o.validity.Some? then Some(Map(o.validity.value)) else None)
  {
    var v := St.StatementValues(id, a, target, issuedAt, o);
    St.StatementNames();
    St.BuildGet(St.STATEMENT_FIELDS, v, 4);
    St.BuildGet(St.STATEMENT_FIELDS, v, 5);
    St.BuildGet(St.STATEMENT_FIELDS, v, 6);
    St.BuildGet(St.STATEMENT_FIELDS, v, 7);
  }

  /** The properties of a target, by name; an empty content hash is left out. */
  lemma {:induction false} TargetNamed(t: St.Target, es: seq<Entry>)
    requires St.EncodeTarget(t) == Ok(es)
    ensures St.Get(es, "kind") == Some(Tstr(if t.TcertTarget? then "tcert" else if t.KeyTarget? then "key" else "sdoc"))
    ensures t.SdocTarget? <==> St.Get(es, "keyId") == None
    ensures t.SdocTarget? <==> St.Get(es, "sdocId") != None
    ensures !t.SdocTarget? ==> FromHex(t.keyId).Ok? && St.Get(es, "keyId") == Some(Bstr(FromHex(t.keyId).value))
    ensures t.SdocTarget? ==> FromHex(t.sdocId).Ok? && St.Get(es, "sdocId") == Some(Bstr(FromHex(t.sdocId).value))
    ensures St.Get(es, "certificateNumber") == if t.TcertTarget? then Some(Int(t.certificateNumber)) else None
    ensures var hashed := t.TcertTarget? && t.tcertHash.Some? && t.tcertHash.value != "";
      St.Get(es, "tcertHash") == if hashed then Some(Tstr(t.tcertHash.value)) else None
  {
    var v := St.TargetValues(t, FromHex(St.TargetId(t)).value);
    St.TargetNames();
    St.BuildGet(St.TARGET_FIELDS, v, 0);
    St.BuildGet(St.TARGET_FIELDS, v, 1);
    St.BuildGet(St.TARGET_FIELDS, v, 2);
    St.BuildGet(St.TARGET_FIELDS, v, 3);
    St.BuildGet(St.TARGET_FIELDS, v, 4);
  }

  /** Identifiers are written with lower-case digits, the high half of a byte first. */
  lemma {:induction false} HexBytes(b: bytes, i: nat)
    requires i < |b|
    ensures ToHex(b)[2 * i] == "0123456789abcdef"[b[i] / 16] && ToHex(b)[2 * i + 1] == "0123456789abcdef"[b[i] % 16]
  {
    if i == 0 {
      HexDigits(b[0] / 16);
      HexDigits(b[0] % 16);
    } else {
      HexBytes(b[1..], i - 1);
    }
  }

  lemma {:induction false} HexDigits(d: int)
    requires 0 <= d < 16
    ensures HexDigit(d) == "0123456789abcdef"[d]
  {
    var digits := "0123456789abcdef";
    assert digits[0] == '0' && digits[1] == '1' && digits[2] == '2' && digits[3] == '3';
    assert digits[4] == '4' && digits[5] == '5' && digits[6] == '6' && digits[7] == '7';
    assert digits[8] == '8' && digits[9] == '9' && digits[10] == 'a' && digits[11] == 'b';
    assert digits[12] == 'c' && digits[13] == 'd' && digits[14] == 'e' && digits[15] == 'f';
  }
}
