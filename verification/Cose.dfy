/** COSE_Sign1 (sections 4.2 and 4.4 of RFC 9052) in this protocol's profile. */
module Cose {
  import opened Bytes
  import opened CborHeads
  import opened Cbor
  import opened CborLaws
  import opened JsDecoder
  import opened Sorting
  import opened Ids

  const HDR_ALG := 1
  const HDR_KID := 4
  const HDR_TCERT_NUMBER := -70001
  const MAX_SAFE_INTEGER := 0x1F_FFFF_FFFF_FFFF

  /** The value under a key of a decoded dictionary. */
  function Lookup(es: seq<Entry>, k: Value): Option<Value>
  {
    if es == [] then None else if es[0].key == k then Some(es[0].val) else Lookup(es[1..], k)
  }

  /** `typeof v === 'number'` for an integer: larger ones decode to bigints. */
  predicate IsJsNumber(v: Value) { v.Int? && -MAX_SAFE_INTEGER <= v.i <= MAX_SAFE_INTEGER }

  predicate IsTcertNumber(n: int) { 1 <= n <= 255 }

  datatype CoseSign1 = CoseSign1(
    protectedBytes: bytes,
    alg: int,
    kid: bytes,
    tcertNumber: Option<int>,
    unprotectedBytes: bytes,
    payload: bytes,
    signature: bytes)

  /** The structure that is signed. `aad` is covered by the signature but not transmitted. */
  function SigStructure(protectedBytes: bytes, aad: bytes, payload: bytes): Value
  {
    Array([Tstr("Signature1"), Bstr(protectedBytes), Bstr(aad), Bstr(payload)])
  }

  function ProtectedHeaders(alg: int, kid: bytes, tcertNumber: Option<int>): Value
  {
    Map([Entry(Int(HDR_ALG), Int(alg)), Entry(Int(HDR_KID), Bstr(kid))]
        + (if tcertNumber.Some? then [Entry(Int(HDR_TCERT_NUMBER), Int(tcertNumber.value))] else []))
  }

  /** What signing produces: the message, its wire bytes, and the bytes that were signed. */
  datatype Signed = Signed(cose: CoseSign1, wire: bytes, message: bytes)

  /** `signCoseSign1`; `sign` is the provider's signature under the signer's private key. */
  function SignCoseSign1(payload: bytes, keyId: KeyId, alg: int, sign: bytes -> bytes, aad: bytes,
                         tcertNumber: Option<int>)
    : Result<Signed>
  {
    if tcertNumber.Some? && !IsTcertNumber(tcertNumber.value) then Err(ParseError)
    else
      var kid :- FromHex(keyId);
      var protectedBytes :- CborEncode(ProtectedHeaders(alg, kid, tcertNumber));
      var unprotectedBytes :- CborEncode(Map([]));
      var message :- CborEncode(SigStructure(protectedBytes, aad, payload));
      var signature := sign(message);
      var wire :- CborEncode(Array([Bstr(protectedBytes), Bstr(unprotectedBytes), Bstr(payload), Bstr(signature)]));
      Ok(Signed(CoseSign1(protectedBytes, alg, kid, tcertNumber, unprotectedBytes, payload, signature), wire, message))
  }

  datatype Headers = Headers(alg: int, kid: bytes, tcertNumber: Option<int>)

  /** The protected headers: algorithm and key id are mandatory, the TCert number is checked when present. */
  function ReadHeaders(protectedBytes: bytes): Result<Headers>
  {
    var headers :- JsCbor(protectedBytes);
    if !headers.Map? then Err(ParseError) else HeadersOf(headers.entries)
  }

  function HeadersOf(es: seq<Entry>): Result<Headers>
  {
    var alg := Lookup(es, Int(HDR_ALG));
    var kid := Lookup(es, Int(HDR_KID));
    var num := Lookup(es, Int(HDR_TCERT_NUMBER));
    if !(alg.Some? && IsJsNumber(alg.value)) then Err(ParseError)
    else if !(kid.Some? && kid.value.Bstr?) then Err(ParseError)
    else if num.Some? && !(num.value.Int? && IsTcertNumber(num.value.i)) then Err(ParseError)
    else Ok(Headers(alg.value.i, kid.value.bs, if num.Some? then Some(num.value.i) else None))
  }

  /** `decodeCoseSign1`. */
  function DecodeCoseSign1(wire: bytes): Result<CoseSign1>
  {
    var decoded :- JsCbor(wire);
    if !decoded.Array? || |decoded.items| != 4 then Err(ParseError) else CoseOf(decoded.items)
  }

  function CoseOf(xs: seq<Value>): Result<CoseSign1>
    requires |xs| == 4
  {
    if !xs[0].Bstr? || !xs[1].Bstr? || !xs[2].Bstr? || !xs[3].Bstr? then Err(ParseError)
    else
      var h :- ReadHeaders(xs[0].bs);
      Ok(CoseSign1(xs[0].bs, h.alg, h.kid, h.tcertNumber, xs[1].bs, xs[2].bs, xs[3].bs))
  }

  /** The bytes `verifyCoseSign1` hands to the provider, together with the signature. */
  function SigMessage(cose: CoseSign1, aad: bytes): Result<bytes>
  {
    CborEncode(SigStructure(cose.protectedBytes, aad, cose.payload))
  }

  /* ------------------------------------ lookups --------------------------------- */

  lemma {:induction false} LookupFound(es: seq<Entry>, i: nat)
    requires i < |es| && DistinctKeys(es)
    ensures Lookup(es, es[i].key) == Some(es[i].val)
  {
    if i == 0 {
    } else {
      assert KeyClass(es[0].key) != KeyClass(es[i].key);
      LookupFound(es[1..], i - 1);
    }
  }

  lemma {:induction false} LookupMissing(es: seq<Entry>, k: Value)
    ensures Lookup(es, k).None? <==> forall i :: 0 <= i < |es| ==> es[i].key != k
  {
    if es == [] {
    } else {
      LookupMissing(es[1..], k);
    }
  }

  lemma {:induction false} LookupWitness(es: seq<Entry>, k: Value) returns (i: nat)
    requires Lookup(es, k).Some?
    ensures i < |es| && es[i] == Entry(k, Lookup(es, k).value)
  {
    if es[0].key == k {
      i := 0;
    } else {
      i := LookupWitness(es[1..], k);
      i := i + 1;
    }
  }

  function CanonOption(v: Option<Value>): Option<Value> { if v.Some? then Some(Canon(v.value)) else None }

  /** The canonical entries of a map answer lookups like the map itself. */
  lemma {:induction false} LookupCanon(es: seq<Entry>, k: Value)
    requires ProfileEntries(es)
    ensures Lookup(Canon(Map(es)).entries, k) == CanonOption(Lookup(es, k))
  {
    var cs := CanonEntries(es);
    var s := Sort(cs, EntryLe);
    SortMembers(cs, EntryLe);
    if Lookup(es, k).Some? {
      var i := LookupWitness(es, k);
      CanonEntriesAt(es, i);
      assert CanonEntry(es[i]) in s;
      var j :| 0 <= j < |s| && s[j] == CanonEntry(es[i]);
      CanonKeysDistinct(es);
      LookupFound(s, j);
    } else {
      LookupMissing(es, k);
      forall j | 0 <= j < |s| ensures s[j].key != k {
        var i := CanonOrigin(es, s[j]);
      }
      LookupMissing(s, k);
    }
  }

  function ImageOption(v: Option<Value>): Option<Value> { if v.Some? then Some(JsImage(v.value)) else None }

  lemma {:induction false} LookupLower(es: seq<Entry>, k: Value)
    ensures Lookup(LowerEntries(es), k) == if Lookup(es, k).Some? then Some(Lower(Lookup(es, k).value)) else None
  {
    if es == [] {
    } else {
      LookupLower(es[1..], k);
    }
  }

  /** A decoded map answers lookups with the images of its values. */
  lemma {:induction false} LookupImage(es: seq<Entry>, k: Value)
    requires ProfileEntries(es)
    ensures Lookup(JsImage(Map(es)).entries, k) == ImageOption(Lookup(es, k))
  {
    LookupCanon(es, k);
    LookupLower(Canon(Map(es)).entries, k);
  }

  lemma {:induction false} CanonKeysDistinct(es: seq<Entry>)
    requires DistinctKeys(es)
    ensures DistinctKeys(Sort(CanonEntries(es), EntryLe))
  {
    var cs := CanonEntries(es);
    forall i, j | 0 <= i < j < |cs| ensures KeyClass(cs[i].key) != KeyClass(cs[j].key) {
      CanonEntriesAt(es, i);
      CanonEntriesAt(es, j);
    }
    SortPermutes(cs, EntryLe);
    DistinctKeysPermute(cs, Sort(cs, EntryLe));
  }

  /* ------------------------------------- laws ----------------------------------- */

  lemma {:induction false} StringsAreProfile(xs: seq<Value>)
    requires EncodableItems(xs) && |xs| <= MAX_ARG
    requires forall i :: 0 <= i < |xs| ==> xs[i].Bstr? || xs[i].Tstr? || xs[i].Int?
    ensures Profile(Array(xs))
    ensures CanonItems(xs) == xs
  {
    forall i | 0 <= i < |xs| ensures CanonItems(xs)[i] == xs[i] {
      CanonItemsAt(xs, i);
    }
  }

  lemma {:induction false} HeadersAreProfile(alg: int, kid: bytes, tcertNumber: Option<int>)
    requires Encodable(ProtectedHeaders(alg, kid, tcertNumber))
    ensures Profile(ProtectedHeaders(alg, kid, tcertNumber))
    ensures var es := ProtectedHeaders(alg, kid, tcertNumber).entries;
      && Lookup(es, Int(HDR_ALG)) == Some(Int(alg))
      && Lookup(es, Int(HDR_KID)) == Some(Bstr(kid))
      && Lookup(es, Int(HDR_TCERT_NUMBER)) == if tcertNumber.Some? then Some(Int(tcertNumber.value)) else None
  {
    var es := ProtectedHeaders(alg, kid, tcertNumber).entries;
    assert es[0] == Entry(Int(HDR_ALG), Int(alg)) && es[1] == Entry(Int(HDR_KID), Bstr(kid));
    if tcertNumber.Some? {
      assert es[2] == Entry(Int(HDR_TCERT_NUMBER), Int(tcertNumber.value));
      assert |es| == 3;
      LookupFound(es, 2);
    } else {
      assert |es| == 2;
      LookupMissing(es, Int(HDR_TCERT_NUMBER));
    }
    LookupFound(es, 0);
    LookupFound(es, 1);
  }

  lemma {:induction false} HeadersAreShaped(alg: int, kid: bytes, n: Option<int>)
    requires n.Some? ==> IsTcertNumber(n.value)
    requires SafeArg(|kid|)
    ensures JsShaped(ProtectedHeaders(alg, kid, n))
  {
    var es := ProtectedHeaders(alg, kid, n).entries;
    assert es[0] == Entry(Int(HDR_ALG), Int(alg)) && es[1] == Entry(Int(HDR_KID), Bstr(kid));
    assert n.Some? ==> es[2] == Entry(Int(HDR_TCERT_NUMBER), Int(n.value));
  }

  /** The protected headers come back with the algorithm lowered, hence unchanged exactly when it is safe. */
  lemma {:induction false} HeadersReadBack(alg: int, kid: bytes, n: Option<int>)
    requires Encodable(ProtectedHeaders(alg, kid, n)) && IsJsNumber(Int(alg)) && SafeArg(|kid|)
    requires n.Some? ==> IsTcertNumber(n.value)
    ensures ReadHeaders(Enc(ProtectedHeaders(alg, kid, n))) == Ok(Headers(Lowered(alg), kid, n))
  {
    var headers := ProtectedHeaders(alg, kid, n);
    HeadersAreProfile(alg, kid, n);
    HeadersAreShaped(alg, kid, n);
    JsCborIff(headers);
    LookupImage(headers.entries, Int(HDR_ALG));
    LookupImage(headers.entries, Int(HDR_KID));
    LookupImage(headers.entries, Int(HDR_TCERT_NUMBER));
  }

  lemma {:induction false} WireDecodes(xs: seq<Value>)
    requires EncodableItems(xs) && |xs| <= MAX_ARG
    requires forall i :: 0 <= i < |xs| ==> xs[i].Bstr? || xs[i].Tstr? || xs[i].Int?
    ensures JsCbor(Enc(Array(xs))) == Ok(Array(xs)) <==> JsSafe(Array(xs))
  {
    StringsAreProfile(xs);
    JsCborIff(Array(xs));
  }

  predicate ByteStrings(xs: seq<Value>) { forall i :: 0 <= i < |xs| ==> xs[i].Bstr? }

  /** No byte string has a length that the decoder reads as negative. */
  predicate SafeLengths(xs: seq<Value>)
    requires ByteStrings(xs)
  {
    forall i :: 0 <= i < |xs| ==> SafeArg(|xs[i].bs|)
  }

  lemma {:induction false} WireParsesBack(xs: seq<Value>, h: Headers)
    requires EncodableItems(xs) && |xs| == 4 && ByteStrings(xs)
    requires ReadHeaders(xs[0].bs) == Ok(h)
    ensures var c := CoseSign1(xs[0].bs, h.alg, h.kid, h.tcertNumber, xs[1].bs, xs[2].bs, xs[3].bs);
      DecodeCoseSign1(Enc(Array(xs))) == Ok(c) <==> SafeLengths(xs)
  {
    WireDecodes(xs);
    var r := JsCbor(Enc(Array(xs)));
    if r.Ok? && r.value.Array? && |r.value.items| == 4 {
      CoseFieldsDecide(r.value.items, xs, h);
    }
  }

  /** The message read from four items has the fields of four byte strings only when they are those. */
  lemma {:induction false} CoseFieldsDecide(ys: seq<Value>, xs: seq<Value>, h: Headers)
    requires |ys| == |xs| == 4 && ByteStrings(xs)
    requires ReadHeaders(xs[0].bs) == Ok(h)
    ensures var c := CoseSign1(xs[0].bs, h.alg, h.kid, h.tcertNumber, xs[1].bs, xs[2].bs, xs[3].bs);
      CoseOf(ys) == Ok(c) <==> ys == xs
  {
    if CoseOf(ys) == Ok(CoseSign1(xs[0].bs, h.alg, h.kid, h.tcertNumber, xs[1].bs, xs[2].bs, xs[3].bs)) {
      assert ys[0] == xs[0] && ys[1] == xs[1] && ys[2] == xs[2] && ys[3] == xs[3];
    }
  }

  /** What `signCoseSign1` returns when it does not throw. */
  lemma {:induction false} SignedShape(payload: bytes, kid: bytes, alg: int, sign: bytes -> bytes, aad: bytes,
                                       n: Option<int>)
    requires SignCoseSign1(payload, ToHex(kid), alg, sign, aad, n).Ok?
    ensures n.Some? ==> IsTcertNumber(n.value)
    ensures Encodable(ProtectedHeaders(alg, kid, n)) && Encodable(Map([]))
    ensures var s := SignCoseSign1(payload, ToHex(kid), alg, sign, aad, n).value;
      var p, u := Enc(ProtectedHeaders(alg, kid, n)), Enc(Map([]));
      var xs := [Bstr(p), Bstr(u), Bstr(payload), Bstr(sign(s.message))];
      && s.cose == CoseSign1(p, alg, kid, n, u, payload, sign(s.message))
      && CborEncode(SigStructure(p, aad, payload)) == Ok(s.message)
      && EncodableItems(xs) && s.wire == Enc(Array(xs))
  {
    HexRoundTrip(kid);
  }

  /** No byte string of the message has a length that the decoder reads as negative. */
  predicate CarriedSafely(c: CoseSign1)
  {
    SafeArg(|c.protectedBytes|) && SafeArg(|c.unprotectedBytes|) && SafeArg(|c.payload|) && SafeArg(|c.signature|)
  }

  /** What verifying needs is rebuilt from the parts of the message. */
  lemma {:induction false} SignedMessageRebuilt(payload: bytes, kid: bytes, alg: int, sign: bytes -> bytes, aad: bytes,
                                                n: Option<int>)
    requires SignCoseSign1(payload, ToHex(kid), alg, sign, aad, n).Ok?
    ensures var s := SignCoseSign1(payload, ToHex(kid), alg, sign, aad, n).value;
      && s.cose.payload == payload && s.cose.alg == alg && s.cose.kid == kid && s.cose.tcertNumber == n
      && SigMessage(s.cose, aad) == Ok(s.message) && s.cose.signature == sign(s.message)
  {
    SignedShape(payload, kid, alg, sign, aad, n);
  }

  /** A signed message parses back to what was signed if and only if its lengths and its algorithm are safe. */
  lemma {:induction false} SignedParsesBack(payload: bytes, kid: bytes, alg: int, sign: bytes -> bytes, aad: bytes,
                                            n: Option<int>)
    requires IsJsNumber(Int(alg)) && SafeArg(|kid|)
    requires SignCoseSign1(payload, ToHex(kid), alg, sign, aad, n).Ok?
    ensures var s := SignCoseSign1(payload, ToHex(kid), alg, sign, aad, n).value;
      DecodeCoseSign1(s.wire) == Ok(s.cose) <==> CarriedSafely(s.cose) && SafeInt(alg)
  {
    SignedShape(payload, kid, alg, sign, aad, n);
    var s := SignCoseSign1(payload, ToHex(kid), alg, sign, aad, n).value;
    HeadersReadBack(alg, kid, n);
    SignedWireDecides(s.cose, s.wire);
  }

  /** The wire of a message whose headers read back with the algorithm lowered. */
  lemma {:induction false} SignedWireDecides(c: CoseSign1, wire: bytes)
    requires ReadHeaders(c.protectedBytes) == Ok(Headers(Lowered(c.alg), c.kid, c.tcertNumber))
    requires var xs := [Bstr(c.protectedBytes), Bstr(c.unprotectedBytes), Bstr(c.payload), Bstr(c.signature)];
      EncodableItems(xs) && wire == Enc(Array(xs))
    ensures DecodeCoseSign1(wire) == Ok(c) <==> CarriedSafely(c) && SafeInt(c.alg)
  {
    var xs := [Bstr(c.protectedBytes), Bstr(c.unprotectedBytes), Bstr(c.payload), Bstr(c.signature)];
    var h := Headers(Lowered(c.alg), c.kid, c.tcertNumber);
    WireParsesBack(xs, h);
    LoweredMeaning(c.alg);
    assert SafeLengths(xs) <==> CarriedSafely(c) by {
      assert xs[0].bs == c.protectedBytes && xs[1].bs == c.unprotectedBytes;
      assert xs[2].bs == c.payload && xs[3].bs == c.signature;
    }
    if SafeInt(c.alg) {
      assert c == CoseSign1(xs[0].bs, h.alg, h.kid, h.tcertNumber, xs[1].bs, xs[2].bs, xs[3].bs);
    } else if DecodeCoseSign1(wire) == Ok(c) {
      HeadersDecide(c, wire, h);
    }
  }

  /** A decoded message has the headers its protected bytes give. */
  lemma {:induction false} HeadersDecide(c: CoseSign1, wire: bytes, h: Headers)
    requires ReadHeaders(c.protectedBytes) == Ok(h) && DecodeCoseSign1(wire) == Ok(c)
    ensures h == Headers(c.alg, c.kid, c.tcertNumber)
  {
  }

  lemma {:induction false} StringArraysInjective(xs: seq<Value>, ys: seq<Value>)
    requires EncodableItems(xs) && |xs| <= MAX_ARG && EncodableItems(ys) && |ys| <= MAX_ARG
    requires forall i :: 0 <= i < |xs| ==> xs[i].Bstr? || xs[i].Tstr? || xs[i].Int?
    requires forall i :: 0 <= i < |ys| ==> ys[i].Bstr? || ys[i].Tstr? || ys[i].Int?
    requires Enc(Array(xs)) == Enc(Array(ys))
    ensures xs == ys
  {
    StringsAreProfile(xs);
    StringsAreProfile(ys);
    RoundTrip(Array(xs));
    RoundTrip(Array(ys));
  }

  /** What is signed determines the headers, the authenticated data and the payload. */
  lemma {:induction false} SigStructureInjective(p: bytes, a: bytes, m: bytes, p': bytes, a': bytes, m': bytes)
    requires CborEncode(SigStructure(p, a, m)).Ok?
    requires CborEncode(SigStructure(p, a, m)) == CborEncode(SigStructure(p', a', m'))
    ensures p == p' && a == a' && m == m'
  {
    var xs, ys := SigStructure(p, a, m).items, SigStructure(p', a', m').items;
    StringArraysInjective(xs, ys);
    assert xs[1] == Bstr(p) && xs[2] == Bstr(a) && xs[3] == Bstr(m);
    assert ys[1] == Bstr(p') && ys[2] == Bstr(a') && ys[3] == Bstr(m');
  }
}
