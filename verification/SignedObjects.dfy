/** The signed-object envelope: a COSE_Sign1 message over `[version, type, dataBytes]`. */
module SignedObjects {
  import opened Bytes
  import opened Cbor
  import opened CborDecoder
  import opened CborLaws
  import opened Cose
  import opened Ids
  import opened JsDecoder

  datatype ObjectType = Tcert | Sdoc | Statement | Attachment
  datatype Algorithm = Ed25519 | EcdsaP256

  function TypeName(k: ObjectType): string
  {
    match k
    case Tcert => "tcert"
    case Sdoc => "sdoc"
    case Statement => "statement"
    case Attachment => "attachment"
  }

  /** `isSignedObjectType`, as a lookup. */
  function TypeOfName(t: string): Option<ObjectType>
  {
    if t == TypeName(Tcert) then Some(Tcert)
    else if t == TypeName(Sdoc) then Some(Sdoc)
    else if t == TypeName(Statement) then Some(Statement)
    else if t == TypeName(Attachment) then Some(Attachment)
    else None
  }

  function CoseAlgorithm(a: Algorithm): int { match a case Ed25519 => -8 case EcdsaP256 => -7 }

  /** `algorithmFromCoseAlgorithm`. */
  function AlgorithmOf(alg: int): Option<Algorithm>
  {
    if alg == -8 then Some(Ed25519) else if alg == -7 then Some(EcdsaP256) else None
  }

  /* -------------------------------- static schemas ------------------------------ */

  datatype FieldKind = KText | KInt | KBytes | KMap | KArray

  datatype FieldSpec = FieldSpec(name: string, kind: FieldKind, required: bool)

  function DataSchema(k: ObjectType): seq<FieldSpec>
  {
    match k
    case Tcert => [
      FieldSpec("keyId", KBytes, true), FieldSpec("certificateNumber", KInt, true),
      FieldSpec("algorithm", KText, true), FieldSpec("publicKey", KMap, true),
      FieldSpec("identity", KMap, true), FieldSpec("schema", KArray, false),
      FieldSpec("hashAlgorithm", KText, false), FieldSpec("validity", KMap, false),
      FieldSpec("metadata", KMap, false), FieldSpec("onlineEndpoint", KText, false)]
    case Sdoc => [FieldSpec("issuedAt", KInt, true), FieldSpec("fields", KArray, true)]
    case Statement => [
      FieldSpec("statementId", KBytes, true), FieldSpec("action", KText, true),
      FieldSpec("target", KMap, true), FieldSpec("issuedAt", KInt, true),
      FieldSpec("validity", KMap, false), FieldSpec("reason", KText, false),
      FieldSpec("revocationType", KText, false), FieldSpec("claims", KMap, false)]
    case Attachment => [
      FieldSpec("id", KText, true), FieldSpec("contentType", KText, true),
      FieldSpec("contentHash", KText, true), FieldSpec("content", KBytes, true),
      FieldSpec("issuedAt", KInt, true)]
  }

  predicate CheckKind(v: Value, kind: FieldKind)
  {
    match kind
    case KText => v.Tstr?
    case KInt => IsJsNumber(v)
    case KBytes => v.Bstr?
    case KMap => v.Map?
    case KArray => v.Array?
  }

  predicate FieldConforms(es: seq<Entry>, f: FieldSpec)
  {
    match Lookup(es, Tstr(f.name))
    case None => !f.required
    case Some(v) => CheckKind(v, f.kind)
  }

  /** `validateObjectData` reports no error. */
  predicate Conforms(k: ObjectType, es: seq<Entry>)
  {
    forall i :: 0 <= i < |DataSchema(k)| ==> FieldConforms(es, DataSchema(k)[i])
  }

  /** A decoded map whose keys are all texts becomes a plain object. */
  predicate TextKeys(es: seq<Entry>) { forall i :: 0 <= i < |es| ==> es[i].key.Tstr? }

  /* ------------------------------------ envelope -------------------------------- */

  datatype SignedObject = SignedObject(
    kind: ObjectType,
    algorithm: Algorithm,
    signerKeyId: KeyId,
    dataBytes: bytes,
    data: seq<Entry>,
    cose: CoseSign1)

  /** `buildSignedObject`: the signed message, or the error thrown on the way. */
  function BuildSignedObject(k: ObjectType, data: seq<Entry>, alg: Algorithm, keyId: KeyId,
                             sign: bytes -> bytes, aad: bytes, tcertNumber: Option<int>): Result<Signed>
  {
    var dataBytes :- CborEncode(Map(data));
    var payload :- CborEncode(Payload(k, dataBytes));
    SignCoseSign1(payload, keyId, CoseAlgorithm(alg), sign, aad, tcertNumber)
  }

  function Payload(k: ObjectType, dataBytes: bytes): Value
  {
    Array([Int(1), Tstr(TypeName(k)), Bstr(dataBytes)])
  }

  /** `parseSignedObject`. */
  function ParseSignedObject(wire: bytes): Result<SignedObject>
  {
    var cose :- DecodeCoseSign1(wire);
    var inner :- JsCbor(cose.payload);
    if !inner.Array? || |inner.items| != 3 then Err(ParseError) else OpenEnvelope(cose, inner.items)
  }

  function OpenEnvelope(cose: CoseSign1, xs: seq<Value>): Result<SignedObject>
    requires |xs| == 3
  {
    if xs[0] != Int(1) then Err(UnsupportedError)
    else if !xs[1].Tstr? || TypeOfName(xs[1].s).None? then Err(UnsupportedError)
    else if !xs[2].Bstr? then Err(ParseError)
    else if AlgorithmOf(cose.alg).None? then Err(UnsupportedError)
    else
      var k := TypeOfName(xs[1].s).value;
      var data :- JsCbor(xs[2].bs);
      if !data.Map? || !TextKeys(data.entries) then Err(ParseError)
      else if !Conforms(k, data.entries) then Err(ParseError)
      else Ok(SignedObject(k, AlgorithmOf(cose.alg).value, ToHex(cose.kid), xs[2].bs, data.entries, cose))
  }

  /* -------------------------------------- laws ---------------------------------- */

  lemma {:induction false} TypeNamesDiffer(k: ObjectType)
    ensures TypeOfName(TypeName(k)) == Some(k)
  {
    assert |TypeName(Tcert)| == 5 && |TypeName(Sdoc)| == 4 && |TypeName(Statement)| == 9
      && |TypeName(Attachment)| == 10;
  }

  lemma {:induction false} ImageKind(v: Value, kind: FieldKind)
    requires CheckKind(v, kind)
    ensures CheckKind(JsImage(v), kind)
  {
  }

  /** Data that conforms to its schema still does after transport. */
  lemma {:induction false} ImageConforms(k: ObjectType, es: seq<Entry>)
    requires Profile(Map(es)) && Conforms(k, es)
    ensures Conforms(k, JsImage(Map(es)).entries)
  {
    var cs := JsImage(Map(es)).entries;
    forall i | 0 <= i < |DataSchema(k)| ensures FieldConforms(cs, DataSchema(k)[i]) {
      var f := DataSchema(k)[i];
      assert FieldConforms(es, f);
      LookupImage(es, Tstr(f.name));
      if Lookup(es, Tstr(f.name)).Some? {
        ImageKind(Lookup(es, Tstr(f.name)).value, f.kind);
      }
    }
  }

  lemma {:induction false} ImageTextKeys(es: seq<Entry>)
    requires TextKeys(es)
    ensures TextKeys(JsImage(Map(es)).entries)
  {
    var cs := Canon(Map(es)).entries;
    Sorting.SortMembers(CanonEntries(es), EntryLe);
    forall j | 0 <= j < |cs| ensures cs[j].key.Tstr? {
      assert cs[j] in cs;
      var i := CanonOrigin(es, cs[j]);
    }
    LoweredKeys(cs);
    assert JsImage(Map(es)).entries == LowerEntries(cs);
  }

  lemma {:induction false} LoweredKeys(cs: seq<Entry>)
    ensures forall i :: 0 <= i < |cs| ==> LowerEntries(cs)[i].key == cs[i].key
  {
    if cs == [] {
    } else {
      LoweredKeys(cs[1..]);
    }
  }

  lemma {:induction false} PayloadReadsBack(k: ObjectType, dataBytes: bytes)
    requires Encodable(Payload(k, dataBytes))
    ensures JsCbor(Enc(Payload(k, dataBytes))) == Ok(Payload(k, dataBytes)) <==> SafeArg(|dataBytes|)
  {
    var xs := Payload(k, dataBytes).items;
    TypeNamesDiffer(k);
    assert xs[0] == Int(1) && xs[1] == Tstr(TypeName(k)) && xs[2] == Bstr(dataBytes);
    WireDecodes(xs);
  }

  /** The signed object around data, as it was built. */
  function AsBuilt(k: ObjectType, data: seq<Entry>, alg: Algorithm, kid: bytes, cose: CoseSign1): SignedObject
    requires Encodable(Map(data))
  {
    SignedObject(k, alg, ToHex(kid), Enc(Map(data)), Canon(Map(data)).entries, cose)
  }

  /** The same with the integers of the data lowered. */
  function AsDelivered(k: ObjectType, data: seq<Entry>, alg: Algorithm, kid: bytes, cose: CoseSign1): SignedObject
    requires Encodable(Map(data))
  {
    SignedObject(k, alg, ToHex(kid), Enc(Map(data)), JsImage(Map(data)).entries, cose)
  }

  /** An envelope around these data bytes opens to what the bytes decode to, or not at all. */
  lemma {:induction false} OpenedData(k: ObjectType, b: bytes, alg: Algorithm, cose: CoseSign1)
    requires cose.alg == CoseAlgorithm(alg)
    ensures var r := OpenEnvelope(cose, Payload(k, b).items);
      && (r.Ok? <==> JsCbor(b).Ok? && JsCbor(b).value.Map? && TextKeys(JsCbor(b).value.entries)
                     && Conforms(k, JsCbor(b).value.entries))
      && (r.Ok? ==> r.value == SignedObject(k, alg, ToHex(cose.kid), b, JsCbor(b).value.entries, cose))
  {
    TypeNamesDiffer(k);
    EnvelopeStep(k, TypeName(k), b, alg, cose);
  }

  lemma {:induction false} EnvelopeStep(k: ObjectType, name: string, b: bytes, alg: Algorithm, cose: CoseSign1)
    requires cose.alg == CoseAlgorithm(alg) && TypeOfName(name) == Some(k)
    ensures var r := OpenEnvelope(cose, [Int(1), Tstr(name), Bstr(b)]);
      && (r.Ok? <==> JsCbor(b).Ok? && JsCbor(b).value.Map? && TextKeys(JsCbor(b).value.entries)
                     && Conforms(k, JsCbor(b).value.entries))
      && (r.Ok? ==> r.value == SignedObject(k, alg, ToHex(cose.kid), b, JsCbor(b).value.entries, cose))
  {
  }

  /** Opening an envelope around encoded data gives the data's image, and the data itself exactly when it is safe. */
  lemma {:induction false} EnvelopeOpens(k: ObjectType, data: seq<Entry>, alg: Algorithm, cose: CoseSign1)
    requires Profile(Map(data)) && TextKeys(data) && Conforms(k, data) && cose.alg == CoseAlgorithm(alg)
    ensures var r := OpenEnvelope(cose, Payload(k, Enc(Map(data))).items);
      && (r == Ok(AsBuilt(k, data, alg, cose.kid, cose)) <==> JsSafe(Map(data)))
      && (JsShaped(Map(data)) ==> r == Ok(AsDelivered(k, data, alg, cose.kid, cose)))
  {
    OpenedData(k, Enc(Map(data)), alg, cose);
    JsCborIff(Map(data));
    ImageConforms(k, data);
    ImageTextKeys(data);
    if JsSafe(Map(data)) {
      SafeImage(Map(data));
    }
  }

  /** Only the payload of this type and these data bytes opens to an object that has them. */
  lemma {:induction false} PayloadDecides(k: ObjectType, dataBytes: bytes, cose: CoseSign1, ys: seq<Value>)
    requires |ys| == 3 && OpenEnvelope(cose, ys).Ok?
    requires OpenEnvelope(cose, ys).value.kind == k && OpenEnvelope(cose, ys).value.dataBytes == dataBytes
    ensures ys == Payload(k, dataBytes).items
  {
    var xs := Payload(k, dataBytes).items;
    TypeNameOf(ys[1].s, k);
    assert ys[0] == xs[0] && ys[1] == xs[1] && ys[2] == xs[2];
  }

  lemma {:induction false} TypeNameOf(t: string, k: ObjectType)
    requires TypeOfName(t) == Some(k)
    ensures t == TypeName(k)
  {
  }

  /** The message and the data in it have no lengths that the decoder reads as negative. */
  predicate Carried(cose: CoseSign1, data: seq<Entry>)
    requires Encodable(Map(data))
  {
    CarriedSafely(cose) && SafeArg(|Enc(Map(data))|)
  }

  /** Parsing a message whose payload holds encoded data. */
  lemma {:induction false} ParsedPayload(k: ObjectType, data: seq<Entry>, alg: Algorithm, cose: CoseSign1, wire: bytes)
    requires Profile(Map(data)) && TextKeys(data) && Conforms(k, data) && cose.alg == CoseAlgorithm(alg)
    requires Encodable(Payload(k, Enc(Map(data)))) && cose.payload == Enc(Payload(k, Enc(Map(data))))
    requires DecodeCoseSign1(wire) == Ok(cose) <==> CarriedSafely(cose)
    ensures var r := ParseSignedObject(wire);
      && (r == Ok(AsBuilt(k, data, alg, cose.kid, cose)) <==> Carried(cose, data) && JsSafe(Map(data)))
      && (Carried(cose, data) && JsShaped(Map(data)) ==> r == Ok(AsDelivered(k, data, alg, cose.kid, cose)))
  {
    var dataBytes := Enc(Map(data));
    PayloadReadsBack(k, dataBytes);
    EnvelopeOpens(k, data, alg, cose);
    if ParseSignedObject(wire).Ok? && ParseSignedObject(wire).value.cose == cose
       && ParseSignedObject(wire).value.kind == k && ParseSignedObject(wire).value.dataBytes == dataBytes {
      ParsedFrom(wire, cose);
      PayloadDecides(k, dataBytes, cose, JsCbor(cose.payload).value.items);
    }
  }

  /** A parsed object comes from the message it carries. */
  lemma {:induction false} ParsedFrom(wire: bytes, cose: CoseSign1)
    requires ParseSignedObject(wire).Ok? && ParseSignedObject(wire).value.cose == cose
    ensures DecodeCoseSign1(wire) == Ok(cose) && JsCbor(cose.payload).Ok?
    ensures JsCbor(cose.payload).value.Array? && |JsCbor(cose.payload).value.items| == 3
    ensures ParseSignedObject(wire) == OpenEnvelope(cose, JsCbor(cose.payload).value.items)
  {
  }

  /**
   * Parsing inverts building through the three nested encodings, if and only if no length and no
   * integer of the data has a signed argument: then type, algorithm, key id, TCert number and data come
   * back, data up to entry order. With safe lengths an integer of the data comes back lowered. Under
   * the same authenticated data the signed bytes are reconstructed exactly.
   */
  lemma {:induction false} ParseInvertsBuild(k: ObjectType, data: seq<Entry>, alg: Algorithm, kid: bytes,
                                             sign: bytes -> bytes, aad: bytes, n: Option<int>)
    requires Profile(Map(data)) && TextKeys(data) && Conforms(k, data) && SafeArg(|kid|)
    requires BuildSignedObject(k, data, alg, ToHex(kid), sign, aad, n).Ok?
    ensures var built := BuildSignedObject(k, data, alg, ToHex(kid), sign, aad, n).value;
      var parsed := ParseSignedObject(built.wire);
      && (parsed == Ok(AsBuilt(k, data, alg, kid, built.cose)) <==> Carried(built.cose, data) && JsSafe(Map(data)))
      && (Carried(built.cose, data) && JsShaped(Map(data)) ==> parsed == Ok(AsDelivered(k, data, alg, kid, built.cose)))
      && Equiv(Map(data), Canon(Map(data)))
      && built.cose.tcertNumber == n
      && SigMessage(built.cose, aad) == Ok(built.message)
      && built.cose.signature == sign(built.message)
  {
    var payload := Enc(Payload(k, Enc(Map(data))));
    SignedParsesBack(payload, kid, CoseAlgorithm(alg), sign, aad, n);
    SignedMessageRebuilt(payload, kid, CoseAlgorithm(alg), sign, aad, n);
    var built := SignCoseSign1(payload, ToHex(kid), CoseAlgorithm(alg), sign, aad, n).value;
    ParsedPayload(k, data, alg, built.cose, built.wire);
    CanonIsEquiv(Map(data));
  }

  /** An integer of the data comes back lowered, hence unchanged exactly when it is safe. */
  lemma {:induction false} IntegerSurvivesIff(k: ObjectType, data: seq<Entry>, alg: Algorithm, kid: bytes,
                                              sign: bytes -> bytes, aad: bytes, n: Option<int>, name: string, i: int)
    requires Profile(Map(data)) && TextKeys(data) && Conforms(k, data) && SafeArg(|kid|)
    requires BuildSignedObject(k, data, alg, ToHex(kid), sign, aad, n).Ok?
    requires var built := BuildSignedObject(k, data, alg, ToHex(kid), sign, aad, n).value;
      Carried(built.cose, data) && JsShaped(Map(data)) && Lookup(data, Tstr(name)) == Some(Int(i))
    ensures var parsed := ParseSignedObject(BuildSignedObject(k, data, alg, ToHex(kid), sign, aad, n).value.wire);
      && parsed.Ok? && Lookup(parsed.value.data, Tstr(name)) == Some(Int(Lowered(i)))
      && (Lookup(parsed.value.data, Tstr(name)) == Some(Int(i)) <==> SafeInt(i))
  {
    ParseInvertsBuild(k, data, alg, kid, sign, aad, n);
    LookupImage(data, Tstr(name));
    LoweredMeaning(i);
  }

  /** Objects of less than 2^31 bytes have safe lengths only. */
  lemma {:induction false} SmallObjectsAreCarried(k: ObjectType, data: seq<Entry>, alg: Algorithm, kid: bytes,
                                                  sign: bytes -> bytes, aad: bytes, n: Option<int>)
    requires BuildSignedObject(k, data, alg, ToHex(kid), sign, aad, n).Ok?
    requires |BuildSignedObject(k, data, alg, ToHex(kid), sign, aad, n).value.wire| < SIGN_BIT
    ensures Carried(BuildSignedObject(k, data, alg, ToHex(kid), sign, aad, n).value.cose, data)
  {
    var dataBytes := Enc(Map(data));
    var payload := Payload(k, dataBytes);
    SignedShape(Enc(payload), kid, CoseAlgorithm(alg), sign, aad, n);
    var s := SignCoseSign1(Enc(payload), ToHex(kid), CoseAlgorithm(alg), sign, aad, n).value;
    MessageFits(s.cose, s.wire);
    ItemsFit(payload.items);
    assert payload.items[2].bs == dataBytes;
  }

  lemma {:induction false} MessageFits(c: CoseSign1, wire: bytes)
    requires var xs := [Bstr(c.protectedBytes), Bstr(c.unprotectedBytes), Bstr(c.payload), Bstr(c.signature)];
      EncodableItems(xs) && wire == Enc(Array(xs))
    requires |wire| < SIGN_BIT
    ensures CarriedSafely(c) && |c.payload| < SIGN_BIT
  {
    var xs := [Bstr(c.protectedBytes), Bstr(c.unprotectedBytes), Bstr(c.payload), Bstr(c.signature)];
    ItemsFit(xs);
    assert xs[0].bs == c.protectedBytes && xs[1].bs == c.unprotectedBytes;
    assert xs[2].bs == c.payload && xs[3].bs == c.signature;
  }

  /** A byte string is no longer than the encoding of the list it is in. */
  lemma {:induction false} ItemsFit(xs: seq<Value>)
    requires EncodableItems(xs)
    ensures forall i :: 0 <= i < |xs| && xs[i].Bstr? ==> |xs[i].bs| <= |EncItems(xs)|
  {
    if xs == [] {
    } else {
      ItemsFit(xs[1..]);
    }
  }
}
