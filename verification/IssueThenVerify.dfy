/** Issuing and verifying together: an issued document verifies exactly when it should. */
module IssueThenVerify {
  import opened Bytes
  import opened Cbor
  import opened CborLaws
  import opened Fields
  import opened Ids
  import opened JsDecoder
  import opened SecretBinding
  import opened ServiceState
  import opened Signing
  import opened VerdictLaws
  import opened Verification
  import Cose
  import MemoryStores
  import Permanence
  import SO = SignedObjects
  import St = Statements

  /* --------------------------------- engine laws -------------------------------- */

  /** What the engine stores for an accepted value is a non-null value that it accepts back. */
  ghost predicate AcceptsBack(e: Engine, f: FieldSchema, ctx: Context)
  {
    forall v :: e.validateInput(f, v) && e.encode(f, v).Some? ==>
      e.encode(f, v).value != Null && EnginePasses(e, f, Canon(e.encode(f, v).value), ctx)
  }

  ghost predicate EnginesAcceptBack(fe: FieldEnv, schema: seq<FieldSchema>, ctx: Context)
  {
    forall i :: 0 <= i < |schema| && fe.engine(schema[i].ftype).Some? ==>
      AcceptsBack(fe.engine(schema[i].ftype).value, schema[i], ctx)
  }

  /** A field type that stores the text it is given, and checks it again in the same way. */
  ghost predicate StoresTextAsGiven(e: Engine, f: FieldSchema)
  {
    && (forall v :: e.validateInput(f, v) ==> v.Tstr?)
    && (forall v :: e.encode(f, v) == Some(v))
    && (forall v, ctx :: e.validateField(f, v, ctx) == Some(if e.validateInput(f, v) then FieldValid else FieldInvalid))
  }

  /** Such types (`select` and inline secret inputs, for instance) accept back what they stored. */
  lemma {:induction false} IdentityAcceptsBack(e: Engine, f: FieldSchema, ctx: Context)
    requires StoresTextAsGiven(e, f)
    ensures AcceptsBack(e, f, ctx)
  {
    forall v | e.validateInput(f, v) && e.encode(f, v).Some?
      ensures e.encode(f, v).value != Null
      ensures EnginePasses(e, f, Canon(e.encode(f, v).value), ctx)
    {
      assert e.encode(f, v) == Some(v) && Canon(v) == v;
      assert e.validateField(f, v, ctx) == Some(FieldValid);
    }
  }

  /* ----------------------------- the issued document ---------------------------- */

  lemma {:induction false} SdocDataShape(issuedAt: int, stored: seq<Value>)
    requires IsNumber(issuedAt) && Encodable(Map(SdocData(issuedAt, stored)))
    requires forall i :: 0 <= i < |stored| && Encodable(stored[i]) ==> Profile(stored[i])
    ensures Profile(Map(SdocData(issuedAt, stored))) && SO.TextKeys(SdocData(issuedAt, stored))
    ensures St.Get(SdocData(issuedAt, stored), "issuedAt") == Some(Int(issuedAt))
    ensures St.Get(SdocData(issuedAt, stored), "fields") == Some(Array(stored))
  {
    var a, b := "issuedAt", "fields";
    assert |a| == 8 && |b| == 6;
    var d := SdocData(issuedAt, stored);
    assert d == [Entry(Tstr(a), Int(issuedAt)), Entry(Tstr(b), Array(stored))];
    assert Encodable(d[1].val);
    PairShape(a, b, Int(issuedAt), Array(stored));
  }

  lemma {:induction false} PairShape(a: string, b: string, x: Value, y: Value)
    requires a != b && Profile(x) && Profile(y)
    requires Encodable(Map([Entry(Tstr(a), x), Entry(Tstr(b), y)]))
    ensures var d := [Entry(Tstr(a), x), Entry(Tstr(b), y)];
      Profile(Map(d)) && SO.TextKeys(d) && St.Get(d, a) == Some(x) && St.Get(d, b) == Some(y)
  {
    var d := [Entry(Tstr(a), x), Entry(Tstr(b), y)];
    Cose.LookupFound(d, 0);
    Cose.LookupFound(d, 1);
  }

  /** `issuedAt` is an integer a JavaScript number holds exactly. */
  predicate IsNumber(n: int) { Cose.IsJsNumber(Int(n)) }

  lemma {:induction false} SdocDataConforms(issuedAt: int, stored: seq<Value>)
    requires IsNumber(issuedAt)
    requires St.Get(SdocData(issuedAt, stored), "issuedAt") == Some(Int(issuedAt))
    requires St.Get(SdocData(issuedAt, stored), "fields") == Some(Array(stored))
    ensures SO.Conforms(SO.Sdoc, SdocData(issuedAt, stored))
  {
  }

  /** The data of a document is safe, or as expected, when the stored values are; the time counts for safety only. */
  lemma {:induction false} SdocDataSafety(issuedAt: int, stored: seq<Value>)
    ensures JsSafe(Map(SdocData(issuedAt, stored))) <==> SafeInt(issuedAt) && JsSafe(Array(stored))
    ensures JsShaped(Map(SdocData(issuedAt, stored))) <==> JsShaped(Array(stored))
  {
    var a, b := SdocNames(issuedAt, stored);
    DataSafety(SdocData(issuedAt, stored), a, b, Int(issuedAt), Array(stored));
  }

  lemma {:induction false} DataSafety(d: seq<Entry>, a: string, b: string, x: Value, y: Value)
    requires d == [Entry(Tstr(a), x), Entry(Tstr(b), y)] && |a| == 8 && |b| == 6 && a[0] == 'i' && b[0] == 'f'
    ensures JsSafe(Map(d)) <==> JsSafe(x) && JsSafe(y)
    ensures JsShaped(Map(d)) <==> JsShaped(x) && JsShaped(y)
  {
    ShortName(a);
    ShortName(b);
    PairSafety(a, b, x, y);
  }

  lemma {:induction false} SdocNames(issuedAt: int, stored: seq<Value>) returns (a: string, b: string)
    ensures SdocData(issuedAt, stored) == [Entry(Tstr(a), Int(issuedAt)), Entry(Tstr(b), Array(stored))]
    ensures |a| == 8 && |b| == 6 && a[0] == 'i' && b[0] == 'f'
  {
    a, b := "issuedAt", "fields";
  }

  lemma {:induction false} PairSafety(a: string, b: string, x: Value, y: Value)
    requires JsSafe(Tstr(a)) && JsSafe(Tstr(b))
    requires |a| <= 8 && |b| <= 8
    ensures JsSafe(Map([Entry(Tstr(a), x), Entry(Tstr(b), y)])) <==> JsSafe(x) && JsSafe(y)
    ensures JsShaped(Map([Entry(Tstr(a), x), Entry(Tstr(b), y)])) <==> JsShaped(x) && JsShaped(y)
  {
    var d, name := [Entry(Tstr(a), x), Entry(Tstr(b), y)], PROTO_NAME;
    assert |name| == 9;
    assert d[0].val == x && d[1].val == y;
  }

  /** The lengths of the issued message and of its data are safe. */
  predicate IssuedCarried(issued: Issued, issuedAt: int)
  {
    var data := SdocData(issuedAt, StoredValues(issued.slots));
    Encodable(Map(data)) && SO.Carried(issued.cose, data)
  }

  /**
   * The parsed document is the issued one if and only if its lengths, its time and its stored values are
   * safe. With safe lengths it carries the issuer's identity, the signed message and the stored values,
   * and its time survives exactly when that is safe: from 2^31 up to 2^32 - 1 it comes back negative.
   */
  lemma {:induction false} IssuedParses(iss: Issuer, slots: seq<Slot>, issuedAt: int, key: Option<bytes -> bytes>,
                                        kid: bytes)
    requires |slots| == |iss.schema| && SignSlots(iss, slots, issuedAt, key).Ok? && iss.keyId == ToHex(kid)
    requires IsNumber(issuedAt) && SafeArg(|kid|)
    requires forall i :: 0 <= i < |slots| && Encodable(StoredValue(slots[i])) ==> Profile(StoredValue(slots[i]))
    ensures Encodable(Map(SdocData(issuedAt, StoredValues(slots))))
    ensures var issued := SignSlots(iss, slots, issuedAt, key).value;
      var stored := StoredValues(slots);
      var data := SdocData(issuedAt, stored);
      var o := SO.ParseSignedObject(issued.wire);
      && issued.cose.tcertNumber == Some(iss.number)
      && (o == Ok(SO.AsBuilt(SO.Sdoc, data, iss.algorithm, kid, issued.cose))
          <==> IssuedCarried(issued, issuedAt) && SafeInt(issuedAt) && JsSafe(Array(stored)))
      && (IssuedCarried(issued, issuedAt) && JsShaped(Array(stored)) ==>
            && o == Ok(SO.AsDelivered(SO.Sdoc, data, iss.algorithm, kid, issued.cose))
            && IssuedAt(o.value) == Some(Lowered(issuedAt))
            && (IssuedAt(o.value) == Some(issuedAt) <==> SafeInt(issuedAt))
            && St.Get(o.value.data, "fields") == Some(JsImage(Array(stored))))
  {
    var stored := StoredValues(slots);
    var aad := IssuedBuild(iss, slots, issuedAt, key);
    SdocParses(issuedAt, stored, iss.algorithm, kid, key.value, aad, iss.number);
    SdocDataSafety(issuedAt, stored);
    LoweredMeaning(issuedAt);
  }

  /** The issued bytes are the signed object around the stored values. */
  lemma {:induction false} IssuedBuild(iss: Issuer, slots: seq<Slot>, issuedAt: int, key: Option<bytes -> bytes>)
    returns (aad: bytes)
    requires |slots| == |iss.schema| && SignSlots(iss, slots, issuedAt, key).Ok?
    ensures var issued := SignSlots(iss, slots, issuedAt, key).value;
      var built := SO.BuildSignedObject(SO.Sdoc, SdocData(issuedAt, StoredValues(slots)), iss.algorithm, iss.keyId,
                                        key.value, aad, Some(iss.number));
      key.Some? && issued.slots == slots && built.Ok? && built.value.wire == issued.wire
        && built.value.cose == issued.cose
  {
    aad := Aad(SignSlots(iss, slots, issuedAt, key).value.secrets).value;
  }

  lemma {:induction false} SdocParses(issuedAt: int, stored: seq<Value>, alg: SO.Algorithm, kid: bytes,
                                      sign: bytes -> bytes, aad: bytes, number: int)
    requires SO.BuildSignedObject(SO.Sdoc, SdocData(issuedAt, stored), alg, ToHex(kid), sign, aad, Some(number)).Ok?
    requires IsNumber(issuedAt) && SafeArg(|kid|)
    requires forall i :: 0 <= i < |stored| && Encodable(stored[i]) ==> Profile(stored[i])
    ensures Encodable(Map(SdocData(issuedAt, stored)))
    ensures var data := SdocData(issuedAt, stored);
      var built := SO.BuildSignedObject(SO.Sdoc, data, alg, ToHex(kid), sign, aad, Some(number)).value;
      var o := SO.ParseSignedObject(built.wire);
      && built.cose.tcertNumber == Some(number)
      && (o == Ok(SO.AsBuilt(SO.Sdoc, data, alg, kid, built.cose))
          <==> SO.Carried(built.cose, data) && JsSafe(Map(data)))
      && (SO.Carried(built.cose, data) && JsShaped(Map(data)) ==>
            && o == Ok(SO.AsDelivered(SO.Sdoc, data, alg, kid, built.cose))
            && IssuedAt(o.value) == Some(Lowered(issuedAt))
            && St.Get(o.value.data, "fields") == Some(JsImage(Array(stored))))
  {
    var d := SdocData(issuedAt, stored);
    SdocDataShape(issuedAt, stored);
    SdocDataConforms(issuedAt, stored);
    SO.ParseInvertsBuild(SO.Sdoc, d, alg, kid, sign, aad, Some(number));
    DataReadsBack(d, issuedAt, stored);
  }

  lemma {:induction false} DataReadsBack(d: seq<Entry>, issuedAt: int, stored: seq<Value>)
    requires Profile(Map(d)) && St.Get(d, "issuedAt") == Some(Int(issuedAt))
    requires St.Get(d, "fields") == Some(Array(stored))
    ensures St.Get(JsImage(Map(d)).entries, "issuedAt") == Some(Int(Lowered(issuedAt)))
    ensures St.Get(JsImage(Map(d)).entries, "fields") == Some(JsImage(Array(stored)))
  {
    Cose.LookupImage(d, Tstr("issuedAt"));
    Cose.LookupImage(d, Tstr("fields"));
  }

  /** Stored dictionaries have distinct keys. */
  predicate Genuine(slots: seq<Slot>)
  {
    forall i :: 0 <= i < |slots| && Encodable(StoredValue(slots[i])) ==> Profile(StoredValue(slots[i]))
  }

  /** What the verifier needs to read the issued document: expected lengths, texts and keys, and any integers. */
  predicate Deliverable(issued: Issued, issuedAt: int, kid: bytes)
  {
    && Genuine(issued.slots) && IssuedCarried(issued, issuedAt) && SafeArg(|kid|)
    && JsShaped(Array(StoredValues(issued.slots)))
  }

  /** A deliverable document is read with its fields as they were stored, and all its integers lowered. */
  lemma {:induction false} DeliveredDocument(iss: Issuer, slots: seq<Slot>, issuedAt: int, key: Option<bytes -> bytes>,
                                             kid: bytes)
    returns (doc: SO.SignedObject)
    requires |slots| == |iss.schema| && SignSlots(iss, slots, issuedAt, key).Ok? && iss.keyId == ToHex(kid)
    requires IsNumber(issuedAt) && Deliverable(SignSlots(iss, slots, issuedAt, key).value, issuedAt, kid)
    ensures var issued := SignSlots(iss, slots, issuedAt, key).value;
      && SO.ParseSignedObject(issued.wire) == Ok(doc) && doc.kind == SO.Sdoc && doc.signerKeyId == iss.keyId
      && doc.cose == issued.cose && doc.cose.tcertNumber == Some(iss.number)
      && IssuedAt(doc) == Some(Lowered(issuedAt))
      && St.Get(doc.data, "fields") == Some(JsImage(Array(StoredValues(slots))))
  {
    IssuedParses(iss, slots, issuedAt, key, kid);
    doc := SO.ParseSignedObject(SignSlots(iss, slots, issuedAt, key).value.wire).value;
  }

  /* ---------------------------------- the theorem ------------------------------- */

  /** The lifecycle conditions on the issuer's TCert at the verifier. */
  ghost predicate InGoodStanding(v: Verifier, id: TcertId, t: SO.SignedObject, doc: SO.SignedObject, sdocId: string)
    requires IssuedAt(doc).Some?
  {
    && TcertAccepted(v, doc, t) && TrustOf(v.env, v.s, id) == Valid
    && RevocationCheck(v.s.rev, id, doc.signerKeyId, IssuedAt(doc).value, sdocId) == Valid
  }

  /**
   * A field of an issued document stands up: the engine accepts the stored value as it is read, and an
   * inline-bound value is entered as it is shown. A null that an engine stored counts as missing.
   */
  predicate FieldStands(v: Verifier, f: FieldSchema, slot: Slot, i: nat)
  {
    slot.Stored? && v.fe.engine(f.ftype).Some? ==>
      if slot.value == Null then !f.required
      else
        && EnginePasses(v.fe.engine(f.ftype).value, f, JsImage(slot.value), v.ctx)
        && (IsInline(f) ==> Matches(v.fe, f, v.fe.engine(f.ftype).value, JsImage(slot.value), v.ask(i)))
  }

  predicate FieldsStand(v: Verifier, schema: seq<FieldSchema>, slots: seq<Slot>)
    requires |slots| == |schema|
  {
    forall i :: 0 <= i < |schema| ==> FieldStands(v, schema[i], slots[i], i)
  }

  lemma {:induction false} ImageItemsAt(items: seq<Value>, i: nat)
    requires i < |items|
    ensures LowerItems(CanonItems(items))[i] == JsImage(items[i])
  {
    LowerHead(items);
    if i > 0 {
      ImageItemsAt(items[1..], i - 1);
    }
  }

  lemma {:induction false} StoredAtSlot(doc: SO.SignedObject, slots: seq<Slot>, i: nat)
    requires i < |slots| && St.Get(doc.data, "fields") == Some(JsImage(Array(StoredValues(slots))))
    ensures StoredAt(doc, i) == if StoredValue(slots[i]) != Null then Some(JsImage(StoredValue(slots[i]))) else None
  {
    ImageItemsAt(StoredValues(slots), i);
  }

  /** One field of an issued document is accepted exactly when it stands up. */
  lemma {:induction false} IssuedFieldAccepted(v: Verifier, f: FieldSchema, slot: Slot, stored: Option<Value>, i: nat,
                                               values: map<string, Value>, now: int)
    requires SlotOf(v.fe, f, values, now) == Ok(slot)
    requires stored == if StoredValue(slot) != Null then Some(JsImage(StoredValue(slot))) else None
    ensures FieldAccepted(v.fe, f, stored, v.ask(i), v.ctx) <==> FieldStands(v, f, slot, i)
  {
    SlotStripped(v.fe, f, values, now);
  }

  lemma {:induction false} IssuedFieldsAccepted(v: Verifier, schema: seq<FieldSchema>, slots: seq<Slot>,
                                                doc: SO.SignedObject, values: map<string, Value>, now: int)
    requires Slots(v.fe, schema, values, now, |schema|) == Ok(slots)
    requires St.Get(doc.data, "fields") == Some(JsImage(Array(StoredValues(slots))))
    ensures (forall i :: 0 <= i < |schema| ==> AcceptedAt(v, schema, doc, i)) <==> FieldsStand(v, schema, slots)
  {
    forall i | 0 <= i < |schema| ensures AcceptedAt(v, schema, doc, i) <==> FieldStands(v, schema[i], slots[i], i) {
      SlotAt(v.fe, schema, values, now, |schema|, i);
      StoredAtSlot(doc, slots, i);
      IssuedFieldAccepted(v, schema[i], slots[i], StoredAt(doc, i), i, values, now);
    }
  }

  /** The verifier reads protocol objects with the protocol's own parser. */
  ghost predicate ReadsProtocol(env: Env)
  {
    forall w :: env.parse(w) == match SO.ParseSignedObject(w) case Ok(o) => Some(o) case Err(_) => None
  }

  /** The verifier holds the issuer's TCert. */
  predicate Holds(v: Verifier, iss: Issuer)
  {
    && GetCert(v.s.certs, TcertIdOf(iss.keyId, iss.number)).Some?
    && v.env.parse(GetCert(v.s.certs, TcertIdOf(iss.keyId, iss.number)).value) == Some(iss.tcert)
  }

  /**
   * A document on its way from the issuer to a verifier with the protocol's parser and ideal
   * signatures, who holds the issuer's TCert.
   */
  ghost predicate Setting(v: Verifier, ledger: set<Made>, iss: Issuer, issued: Issued, issuedAt: int, kid: bytes)
  {
    && iss.keyId == ToHex(kid) && Deliverable(issued, issuedAt, kid)
    && Holds(v, iss) && ReadsProtocol(v.env)
    && Ideal(v.env, ledger) && OneMessageEach(ledger)
    && Made(v.env.publicKey(iss.tcert), issued.message, issued.cose.signature) in ledger
  }

  /** What makes the issued document valid. */
  ghost predicate ShouldVerify(v: Verifier, iss: Issuer, slots: seq<Slot>, issued: Issued, doc: SO.SignedObject)
    requires |slots| == |iss.schema| && IssuedAt(doc).Some?
  {
    && InGoodStanding(v, TcertIdOf(iss.keyId, iss.number), iss.tcert, doc, v.env.sdocId(issued.wire))
    && AllAnswered(iss.schema, v.ask)
    && SecretsMatch(iss.schema, SlotText(slots), v.ask)
    && FieldsStand(v, iss.schema, slots)
  }

  lemma {:induction false} AcceptableIssued(v: Verifier, iss: Issuer, wire: bytes, doc: SO.SignedObject)
    requires Holds(v, iss) && v.env.parse(wire) == Some(doc)
    requires doc.kind == SO.Sdoc && doc.signerKeyId == iss.keyId && doc.cose.tcertNumber == Some(iss.number)
    requires Cose.IsTcertNumber(iss.number) && SchemaOf(iss.tcert) == Some(iss.schema) && IssuedAt(doc).Some?
    ensures Acceptable(v, wire)
      <==> InGoodStanding(v, TcertIdOf(iss.keyId, iss.number), iss.tcert, doc, v.env.sdocId(wire))
           && ContentAccepted(v, doc, iss.tcert, iss.schema)
  {
    assert SignerTcert(v, doc) == Some(Signer(TcertIdOf(iss.keyId, iss.number), iss.tcert));
  }

  /**
   * Issue, then verify. A document issued under a TCert that the verifier holds, read with the
   * protocol's parser and checked with ideal signatures, is valid if and only if the TCert is
   * authentic, in its window and trusted, the document is young enough by the time it is read with,
   * nothing is revoked or blocked, every stripped field is answered, the answers are under every name
   * but `__proto__` the secrets it was issued with, the engines accept the stored values as they are
   * read, and the inline-bound ones match. The time read is the time signed exactly when that is safe.
   */
  lemma {:induction false} IssuedVerifies(v: Verifier, ledger: set<Made>, s: State, tcertId: TcertId,
                                          values: map<string, Value>, now: int, issuedAt: int,
                                          key: Option<bytes -> bytes>, kid: bytes)
    requires Issuance(v.env, v.fe, s, tcertId, values, now, issuedAt, key).Ok? && IsNumber(issuedAt)
    requires var iss := IssuerOf(v.env, s, tcertId, now).value;
      var issued := Issuance(v.env, v.fe, s, tcertId, values, now, issuedAt, key).value;
      Setting(v, ledger, iss, issued, issuedAt, kid)
    ensures var iss := IssuerOf(v.env, s, tcertId, now).value;
      var issued := Issuance(v.env, v.fe, s, tcertId, values, now, issuedAt, key).value;
      && |issued.slots| == |iss.schema| && SO.ParseSignedObject(issued.wire).Ok?
      && var doc := SO.ParseSignedObject(issued.wire).value;
      && doc.signerKeyId == iss.keyId && IssuedAt(doc) == Some(Lowered(issuedAt))
      && (IssuedAt(doc) == Some(issuedAt) <==> SafeInt(issuedAt))
      && (Report(v, issued.wire).Ok? && Report(v, issued.wire).value.overall == Valid
          <==> ShouldVerify(v, iss, issued.slots, issued, doc))
  {
    var iss := IssuerOf(v.env, s, tcertId, now).value;
    var slots := IssuedSlots(v.env, v.fe, s, tcertId, values, now, issuedAt, key);
    IssuerFacts(v.env, s, tcertId, now);
    SlotsVerify(v, ledger, iss, slots, values, now, issuedAt, key, kid);
    LoweredMeaning(issuedAt);
  }

  lemma {:induction false} SlotsVerify(v: Verifier, ledger: set<Made>, iss: Issuer, slots: seq<Slot>,
                                       values: map<string, Value>, now: int, issuedAt: int, key: Option<bytes -> bytes>,
                                       kid: bytes)
    requires Slots(v.fe, iss.schema, values, now, |iss.schema|) == Ok(slots)
    requires SignSlots(iss, slots, issuedAt, key).Ok? && IsNumber(issuedAt)
    requires Cose.IsTcertNumber(iss.number) && SchemaOf(iss.tcert) == Some(iss.schema)
    requires Setting(v, ledger, iss, SignSlots(iss, slots, issuedAt, key).value, issuedAt, kid)
    ensures var issued := SignSlots(iss, slots, issuedAt, key).value;
      && SO.ParseSignedObject(issued.wire).Ok?
      && var doc := SO.ParseSignedObject(issued.wire).value;
      && doc.signerKeyId == iss.keyId && IssuedAt(doc) == Some(Lowered(issuedAt))
      && (Report(v, issued.wire).Ok? && Report(v, issued.wire).value.overall == Valid
          <==> ShouldVerify(v, iss, slots, issued, doc))
  {
    var doc := DeliveredDocument(iss, slots, issuedAt, key, kid);
    SignedVerifies(v, ledger, iss, slots, values, now, issuedAt, key, doc);
  }

  lemma {:induction false} SignedVerifies(v: Verifier, ledger: set<Made>, iss: Issuer, slots: seq<Slot>,
                                          values: map<string, Value>, now: int, issuedAt: int,
                                          key: Option<bytes -> bytes>, doc: SO.SignedObject)
    requires Slots(v.fe, iss.schema, values, now, |iss.schema|) == Ok(slots)
    requires SignSlots(iss, slots, issuedAt, key).Ok?
    requires Cose.IsTcertNumber(iss.number) && SchemaOf(iss.tcert) == Some(iss.schema)
    requires Holds(v, iss)
    requires var issued := SignSlots(iss, slots, issuedAt, key).value;
      && Made(v.env.publicKey(iss.tcert), issued.message, issued.cose.signature) in ledger
      && v.env.parse(issued.wire) == Some(doc) && doc.cose == issued.cose
    requires doc.kind == SO.Sdoc && doc.signerKeyId == iss.keyId && doc.cose.tcertNumber == Some(iss.number)
    requires IssuedAt(doc).Some? && St.Get(doc.data, "fields") == Some(JsImage(Array(StoredValues(slots))))
    requires Ideal(v.env, ledger) && OneMessageEach(ledger)
    ensures var issued := SignSlots(iss, slots, issuedAt, key).value;
      (Report(v, issued.wire).Ok? && Report(v, issued.wire).value.overall == Valid)
      <==> ShouldVerify(v, iss, slots, issued, doc)
  {
    var issued := SignSlots(iss, slots, issuedAt, key).value;
    AcceptableIssued(v, iss, issued.wire, doc);
    IssuedFieldsAccepted(v, iss.schema, slots, doc, values, now);
    SignedMessage(iss, slots, issuedAt, key);
    SignatureBindsSecrets(v, ledger, iss, slots, issuedAt, key, doc, iss.tcert);
    SecretsByName(iss.schema, SlotText(slots), v.ask);
    VerdictIsExact(v, issued.wire);
  }

  lemma {:induction false} IssuerFacts(env: Env, s: State, tcertId: TcertId, now: int)
    requires IssuerOf(env, s, tcertId, now).Ok?
    ensures var iss := IssuerOf(env, s, tcertId, now).value;
      Cose.IsTcertNumber(iss.number) && SchemaOf(iss.tcert) == Some(iss.schema) && iss.tcert.kind == SO.Tcert
      && env.verifies(iss.algorithm, iss.tcert, env.publicKey(iss.tcert), [])
  {
  }

  /** The TCert is pinned, not distrusted, in its window and young enough, and nothing is revoked or blocked. */
  ghost predicate PinnedAndClear(v: Verifier, iss: Issuer, readAt: int, sdocId: string)
  {
    var id := TcertIdOf(iss.keyId, iss.number);
    && SelfCertified(v.env, iss.tcert) && InBounds(iss.tcert, v.now)
    && (forall m :: AgeLimit(iss.tcert, m) ==> v.now - readAt <= m)
    && id in v.s.trust.pinned && id !in v.s.trust.distrusted
    && iss.keyId !in v.s.rev.keys && !TcertRevoked(v.s.rev, id) && sdocId !in v.s.rev.blocked
  }

  /** Every stripped value is entered, and was supplied at issuance as it is entered unless nothing binds it. */
  ghost predicate SecretsReentered(v: Verifier, schema: seq<FieldSchema>, slots: seq<Slot>)
    requires |slots| == |schema|
  {
    && AllAnswered(schema, v.ask)
    && forall i :: 0 <= i < |schema| && IsSecret(schema[i]) ==> slots[i].Stripped? && v.ask(i) == Some(slots[i].text)
  }

  /** Every inline-bound field that was stored is entered as it is shown. */
  ghost predicate InlineMatches(v: Verifier, schema: seq<FieldSchema>, slots: seq<Slot>)
    requires |slots| == |schema|
  {
    forall i :: 0 <= i < |schema| && IsInline(schema[i]) && slots[i].Stored? ==>
      v.fe.engine(schema[i].ftype).Some?
      && Matches(v.fe, schema[i], v.fe.engine(schema[i].ftype).value, Canon(slots[i].value), v.ask(i))
  }

  lemma {:induction false} ClearIsGoodStanding(v: Verifier, iss: Issuer, doc: SO.SignedObject, readAt: int,
                                               sdocId: string)
    requires PinnedAndClear(v, iss, readAt, sdocId) && IssuedAt(doc) == Some(readAt) && doc.signerKeyId == iss.keyId
    ensures InGoodStanding(v, TcertIdOf(iss.keyId, iss.number), iss.tcert, doc, sdocId)
  {
    MemoryStores.EffectiveRevocationIsWorst(v.s.rev, TcertIdOf(iss.keyId, iss.number));
  }

  lemma {:induction false} ReenteredAreSame(v: Verifier, schema: seq<FieldSchema>, slots: seq<Slot>)
    requires |slots| == |schema| && SecretsReentered(v, schema, slots)
    ensures SecretsMatch(schema, SlotText(slots), v.ask)
  {
    forall i | 0 <= i < |schema| && IsSecret(schema[i])
      ensures LastText(schema, SlotText(slots), schema[i].name, |schema|)
           == LastText(schema, v.ask, schema[i].name, |schema|)
    {
      SameTexts(schema, SlotText(slots), v.ask, schema[i].name, |schema|);
    }
  }

  lemma {:induction false} SameTexts(schema: seq<FieldSchema>, t: nat -> Option<string>, u: nat -> Option<string>,
                                     name: string, n: nat)
    requires n <= |schema| && name != PROTO_NAME && forall i :: 0 <= i < n && IsSecret(schema[i]) ==> t(i) == u(i)
    ensures LastText(schema, t, name, n) == LastText(schema, u, name, n)
  {
    if n == 0 {
    } else {
      SameTexts(schema, t, u, name, n - 1);
    }
  }

  /** Safe stored values of engines that accept them back stand up when the inline-bound ones match. */
  lemma {:induction false} AcceptedBackStand(v: Verifier, schema: seq<FieldSchema>, slots: seq<Slot>,
                                             values: map<string, Value>, now: int)
    requires Slots(v.fe, schema, values, now, |schema|) == Ok(slots) && JsSafe(Array(StoredValues(slots)))
    requires EnginesAcceptBack(v.fe, schema, v.ctx) && InlineMatches(v, schema, slots)
    ensures FieldsStand(v, schema, slots)
  {
    forall i | 0 <= i < |schema| ensures FieldStands(v, schema[i], slots[i], i) {
      SlotAt(v.fe, schema, values, now, |schema|, i);
      assert StoredValues(slots)[i] == StoredValue(slots[i]);
      SafeImage(StoredValue(slots[i]));
      StoredStands(v, schema[i], slots[i], i, values, now);
    }
  }

  lemma {:induction false} StoredStands(v: Verifier, f: FieldSchema, slot: Slot, i: nat, values: map<string, Value>,
                                        now: int)
    requires SlotOf(v.fe, f, values, now) == Ok(slot) && JsImage(StoredValue(slot)) == Canon(StoredValue(slot))
    requires v.fe.engine(f.ftype).Some? ==> AcceptsBack(v.fe.engine(f.ftype).value, f, v.ctx)
    requires IsInline(f) && slot.Stored? && v.fe.engine(f.ftype).Some? ==>
      Matches(v.fe, f, v.fe.engine(f.ftype).value, Canon(slot.value), v.ask(i))
    ensures FieldStands(v, f, slot, i)
  {
    if slot.Stored? {
      assert v.fe.engine(f.ftype).value.validateInput(f, GivenValue(v.fe, f, values, now).value);
    }
  }

  /** The setting, a TCert in good standing, and everything entered as it was supplied. */
  ghost predicate Complete(v: Verifier, ledger: set<Made>, iss: Issuer, issued: Issued, issuedAt: int, kid: bytes)
  {
    && Setting(v, ledger, iss, issued, issuedAt, kid)
    && PinnedAndClear(v, iss, Lowered(issuedAt), v.env.sdocId(issued.wire))
    && |issued.slots| == |iss.schema| && SecretsReentered(v, iss.schema, issued.slots)
    && EnginesAcceptBack(v.fe, iss.schema, v.ctx) && JsSafe(Array(StoredValues(issued.slots)))
    && InlineMatches(v, iss.schema, issued.slots)
  }

  /**
   * Completeness: with safe values that the engines accept back, every stripped value supplied at
   * issuance and entered again, every inline-bound value matched, and the TCert pinned, not distrusted,
   * in its window and with nothing revoked or blocked, an issued document verifies as valid.
   */
  lemma {:induction false} IssueThenVerifyIsValid(v: Verifier, ledger: set<Made>, s: State, tcertId: TcertId,
                                                  values: map<string, Value>, now: int, issuedAt: int,
                                                  key: Option<bytes -> bytes>, kid: bytes)
    requires Issuance(v.env, v.fe, s, tcertId, values, now, issuedAt, key).Ok? && IsNumber(issuedAt)
    requires var iss := IssuerOf(v.env, s, tcertId, now).value;
      var issued := Issuance(v.env, v.fe, s, tcertId, values, now, issuedAt, key).value;
      Complete(v, ledger, iss, issued, issuedAt, kid)
    ensures var issued := Issuance(v.env, v.fe, s, tcertId, values, now, issuedAt, key).value;
      Report(v, issued.wire).Ok? && Report(v, issued.wire).value.overall == Valid
  {
    var iss := IssuerOf(v.env, s, tcertId, now).value;
    var slots := IssuedSlots(v.env, v.fe, s, tcertId, values, now, issuedAt, key);
    IssuerFacts(v.env, s, tcertId, now);
    SlotsValid(v, ledger, iss, slots, values, now, issuedAt, key, kid);
  }

  lemma {:induction false} SlotsValid(v: Verifier, ledger: set<Made>, iss: Issuer, slots: seq<Slot>,
                                      values: map<string, Value>, now: int, issuedAt: int, key: Option<bytes -> bytes>,
                                      kid: bytes)
    requires Slots(v.fe, iss.schema, values, now, |iss.schema|) == Ok(slots)
    requires SignSlots(iss, slots, issuedAt, key).Ok? && IsNumber(issuedAt)
    requires Cose.IsTcertNumber(iss.number) && SchemaOf(iss.tcert) == Some(iss.schema)
    requires Complete(v, ledger, iss, SignSlots(iss, slots, issuedAt, key).value, issuedAt, kid)
    ensures var issued := SignSlots(iss, slots, issuedAt, key).value;
      Report(v, issued.wire).Ok? && Report(v, issued.wire).value.overall == Valid
  {
    var issued := SignSlots(iss, slots, issuedAt, key).value;
    assert issued.slots == slots;
    SlotsVerify(v, ledger, iss, slots, values, now, issuedAt, key, kid);
    CompleteShouldVerify(v, ledger, iss, slots, issued, SO.ParseSignedObject(issued.wire).value, issuedAt, kid, values,
                         now);
  }

  lemma {:induction false} CompleteShouldVerify(v: Verifier, ledger: set<Made>, iss: Issuer, slots: seq<Slot>,
                                                issued: Issued, doc: SO.SignedObject, issuedAt: int, kid: bytes,
                                                values: map<string, Value>, now: int)
    requires Slots(v.fe, iss.schema, values, now, |iss.schema|) == Ok(slots) && issued.slots == slots
    requires Complete(v, ledger, iss, issued, issuedAt, kid)
    requires IssuedAt(doc) == Some(Lowered(issuedAt)) && doc.signerKeyId == iss.keyId
    ensures ShouldVerify(v, iss, slots, issued, doc)
  {
    ReenteredShouldVerify(v, iss, slots, issued, doc, Lowered(issuedAt), values, now);
  }

  lemma {:induction false} ReenteredShouldVerify(v: Verifier, iss: Issuer, slots: seq<Slot>, issued: Issued,
                                                 doc: SO.SignedObject, readAt: int, values: map<string, Value>,
                                                 now: int)
    requires Slots(v.fe, iss.schema, values, now, |iss.schema|) == Ok(slots)
    requires JsSafe(Array(StoredValues(slots))) && EnginesAcceptBack(v.fe, iss.schema, v.ctx)
    requires SecretsReentered(v, iss.schema, slots) && InlineMatches(v, iss.schema, slots)
    requires PinnedAndClear(v, iss, readAt, v.env.sdocId(issued.wire))
    requires IssuedAt(doc) == Some(readAt) && doc.signerKeyId == iss.keyId
    ensures ShouldVerify(v, iss, slots, issued, doc)
  {
    AcceptedBackStand(v, iss.schema, slots, values, now);
    ReenteredAreSame(v, iss.schema, slots);
    ClearIsGoodStanding(v, iss, doc, readAt, v.env.sdocId(issued.wire));
  }

  /**
   * The other side of the lowered time: with a maximal age below 2^32 seconds, a document signed in
   * 2038 to 2106 is never valid, not even the moment it was issued.
   */
  lemma {:induction false} LateDocumentsLookOld(v: Verifier, ledger: set<Made>, s: State, tcertId: TcertId,
                                                values: map<string, Value>, now: int, issuedAt: int,
                                                key: Option<bytes -> bytes>, kid: bytes, limit: int)
    requires Issuance(v.env, v.fe, s, tcertId, values, now, issuedAt, key).Ok?
    requires SIGN_BIT <= issuedAt <= 0xFFFF_FFFF && issuedAt <= v.now && limit < 0x1_0000_0000
    requires var iss := IssuerOf(v.env, s, tcertId, now).value;
      var issued := Issuance(v.env, v.fe, s, tcertId, values, now, issuedAt, key).value;
      Setting(v, ledger, iss, issued, issuedAt, kid) && AgeLimit(iss.tcert, limit)
    ensures var issued := Issuance(v.env, v.fe, s, tcertId, values, now, issuedAt, key).value;
      !(Report(v, issued.wire).Ok? && Report(v, issued.wire).value.overall == Valid)
  {
    var iss := IssuerOf(v.env, s, tcertId, now).value;
    IssuedVerifies(v, ledger, s, tcertId, values, now, issuedAt, key, kid);
    var issued := Issuance(v.env, v.fe, s, tcertId, values, now, issuedAt, key).value;
    LooksOld(v, iss, SO.ParseSignedObject(issued.wire).value, issuedAt, limit);
  }

  lemma {:induction false} LooksOld(v: Verifier, iss: Issuer, doc: SO.SignedObject, issuedAt: int, limit: int)
    requires SIGN_BIT <= issuedAt <= 0xFFFF_FFFF && issuedAt <= v.now && IssuedAt(doc) == Some(Lowered(issuedAt))
    requires AgeLimit(iss.tcert, limit) && limit < 0x1_0000_0000
    ensures !TcertAccepted(v, doc, iss.tcert)
  {
  }

  /**
   * The lowered time also breaks prospective revocation: a document signed in 2038 to 2106 is read with a
   * time before 1970, so it passes all prospective revocations of its TCert that are not older than that,
   * although it was signed after them.
   */
  lemma {:induction false} LateDocumentsPassRevocations(v: Verifier, ledger: set<Made>, s: State, tcertId: TcertId,
                                                        values: map<string, Value>, now: int, issuedAt: int,
                                                        key: Option<bytes -> bytes>, kid: bytes)
    requires Issuance(v.env, v.fe, s, tcertId, values, now, issuedAt, key).Ok?
    requires SIGN_BIT <= issuedAt <= 0xFFFF_FFFF
    requires var iss := IssuerOf(v.env, s, tcertId, now).value;
      var issued := Issuance(v.env, v.fe, s, tcertId, values, now, issuedAt, key).value;
      var entries := RevocationsOf(v.s.rev, TcertIdOf(iss.keyId, iss.number));
      && Setting(v, ledger, iss, issued, issuedAt, kid)
      && iss.keyId !in v.s.rev.keys && entries != []
      && forall e :: e in entries ==> e.kind.Prospective? && 0 <= e.issuedAt
    ensures var iss := IssuerOf(v.env, s, tcertId, now).value;
      var issued := Issuance(v.env, v.fe, s, tcertId, values, now, issuedAt, key).value;
      && |issued.slots| == |iss.schema| && SO.ParseSignedObject(issued.wire).Ok?
      && var doc := SO.ParseSignedObject(issued.wire).value;
      && IssuedAt(doc).Some?
      && (Report(v, issued.wire).Ok? && Report(v, issued.wire).value.overall == Valid
          <==> StandsBesideRevocation(v, iss, issued.slots, doc))
  {
    var iss := IssuerOf(v.env, s, tcertId, now).value;
    IssuedVerifies(v, ledger, s, tcertId, values, now, issuedAt, key, kid);
    var issued := Issuance(v.env, v.fe, s, tcertId, values, now, issuedAt, key).value;
    LatePasses(v, iss, issued.slots, issued, SO.ParseSignedObject(issued.wire).value, issuedAt);
  }

  lemma {:induction false} LatePasses(v: Verifier, iss: Issuer, slots: seq<Slot>, issued: Issued, doc: SO.SignedObject,
                                      issuedAt: int)
    requires |slots| == |iss.schema| && SIGN_BIT <= issuedAt <= 0xFFFF_FFFF
    requires IssuedAt(doc) == Some(Lowered(issuedAt)) && doc.signerKeyId == iss.keyId && iss.keyId !in v.s.rev.keys
    requires var entries := RevocationsOf(v.s.rev, TcertIdOf(iss.keyId, iss.number));
      entries != [] && forall e :: e in entries ==> e.kind.Prospective? && 0 <= e.issuedAt
    ensures ShouldVerify(v, iss, slots, issued, doc) <==> StandsBesideRevocation(v, iss, slots, doc)
  {
    var entries := RevocationsOf(v.s.rev, TcertIdOf(iss.keyId, iss.number));
    assert entries[0] in entries;
    Permanence.RevocationCheckMeaning(v.s.rev, TcertIdOf(iss.keyId, iss.number), iss.keyId, Lowered(issuedAt),
                                      v.env.sdocId(issued.wire));
  }

  /** Every condition of validity but the revocation check. */
  ghost predicate StandsBesideRevocation(v: Verifier, iss: Issuer, slots: seq<Slot>, doc: SO.SignedObject)
    requires |slots| == |iss.schema| && IssuedAt(doc).Some?
  {
    && TcertAccepted(v, doc, iss.tcert) && TrustOf(v.env, v.s, TcertIdOf(iss.keyId, iss.number)) == Valid
    && AllAnswered(iss.schema, v.ask) && SecretsMatch(iss.schema, SlotText(slots), v.ask)
    && FieldsStand(v, iss.schema, slots)
  }
}
