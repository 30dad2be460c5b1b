/** Issuing documents: the schema walk, the split into stored and stripped values, and the signature. */
module Signing {
  import opened Bytes
  import opened Cbor
  import opened CborDecoder
  import opened Fields
  import opened Ids
  import opened ServiceState
  import Cose
  import Op = Operations
  import SO = SignedObjects
  import Svc = Services
  import St = Statements

  /** What became of one schema field: stored, signed without being stored, or omitted. */
  datatype Slot = Stored(value: Value) | Stripped(text: string) | Omitted

  /** The entry of the stored values that a slot gives. */
  function StoredValue(s: Slot): Value { if s.Stored? then s.value else Null }

  function StoredValues(slots: seq<Slot>): seq<Value>
  {
    seq(|slots|, i requires 0 <= i < |slots| => StoredValue(slots[i]))
  }

  /** `values[name]`, which finds inherited members too, or the field's declared default. */
  function GivenValue(fe: FieldEnv, f: FieldSchema, values: map<string, Value>, now: int): Option<Value>
  {
    if f.name in values then Some(values[f.name])
    else if fe.inherited(f.name).Some? then fe.inherited(f.name)
    else if f.default.Some? then Some(DefaultValue(fe, f, f.default.value, now))
    else None
  }

  /** One turn of the schema walk. */
  function SlotOf(fe: FieldEnv, f: FieldSchema, values: map<string, Value>, now: int): Result<Slot>
  {
    if f.ftype !in FIELD_TYPES then Err(ValidationError)
    else if fe.engine(f.ftype).None? then Err(UnsupportedError)
    else
      var e := fe.engine(f.ftype).value;
      match GivenValue(fe, f, values, now)
      case None => if f.required then Err(ValidationError) else Ok(Omitted)
      case Some(v) =>
        if !e.validateInput(f, v) then Err(ValidationError)
        else if IsStripped(f) then Ok(Stripped(fe.text(v)))
        else match e.encode(f, v) case None => Err(ValidationError) case Some(x) => Ok(Stored(x))
  }

  /** The walk over the first `n` fields: their slots, or the first error. */
  function Slots(fe: FieldEnv, schema: seq<FieldSchema>, values: map<string, Value>, now: int,
                 n: nat): (r: Result<seq<Slot>>)
    requires n <= |schema|
    ensures r.Ok? ==> |r.value| == n
  {
    if n == 0 then Ok([])
    else
      var before :- Slots(fe, schema, values, now, n - 1);
      var slot :- SlotOf(fe, schema[n - 1], values, now);
      Ok(before + [slot])
  }

  /** The stripped text of field `i`. */
  function SlotText(slots: seq<Slot>): nat -> Option<string>
  {
    (i: nat) => if i < |slots| && slots[i].Stripped? then Some(slots[i].text) else None
  }

  function SdocData(issuedAt: int, stored: seq<Value>): seq<Entry>
  {
    [Entry(Tstr("issuedAt"), Int(issuedAt)), Entry(Tstr("fields"), Array(stored))]
  }

  datatype Window = Window(validAfter: Option<int>, validBefore: Option<int>, maxAge: Option<int>)

  function IntIn(es: seq<Entry>, name: string): Option<int>
  {
    match St.Get(es, name) case Some(Int(i)) => Some(i) case _ => None
  }

  /** The validity a TCert declares. */
  function WindowOf(tcert: SO.SignedObject): Window
  {
    match St.Get(tcert.data, "validity")
    case Some(Map(es)) => Window(IntIn(es, "validAfter"), IntIn(es, "validBefore"), IntIn(es, "sdocMaxAgeSeconds"))
    case _ => Window(None, None, None)
  }

  predicate InWindow(w: Window, now: int)
  {
    (w.validAfter.Some? ==> w.validAfter.value <= now) && (w.validBefore.Some? ==> now < w.validBefore.value)
  }

  /** The algorithm a TCert declares for its key. */
  function DeclaredAlgorithm(tcert: SO.SignedObject): Option<SO.Algorithm>
  {
    match St.Get(tcert.data, "algorithm")
    case Some(Tstr(t)) => if t == "Ed25519" then Some(SO.Ed25519) else if t == "ECDSA-P256" then Some(SO.EcdsaP256)
      else None
    case _ => None
  }

  /** A TCert that may issue now; `keyId` is derived from the public key it contains. */
  datatype Issuer = Issuer(tcert: SO.SignedObject, keyId: KeyId, number: int, algorithm: SO.Algorithm,
                           schema: seq<FieldSchema>)

  function IssuerOf(env: Env, s: State, tcertId: TcertId, now: int): Result<Issuer>
  {
    var t :- Op.ParsedCert(env, s, tcertId);
    if t.kind != SO.Tcert then Err(ValidationError)
    else
      var n :- Op.TcertNumberOf(t);
      if DeclaredAlgorithm(t).None? then Err(UnsupportedError)
      else if !env.verifies(DeclaredAlgorithm(t).value, t, env.publicKey(t), []) then Err(CryptoError)
      else if !InWindow(WindowOf(t), now) then Err(ValidationError)
      else if SchemaOf(t).None? then Err(ValidationError)
      else
        var alg := DeclaredAlgorithm(t).value;
        Ok(Issuer(t, env.keyIdOf(alg, env.publicKey(t)), n, alg, SchemaOf(t).value))
  }

  datatype Issued = Issued(wire: bytes, message: bytes, slots: seq<Slot>, secrets: seq<Entry>, cose: Cose.CoseSign1)

  /** Signing the walked values; `key` is the private key's signature, when it is held. */
  function SignSlots(iss: Issuer, slots: seq<Slot>, issuedAt: int, key: Option<bytes -> bytes>): Result<Issued>
    requires |slots| == |iss.schema|
  {
    if key.None? then Err(NotFoundError)
    else
      var secrets := SecretMap(iss.schema, SlotText(slots), |slots|);
      var aad :- Aad(secrets);
      var built :- SO.BuildSignedObject(SO.Sdoc, SdocData(issuedAt, StoredValues(slots)), iss.algorithm,
                                        iss.keyId, key.value, aad, Some(iss.number));
      Ok(Issued(built.wire, built.message, slots, secrets, built.cose))
  }

  /** `issueSdoc`. `now` and `issuedAt` are the requested time, or two readings of the clock. */
  function Issuance(env: Env, fe: FieldEnv, s: State, tcertId: TcertId, values: map<string, Value>, now: int,
                    issuedAt: int, key: Option<bytes -> bytes>): Result<Issued>
  {
    var iss :- IssuerOf(env, s, tcertId, now);
    var slots :- Slots(fe, iss.schema, values, now, |iss.schema|);
    SignSlots(iss, slots, issuedAt, key)
  }

  class SigningService {
    const deps: Svc.ServiceDeps
    const fields: FieldEnv

    constructor (deps: Svc.ServiceDeps, fields: FieldEnv)
      ensures this.deps == deps && this.fields == fields
    {
      this.deps := deps;
      this.fields := fields;
    }

    /** The stored TCert must verify, be in its window, and have a schema. */
    method LoadIssuer(tcertId: TcertId, now: int) returns (r: Result<Issuer>)
      ensures r == IssuerOf(deps.env, deps.State(), tcertId, now)
    {
      var tcertBytes := deps.certificateStore.Get(tcertId);
      if tcertBytes.None? {
        return Err(NotFoundError);
      }
      var t := deps.env.parse(tcertBytes.value);
      if t.None? {
        return Err(ParseError);
      }
      if t.value.kind != SO.Tcert {
        return Err(ValidationError);
      }
      var n :- Op.TcertNumberOf(t.value);
      var algorithm := DeclaredAlgorithm(t.value);
      if algorithm.None? {
        return Err(UnsupportedError);
      }
      if !deps.env.verifies(algorithm.value, t.value, deps.env.publicKey(t.value), []) {
        return Err(CryptoError);
      }
      if !InWindow(WindowOf(t.value), now) {
        return Err(ValidationError);
      }
      var schema := SchemaOf(t.value);
      if schema.None? {
        return Err(ValidationError);
      }
      var keyId := deps.env.keyIdOf(algorithm.value, deps.env.publicKey(t.value));
      return Ok(Issuer(t.value, keyId, n, algorithm.value, schema.value));
    }

    /** Issue a document: walk the schema, sign the values and the secrets, keep the document. */
    method IssueSdoc(tcertId: TcertId, values: map<string, Value>, now: int, issuedAt: int, key: Option<bytes -> bytes>)
      returns (r: Result<Issued>)
      modifies deps.documentStore
      ensures r == Issuance(deps.env, fields, old(deps.State()), tcertId, values, now, issuedAt, key)
      ensures deps.State() == if r.Ok?
                              then Op.WithSdoc(old(deps.State()), deps.env.sdocId(r.value.wire), r.value.wire)
                              else old(deps.State())
    {
      var iss :- LoadIssuer(tcertId, now);
      var walked :- WalkSchema(iss.schema, values, now);
      IssuanceSigns(deps.env, fields, deps.State(), tcertId, values, now, issuedAt, key, iss, walked.0);
      r := SignValues(iss, walked.0, walked.1, issuedAt, key);
      if r.Ok? {
        deps.documentStore.Save(deps.env.sdocId(r.value.wire), r.value.wire);
      }
    }

    method SignValues(iss: Issuer, slots: seq<Slot>, secrets: seq<Entry>, issuedAt: int, key: Option<bytes -> bytes>)
      returns (r: Result<Issued>)
      requires |slots| == |iss.schema| && secrets == SecretMap(iss.schema, SlotText(slots), |slots|)
      ensures r == SignSlots(iss, slots, issuedAt, key)
    {
      if key.None? {
        return Err(NotFoundError);
      }
      var aad :- Aad(secrets);
      var built :- SO.BuildSignedObject(SO.Sdoc, SdocData(issuedAt, StoredValues(slots)), iss.algorithm,
                                        iss.keyId, key.value, aad, Some(iss.number));
      return Ok(Issued(built.wire, built.message, slots, secrets, built.cose));
    }

    /** Push one stored value per field, and collect the stripped ones by name. */
    method WalkSchema(schema: seq<FieldSchema>, values: map<string, Value>, now: int)
      returns (r: Result<(seq<Slot>, seq<Entry>)>)
      ensures r == match Slots(fields, schema, values, now, |schema|)
                   case Err(e) => Err(e)
                   case Ok(slots) => Ok((slots, SecretMap(schema, SlotText(slots), |schema|)))
    {
      var slots: seq<Slot> := [];
      var secrets: seq<Entry> := [];
      for i := 0 to |schema|
        invariant Slots(fields, schema, values, now, i) == Ok(slots)
        invariant secrets == SecretMap(schema, SlotText(slots), i)
      {
        var f := schema[i];
        var slot := SlotOf(fields, f, values, now);
        WalkStops(fields, schema, values, now, i);
        if slot.Err? {
          return Err(slot.error);
        }
        SlotStripped(fields, f, values, now);
        SecretsOfPrefix(schema, slots, slot.value, i);
        if slot.value.Stripped? {
          secrets := SetProperty(secrets, f.name, slot.value.text);
        }
        slots := slots + [slot.value];
      }
      return Ok((slots, secrets));
    }
  }

  /* -------------------------------------- laws ---------------------------------- */

  /** The first error ends the walk. */
  lemma {:induction false} WalkStops(fe: FieldEnv, schema: seq<FieldSchema>, values: map<string, Value>, now: int,
                                     i: nat)
    requires i < |schema| && Slots(fe, schema, values, now, i).Ok?
    ensures SlotOf(fe, schema[i], values, now).Err? ==>
      Slots(fe, schema, values, now, |schema|) == Err(SlotOf(fe, schema[i], values, now).error)
  {
    if SlotOf(fe, schema[i], values, now).Err? {
      var e := SlotOf(fe, schema[i], values, now).error;
      for k := i + 1 to |schema|
        invariant Slots(fe, schema, values, now, k) == Err(e)
      {
      }
    }
  }

  lemma {:induction false} SlotStripped(fe: FieldEnv, f: FieldSchema, values: map<string, Value>, now: int)
    requires SlotOf(fe, f, values, now).Ok?
    ensures SlotOf(fe, f, values, now).value.Stripped? ==> IsStripped(f)
    ensures SlotOf(fe, f, values, now).value.Stored? ==> !IsStripped(f)
  {
  }

  lemma {:induction false} IssuanceSigns(env: Env, fe: FieldEnv, s: State, tcertId: TcertId, values: map<string, Value>,
                                         now: int, issuedAt: int, key: Option<bytes -> bytes>, iss: Issuer,
                                         slots: seq<Slot>)
    requires IssuerOf(env, s, tcertId, now) == Ok(iss) && Slots(fe, iss.schema, values, now, |iss.schema|) == Ok(slots)
    ensures Issuance(env, fe, s, tcertId, values, now, issuedAt, key) == SignSlots(iss, slots, issuedAt, key)
  {
  }

  /** Secrets depend on the texts of the fields they are made of only. */
  lemma {:induction false} SecretMapAgrees(schema: seq<FieldSchema>, t: nat -> Option<string>, u: nat -> Option<string>,
                                           n: nat)
    requires n <= |schema| && forall i :: 0 <= i < n && IsStripped(schema[i]) ==> t(i) == u(i)
    ensures SecretMap(schema, t, n) == SecretMap(schema, u, n)
  {
    if n == 0 {
    } else {
      SecretMapAgrees(schema, t, u, n - 1);
    }
  }

  lemma {:induction false} SecretsOfPrefix(schema: seq<FieldSchema>, slots: seq<Slot>, slot: Slot, i: nat)
    requires i == |slots| < |schema| && (slot.Stripped? ==> IsStripped(schema[i]))
    ensures SecretMap(schema, SlotText(slots + [slot]), i + 1)
         == var before := SecretMap(schema, SlotText(slots), i);
            if slot.Stripped? then SetProperty(before, schema[i].name, slot.text) else before
  {
    SecretMapAgrees(schema, SlotText(slots + [slot]), SlotText(slots), i);
  }

  /** Slot `i` is the outcome of field `i` alone. */
  lemma {:induction false} SlotAt(fe: FieldEnv, schema: seq<FieldSchema>, values: map<string, Value>, now: int, n: nat,
                                  i: nat)
    requires i < n <= |schema| && Slots(fe, schema, values, now, n).Ok?
    ensures SlotOf(fe, schema[i], values, now) == Ok(Slots(fe, schema, values, now, n).value[i])
  {
    if i == n - 1 {
    } else {
      SlotAt(fe, schema, values, now, n - 1, i);
    }
  }

  /** The value a field is issued with: the one given, else an inherited one, else the default, read at this time. */
  predicate Supplied(fe: FieldEnv, f: FieldSchema, values: map<string, Value>, now: int, x: Value)
  {
    if f.name in values then x == values[f.name]
    else if fe.inherited(f.name).Some? then Some(x) == fe.inherited(f.name)
    else
      f.default.Some?
      && x == (match f.default.value
               case Map(es) => if St.Get(es, "kind") == Some(Tstr("now")) then Tstr(fe.nowText(f.ftype, now))
                               else f.default.value
               case d => d)
  }

  predicate NothingSupplied(fe: FieldEnv, f: FieldSchema, values: map<string, Value>)
  {
    f.name !in values && fe.inherited(f.name).None? && f.default.None?
  }

  lemma {:induction false} SuppliedMeaning(fe: FieldEnv, f: FieldSchema, values: map<string, Value>, now: int)
    ensures GivenValue(fe, f, values, now).None? <==> NothingSupplied(fe, f, values)
    ensures forall x :: GivenValue(fe, f, values, now) == Some(x) <==> Supplied(fe, f, values, now, x)
  {
  }

  /**
   * Alignment: an issued document stores exactly one value per schema field; position `i` is null
   * for a stripped field, and otherwise what field `i`'s engine made of the value supplied for it.
   */
  lemma {:induction false} StoredValuesAlign(env: Env, fe: FieldEnv, s: State, tcertId: TcertId,
                                             values: map<string, Value>, now: int, issuedAt: int,
                                             key: Option<bytes -> bytes>, i: nat)
    requires Issuance(env, fe, s, tcertId, values, now, issuedAt, key).Ok?
    requires i < |IssuerOf(env, s, tcertId, now).value.schema|
    ensures var schema := IssuerOf(env, s, tcertId, now).value.schema;
      var stored := StoredValues(Issuance(env, fe, s, tcertId, values, now, issuedAt, key).value.slots);
      && |stored| == |schema|
      && (IsStripped(schema[i]) ==> stored[i] == Null)
      && (!IsStripped(schema[i]) ==>
            && (NothingSupplied(fe, schema[i], values) ==> stored[i] == Null)
            && forall x :: Supplied(fe, schema[i], values, now, x) ==>
                 && fe.engine(schema[i].ftype).Some?
                 && fe.engine(schema[i].ftype).value.encode(schema[i], x) == Some(stored[i]))
  {
    var schema := IssuerOf(env, s, tcertId, now).value.schema;
    SlotAt(fe, schema, values, now, |schema|, i);
    SuppliedMeaning(fe, schema[i], values, now);
  }

  /** The bytes a document carries: everything but the signature. */
  function PayloadOf(iss: Issuer, slots: seq<Slot>, issuedAt: int): Result<bytes>
  {
    var dataBytes :- CborEncode(Map(SdocData(issuedAt, StoredValues(slots))));
    CborEncode(SO.Payload(SO.Sdoc, dataBytes))
  }

  lemma {:induction false} IssuedPayload(iss: Issuer, slots: seq<Slot>, issuedAt: int, key: Option<bytes -> bytes>)
    requires |slots| == |iss.schema| && SignSlots(iss, slots, issuedAt, key).Ok?
    ensures PayloadOf(iss, slots, issuedAt) == Ok(SignSlots(iss, slots, issuedAt, key).value.cose.payload)
    ensures CborEncode(Cose.ProtectedHeaders(SO.CoseAlgorithm(iss.algorithm), FromHex(iss.keyId).value,
                                             Some(iss.number)))
         == Ok(SignSlots(iss, slots, issuedAt, key).value.cose.protectedBytes)
  {
  }

  /**
   * Secrets leave no trace in what is stored: two documents issued by one TCert at the same time from
   * values that agree on every field that is not stripped carry the same payload and headers, byte for byte.
   */
  lemma {:induction false} PayloadIgnoresSecrets(env: Env, fe: FieldEnv, s: State, tcertId: TcertId,
                                                 values: map<string, Value>, values': map<string, Value>, now: int,
                                                 issuedAt: int, key: Option<bytes -> bytes>)
    requires Issuance(env, fe, s, tcertId, values, now, issuedAt, key).Ok?
    requires Issuance(env, fe, s, tcertId, values', now, issuedAt, key).Ok?
    requires var schema := IssuerOf(env, s, tcertId, now).value.schema;
      forall i :: 0 <= i < |schema| && !IsStripped(schema[i]) ==>
        GivenValue(fe, schema[i], values, now) == GivenValue(fe, schema[i], values', now)
    ensures var a := Issuance(env, fe, s, tcertId, values, now, issuedAt, key).value;
      var b := Issuance(env, fe, s, tcertId, values', now, issuedAt, key).value;
      a.cose.payload == b.cose.payload && a.cose.protectedBytes == b.cose.protectedBytes
  {
    var iss := IssuerOf(env, s, tcertId, now).value;
    var xs := IssuedSlots(env, fe, s, tcertId, values, now, issuedAt, key);
    var ys := IssuedSlots(env, fe, s, tcertId, values', now, issuedAt, key);
    forall i | 0 <= i < |iss.schema| ensures StoredValue(xs[i]) == StoredValue(ys[i]) {
      SlotAt(fe, iss.schema, values, now, |iss.schema|, i);
      SlotAt(fe, iss.schema, values', now, |iss.schema|, i);
      SameStored(fe, iss.schema[i], values, values', now);
    }
    assert StoredValues(xs) == StoredValues(ys);
    IssuedPayload(iss, xs, issuedAt, key);
    IssuedPayload(iss, ys, issuedAt, key);
    SamePayload(iss, xs, ys, issuedAt);
  }

  lemma {:induction false} SamePayload(iss: Issuer, xs: seq<Slot>, ys: seq<Slot>, issuedAt: int)
    requires StoredValues(xs) == StoredValues(ys)
    ensures PayloadOf(iss, xs, issuedAt) == PayloadOf(iss, ys, issuedAt)
  {
  }

  lemma {:induction false} SameStored(fe: FieldEnv, f: FieldSchema, values: map<string, Value>,
                                      values': map<string, Value>, now: int)
    requires SlotOf(fe, f, values, now).Ok? && SlotOf(fe, f, values', now).Ok?
    requires IsStripped(f) || GivenValue(fe, f, values, now) == GivenValue(fe, f, values', now)
    ensures StoredValue(SlotOf(fe, f, values, now).value) == StoredValue(SlotOf(fe, f, values', now).value)
  {
  }

  /** An issued document is the signature over the slots of the walk. */
  lemma {:induction false} IssuedSlots(env: Env, fe: FieldEnv, s: State, tcertId: TcertId, values: map<string, Value>,
                                       now: int, issuedAt: int, key: Option<bytes -> bytes>) returns (slots: seq<Slot>)
    requires Issuance(env, fe, s, tcertId, values, now, issuedAt, key).Ok?
    ensures IssuerOf(env, s, tcertId, now).Ok?
    ensures var iss := IssuerOf(env, s, tcertId, now).value;
      && |slots| == |iss.schema| && Slots(fe, iss.schema, values, now, |iss.schema|) == Ok(slots)
      && SignSlots(iss, slots, issuedAt, key) == Issuance(env, fe, s, tcertId, values, now, issuedAt, key)
  {
    var iss := IssuerOf(env, s, tcertId, now).value;
    slots := Slots(fe, iss.schema, values, now, |iss.schema|).value;
  }
}
