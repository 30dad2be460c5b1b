/** What issuing a document does: who may issue, whose value is stored or signed, and what is refused. */
module IssuanceLaws {
  import opened Bytes
  import opened Cbor
  import opened Fields
  import opened Ids
  import opened SecretBinding
  import opened ServiceState
  import opened Signing
  import opened VerdictLaws
  import Cose
  import SO = SignedObjects
  import St = Statements

  /* ----------------------------------- the issuer ------------------------------- */

  /** The algorithm under the TCert's own property. */
  predicate Declares(t: SO.SignedObject, alg: SO.Algorithm)
  {
    St.Get(t.data, "algorithm") == Some(Tstr(if alg == SO.Ed25519 then "Ed25519" else "ECDSA-P256"))
  }

  /** A held TCert with a number and a schema that verifies, under the algorithm it declares, at a time it allows. */
  ghost predicate MayIssue(env: Env, s: State, tcertId: TcertId, now: int, t: SO.SignedObject, n: int,
                           alg: SO.Algorithm, items: seq<Value>)
  {
    && GetCert(s.certs, tcertId).Some? && env.parse(GetCert(s.certs, tcertId).value) == Some(t) && t.kind == SO.Tcert
    && t.cose.tcertNumber == Some(n) && 1 <= n <= 255
    && Declares(t, alg) && env.verifies(alg, t, env.publicKey(t), []) && InBounds(t, now)
    && St.Get(t.data, "schema") == Some(Array(items)) && items != []
  }

  lemma {:induction false} AlgorithmMeaning(t: SO.SignedObject, alg: SO.Algorithm)
    ensures DeclaredAlgorithm(t) == Some(alg) <==> Declares(t, alg)
  {
    var ed, ec := "Ed25519", "ECDSA-P256";
    assert |ed| == 7 && |ec| == 10;
  }

  /** Such a TCert may issue; the issuer is known by the key id of the key in it, and by its number. */
  lemma {:induction false} IssuerSuffices(env: Env, s: State, tcertId: TcertId, now: int, t: SO.SignedObject, n: int,
                                          alg: SO.Algorithm, items: seq<Value>)
    requires MayIssue(env, s, tcertId, now, t, n, alg, items)
    ensures IssuerOf(env, s, tcertId, now).Ok?
    ensures var iss := IssuerOf(env, s, tcertId, now).value;
      && iss.tcert == t && iss.number == n && iss.algorithm == alg && iss.keyId == env.keyIdOf(alg, env.publicKey(t))
      && |iss.schema| == |items| && forall i :: 0 <= i < |items| ==> iss.schema[i] == FieldOf(items[i])
  {
    AlgorithmMeaning(t, alg);
    SchemaMeaning(t);
    WindowMeaning(t, t, now);
    IssuerIs(env, s, tcertId, now, t, n, alg, SchemaOf(t).value);
  }

  lemma {:induction false} IssuerIs(env: Env, s: State, tcertId: TcertId, now: int, t: SO.SignedObject, n: int,
                                    alg: SO.Algorithm, schema: seq<FieldSchema>)
    requires GetCert(s.certs, tcertId).Some? && env.parse(GetCert(s.certs, tcertId).value) == Some(t)
    requires t.kind == SO.Tcert && t.cose.tcertNumber == Some(n) && 1 <= n <= 255
    requires DeclaredAlgorithm(t) == Some(alg) && env.verifies(alg, t, env.publicKey(t), [])
    requires InWindow(WindowOf(t), now) && SchemaOf(t) == Some(schema)
    ensures IssuerOf(env, s, tcertId, now) == Ok(Issuer(t, env.keyIdOf(alg, env.publicKey(t)), n, alg, schema))
  {
  }

  lemma {:induction false} IssuerWasIn(env: Env, s: State, tcertId: TcertId, now: int)
    requires IssuerOf(env, s, tcertId, now).Ok?
    ensures var iss := IssuerOf(env, s, tcertId, now).value;
      && GetCert(s.certs, tcertId).Some? && env.parse(GetCert(s.certs, tcertId).value) == Some(iss.tcert)
      && iss.tcert.kind == SO.Tcert && iss.tcert.cose.tcertNumber == Some(iss.number) && 1 <= iss.number <= 255
      && DeclaredAlgorithm(iss.tcert) == Some(iss.algorithm)
      && env.verifies(iss.algorithm, iss.tcert, env.publicKey(iss.tcert), [])
      && InWindow(WindowOf(iss.tcert), now) && SchemaOf(iss.tcert) == Some(iss.schema)
  {
  }

  /** Nothing else may issue. */
  lemma {:induction false} IssuerNeeds(env: Env, s: State, tcertId: TcertId, now: int)
    returns (t: SO.SignedObject, n: int, alg: SO.Algorithm, items: seq<Value>)
    requires IssuerOf(env, s, tcertId, now).Ok?
    ensures MayIssue(env, s, tcertId, now, t, n, alg, items)
  {
    IssuerWasIn(env, s, tcertId, now);
    var iss := IssuerOf(env, s, tcertId, now).value;
    t, n, alg := iss.tcert, iss.number, iss.algorithm;
    SchemaMeaning(t);
    items :| St.Get(t.data, "schema") == Some(Array(items)) && items != [];
    AlgorithmMeaning(t, alg);
    WindowMeaning(t, t, now);
  }

  /** Before `validAfter`, and from `validBefore` on, nothing is issued. */
  lemma {:induction false} UntimelyIsRefused(env: Env, fe: FieldEnv, s: State, tcertId: TcertId,
                                             values: map<string, Value>, now: int, issuedAt: int,
                                             key: Option<bytes -> bytes>, t: SO.SignedObject, es: seq<Entry>, b: int)
    requires GetCert(s.certs, tcertId).Some? && env.parse(GetCert(s.certs, tcertId).value) == Some(t)
    requires St.Get(t.data, "validity") == Some(Map(es))
    requires (St.Get(es, "validAfter") == Some(Int(b)) && now < b)
      || (St.Get(es, "validBefore") == Some(Int(b)) && b <= now)
    ensures Issuance(env, fe, s, tcertId, values, now, issuedAt, key).Err?
  {
    assert !InBounds(t, now);
    WindowMeaning(t, t, now);
    if IssuerOf(env, s, tcertId, now).Ok? {
      IssuerWasIn(env, s, tcertId, now);
    }
  }

  /* ----------------------------------- the fields ------------------------------- */

  /** The document was issued, with this schema and these outcomes of its fields. */
  ghost predicate IssuedWith(env: Env, fe: FieldEnv, s: State, tcertId: TcertId, values: map<string, Value>, now: int,
                             issuedAt: int, key: Option<bytes -> bytes>, iss: Issuer, issued: Issued)
  {
    && IssuerOf(env, s, tcertId, now) == Ok(iss)
    && Issuance(env, fe, s, tcertId, values, now, issuedAt, key) == Ok(issued)
    && |issued.slots| == |iss.schema|
  }

  /**
   * Whose value is issued: the value supplied for field `i` was accepted by its engine; a stripped field is
   * signed with its text and stores null, any other one stores what the engine makes of it. Without a
   * value the field is not required and stores null.
   */
  lemma {:induction false} SuppliedIsIssued(env: Env, fe: FieldEnv, s: State, tcertId: TcertId,
                                            values: map<string, Value>, now: int, issuedAt: int,
                                            key: Option<bytes -> bytes>, iss: Issuer, issued: Issued, i: nat, x: Value)
    requires IssuedWith(env, fe, s, tcertId, values, now, issuedAt, key, iss, issued) && i < |iss.schema|
    ensures iss.schema[i].ftype in FIELD_TYPES && fe.engine(iss.schema[i].ftype).Some?
    ensures var f, stored := iss.schema[i], StoredValues(issued.slots)[i];
      var e := fe.engine(f.ftype).value;
      && (NothingSupplied(fe, f, values) ==> !f.required && stored == Null && issued.slots[i] == Omitted)
      && (Supplied(fe, f, values, now, x) && IsStripped(f) ==>
            e.validateInput(f, x) && stored == Null && issued.slots[i] == Stripped(fe.text(x)))
      && (Supplied(fe, f, values, now, x) && !IsStripped(f) ==>
            e.validateInput(f, x) && e.encode(f, x) == Some(stored))
  {
    var slots := IssuedSlots(env, fe, s, tcertId, values, now, issuedAt, key);
    SlotAt(fe, iss.schema, values, now, |iss.schema|, i);
    SuppliedMeaning(fe, iss.schema[i], values, now);
  }

  /** The value given under a field's name is the one that is stored, whatever default the field declares. */
  lemma {:induction false} GivenIsStored(env: Env, fe: FieldEnv, s: State, tcertId: TcertId,
                                         values: map<string, Value>, now: int, issuedAt: int,
                                         key: Option<bytes -> bytes>, iss: Issuer, issued: Issued, i: nat)
    requires IssuedWith(env, fe, s, tcertId, values, now, issuedAt, key, iss, issued)
    requires i < |iss.schema| && iss.schema[i].name in values && !IsStripped(iss.schema[i])
    ensures fe.engine(iss.schema[i].ftype).Some?
    ensures fe.engine(iss.schema[i].ftype).value.encode(iss.schema[i], values[iss.schema[i].name])
      == Some(StoredValues(issued.slots)[i])
  {
    SuppliedIsIssued(env, fe, s, tcertId, values, now, issuedAt, key, iss, issued, i, values[iss.schema[i].name]);
  }

  /** A stripped value given under a name that no later stripped field has is signed under that name, as its text. */
  lemma {:induction false} GivenIsSigned(env: Env, fe: FieldEnv, s: State, tcertId: TcertId,
                                         values: map<string, Value>, now: int, issuedAt: int,
                                         key: Option<bytes -> bytes>, iss: Issuer, issued: Issued, i: nat)
    requires IssuedWith(env, fe, s, tcertId, values, now, issuedAt, key, iss, issued)
    requires i < |iss.schema| && IsSecret(iss.schema[i]) && !Shadowed(iss.schema, i) && iss.schema[i].name in values
    ensures Cose.Lookup(issued.secrets, Tstr(iss.schema[i].name)) == Some(Tstr(fe.text(values[iss.schema[i].name])))
  {
    SuppliedIsIssued(env, fe, s, tcertId, values, now, issuedAt, key, iss, issued, i, values[iss.schema[i].name]);
    var slots := IssuedSlots(env, fe, s, tcertId, values, now, issuedAt, key);
    SignedMessage(iss, slots, issuedAt, key);
    SecretLookup(iss.schema, SlotText(slots), |iss.schema|, iss.schema[i].name);
    LastOfName(iss.schema, SlotText(slots), i, |iss.schema|);
  }

  /** Without secrets nothing is signed besides the message; with some, their map is, encoded canonically. */
  lemma {:induction false} SecretsAreAad(env: Env, fe: FieldEnv, s: State, tcertId: TcertId,
                                         values: map<string, Value>, now: int, issuedAt: int,
                                         key: Option<bytes -> bytes>, iss: Issuer, issued: Issued)
    requires IssuedWith(env, fe, s, tcertId, values, now, issuedAt, key, iss, issued)
    ensures issued.secrets == [] ==> Cose.SigMessage(issued.cose, []) == Ok(issued.message)
    ensures issued.secrets != [] ==>
      Encodable(Map(issued.secrets)) && Cose.SigMessage(issued.cose, Enc(Map(issued.secrets))) == Ok(issued.message)
    ensures (forall i :: 0 <= i < |iss.schema| ==> !IsSecret(iss.schema[i])) ==> issued.secrets == []
  {
    var slots := IssuedSlots(env, fe, s, tcertId, values, now, issuedAt, key);
    SignedMessage(iss, slots, issuedAt, key);
    if forall i :: 0 <= i < |iss.schema| ==> !IsSecret(iss.schema[i]) {
      NoSecrets(iss.schema, SlotText(slots), |iss.schema|);
    }
  }

  /**
   * A field cannot be issued: its type is unknown, it is required and has no value, or its engine
   * refuses the value.
   */
  ghost predicate Unissuable(fe: FieldEnv, f: FieldSchema, values: map<string, Value>, now: int)
  {
    || f.ftype !in FIELD_TYPES || fe.engine(f.ftype).None?
    || (NothingSupplied(fe, f, values) && f.required)
    || (!NothingSupplied(fe, f, values) && exists x :: Refuses(fe, f, values, now, x))
  }

  predicate Refuses(fe: FieldEnv, f: FieldSchema, values: map<string, Value>, now: int, x: Value)
    requires fe.engine(f.ftype).Some?
  {
    Supplied(fe, f, values, now, x)
    && (!fe.engine(f.ftype).value.validateInput(f, x)
        || (!IsStripped(f) && fe.engine(f.ftype).value.encode(f, x).None?))
  }

  lemma {:induction false} SlotFails(fe: FieldEnv, f: FieldSchema, values: map<string, Value>, now: int)
    ensures SlotOf(fe, f, values, now).Err? <==> Unissuable(fe, f, values, now)
    ensures SlotOf(fe, f, values, now).Err? ==>
      SlotOf(fe, f, values, now).error
      == if f.ftype in FIELD_TYPES && fe.engine(f.ftype).None? then UnsupportedError else ValidationError
  {
    SuppliedMeaning(fe, f, values, now);
    if f.ftype in FIELD_TYPES && fe.engine(f.ftype).Some? {
      var given := GivenValue(fe, f, values, now);
      if given.Some? {
        assert Supplied(fe, f, values, now, given.value);
        assert SlotOf(fe, f, values, now).Err? <==> Refuses(fe, f, values, now, given.value);
        forall x | Supplied(fe, f, values, now, x) ensures x == given.value {
        }
      }
    }
  }

  lemma {:induction false} SlotsFail(fe: FieldEnv, schema: seq<FieldSchema>, values: map<string, Value>, now: int,
                                     n: nat)
    requires n <= |schema|
    ensures Slots(fe, schema, values, now, n).Ok?
      <==> forall i :: 0 <= i < n ==> !Unissuable(fe, schema[i], values, now)
  {
    if n == 0 {
    } else {
      SlotsFail(fe, schema, values, now, n - 1);
      SlotFails(fe, schema[n - 1], values, now);
    }
  }

  /**
   * A TCert that may issue issues exactly when every field can be issued, the private key is held, and the
   * message can be encoded; a failure keeps the stores (`Signing.SigningService.IssueSdoc`).
   */
  lemma {:induction false} IssuanceFails(env: Env, fe: FieldEnv, s: State, tcertId: TcertId,
                                         values: map<string, Value>, now: int, issuedAt: int,
                                         key: Option<bytes -> bytes>, iss: Issuer)
    requires IssuerOf(env, s, tcertId, now) == Ok(iss)
    ensures (exists i :: 0 <= i < |iss.schema| && Unissuable(fe, iss.schema[i], values, now)) ==>
      Issuance(env, fe, s, tcertId, values, now, issuedAt, key).Err?
    ensures (forall i :: 0 <= i < |iss.schema| ==> !Unissuable(fe, iss.schema[i], values, now)) ==>
      && (key.None? ==> Issuance(env, fe, s, tcertId, values, now, issuedAt, key) == Err(NotFoundError))
      && exists slots ::
           |slots| == |iss.schema| && Slots(fe, iss.schema, values, now, |iss.schema|) == Ok(slots)
           && Issuance(env, fe, s, tcertId, values, now, issuedAt, key) == SignSlots(iss, slots, issuedAt, key)
  {
    SlotsFail(fe, iss.schema, values, now, |iss.schema|);
    var walked := Slots(fe, iss.schema, values, now, |iss.schema|);
    if walked.Ok? {
      IssuanceSigns(env, fe, s, tcertId, values, now, issuedAt, key, iss, walked.value);
    }
  }
}
