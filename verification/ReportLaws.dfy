/** The whole report of a verification: every component, the result of every field, and when each stage decides. */
module ReportLaws {
  import opened Bytes
  import opened Cbor
  import opened Fields
  import opened Ids
  import opened ServiceState
  import opened Signing
  import opened VerdictLaws
  import opened Verification
  import Cose
  import SO = SignedObjects
  import St = Statements

  /** The bytes are a document that names this TCert. */
  predicate Names(v: Verifier, wire: bytes, doc: SO.SignedObject, id: TcertId)
  {
    && v.env.parse(wire) == Some(doc) && doc.kind == SO.Sdoc
    && doc.cose.tcertNumber.Some? && 1 <= doc.cose.tcertNumber.value <= 255
    && id == doc.signerKeyId + ":" + IntString(doc.cose.tcertNumber.value)
  }

  /** The bytes are a document, and the TCert it names is held and can be parsed. */
  predicate NamesHeld(v: Verifier, wire: bytes, doc: SO.SignedObject, id: TcertId, t: SO.SignedObject)
  {
    Names(v, wire, doc, id) && GetCert(v.s.certs, id).Some? && v.env.parse(GetCert(v.s.certs, id).value) == Some(t)
  }

  /** A report in which these components are settled and nothing was asked. */
  function Plain(overall: ComponentState, crypto: ComponentState, tcert: ComponentState, trust: ComponentState,
                 revocation: ComponentState, schema: ComponentState, sdocId: Option<string>,
                 id: Option<TcertId>): Result<VerificationResult>
  {
    Ok(VerificationResult(overall, crypto, tcert, trust, revocation, schema, [], Satisfied, [], sdocId, id))
  }

  /** What is reported when there is no document, no TCert number, or no usable TCert. */
  lemma {:induction false} EarlyReports(v: Verifier, wire: bytes)
    ensures (v.env.parse(wire).None? || v.env.parse(wire).value.kind != SO.Sdoc) ==>
      Report(v, wire)
      == Plain(Invalid, Invalid, CannotVerify, CannotVerify, CannotVerify, CannotVerify, None, None)
    ensures v.env.parse(wire).Some? && v.env.parse(wire).value.kind == SO.Sdoc
            && (forall id :: !Names(v, wire, v.env.parse(wire).value, id)) ==>
      Report(v, wire)
      == Plain(Invalid, CannotVerify, Invalid, CannotVerify, CannotVerify, CannotVerify, Some(v.env.sdocId(wire)), None)
    ensures forall doc, id :: Names(v, wire, doc, id) && GetCert(v.s.certs, id).None? ==>
      Report(v, wire)
      == Plain(CannotVerify, CannotVerify, CannotVerify, CannotVerify, CannotVerify, CannotVerify,
               Some(v.env.sdocId(wire)), Some(id))
    ensures forall doc, id ::
      Names(v, wire, doc, id) && GetCert(v.s.certs, id).Some? && v.env.parse(GetCert(v.s.certs, id).value).None? ==>
        Report(v, wire)
        == Plain(Invalid, CannotVerify, Invalid, CannotVerify, CannotVerify, CannotVerify,
                 Some(v.env.sdocId(wire)), Some(id))
  {
    var doc := v.env.parse(wire);
    if doc.Some? && doc.value.cose.tcertNumber.Some? {
      var id := doc.value.signerKeyId + ":" + IntString(doc.value.cose.tcertNumber.value);
      assert doc.value.kind == SO.Sdoc && 1 <= doc.value.cose.tcertNumber.value <= 255 ==>
        Names(v, wire, doc.value, id);
    }
  }

  /** The TCert stage: an unauthentic or untimely TCert is invalid, and a document past its age fails the schema. */
  lemma {:induction false} TcertReports(v: Verifier, wire: bytes, doc: SO.SignedObject, id: TcertId,
                                        t: SO.SignedObject)
    requires NamesHeld(v, wire, doc, id, t)
    ensures !(SelfCertified(v.env, t) && InBounds(t, v.now)) ==>
      Report(v, wire)
      == Plain(Invalid, CannotVerify, Invalid, CannotVerify, CannotVerify, CannotVerify, Some(v.env.sdocId(wire)),
               Some(id))
    ensures SelfCertified(v.env, t) && InBounds(t, v.now) && !YoungEnough(t, doc, v.now) ==>
      Report(v, wire)
      == Plain(Invalid, CannotVerify, CannotVerify, CannotVerify, CannotVerify, Invalid, Some(v.env.sdocId(wire)),
               Some(id))
    ensures TcertAccepted(v, doc, t) ==>
      Report(v, wire)
      == VerifyLifecycle(v, doc, v.env.sdocId(wire), id, t,
                         EmptyResult().(tcert := Valid, sdocId := Some(v.env.sdocId(wire)), tcertId := Some(id)))
  {
    WindowMeaning(t, doc, v.now);
  }

  /** Before `validAfter` the TCert is invalid, and so is the document. */
  lemma {:induction false} NotYetValid(v: Verifier, wire: bytes, doc: SO.SignedObject, id: TcertId, t: SO.SignedObject,
                                       es: seq<Entry>, a: int)
    requires NamesHeld(v, wire, doc, id, t)
    requires St.Get(t.data, "validity") == Some(Map(es)) && St.Get(es, "validAfter") == Some(Int(a)) && v.now < a
    ensures Report(v, wire).Ok? && Report(v, wire).value.tcert == Report(v, wire).value.overall == Invalid
  {
    TcertReports(v, wire, doc, id, t);
    assert !InBounds(t, v.now);
  }

  /** From `validBefore` on the TCert is invalid, and so is the document. */
  lemma {:induction false} Expired(v: Verifier, wire: bytes, doc: SO.SignedObject, id: TcertId, t: SO.SignedObject,
                                   es: seq<Entry>, b: int)
    requires NamesHeld(v, wire, doc, id, t)
    requires St.Get(t.data, "validity") == Some(Map(es)) && St.Get(es, "validBefore") == Some(Int(b)) && b <= v.now
    ensures Report(v, wire).Ok? && Report(v, wire).value.tcert == Report(v, wire).value.overall == Invalid
  {
    TcertReports(v, wire, doc, id, t);
    assert !InBounds(t, v.now);
  }

  /** Past `sdocMaxAgeSeconds` the document is invalid; the TCert is not blamed unless it is at fault itself. */
  lemma {:induction false} TooOldIsInvalid(v: Verifier, wire: bytes, doc: SO.SignedObject, id: TcertId,
                                           t: SO.SignedObject, es: seq<Entry>, m: int, at: int)
    requires NamesHeld(v, wire, doc, id, t) && Cose.IsJsNumber(Int(at))
    requires St.Get(t.data, "validity") == Some(Map(es)) && St.Get(es, "sdocMaxAgeSeconds") == Some(Int(m))
    requires St.Get(doc.data, "issuedAt") == Some(Int(at)) && m < v.now - at
    ensures Report(v, wire).Ok? && Report(v, wire).value.overall == Invalid
    ensures SelfCertified(v.env, t) && InBounds(t, v.now) ==>
      Report(v, wire).value.schema == Invalid && Report(v, wire).value.tcert == CannotVerify
  {
    TcertReports(v, wire, doc, id, t);
    assert AgeLimit(t, m) && IssuedAt(doc) == Some(at);
  }

  /** Within its bounds, and with a document that is young enough, a self-certified TCert is not objected to. */
  lemma {:induction false} TimelyIsValid(v: Verifier, wire: bytes, doc: SO.SignedObject, id: TcertId,
                                         t: SO.SignedObject)
    requires NamesHeld(v, wire, doc, id, t) && SelfCertified(v.env, t)
    requires forall es :: St.Get(t.data, "validity") == Some(Map(es)) ==>
      && (forall a :: St.Get(es, "validAfter") == Some(Int(a)) ==> a <= v.now)
      && (forall b :: St.Get(es, "validBefore") == Some(Int(b)) ==> v.now < b)
      && (forall m, at :: (St.Get(es, "sdocMaxAgeSeconds") == Some(Int(m))
                           && St.Get(doc.data, "issuedAt") == Some(Int(at))) ==> v.now - at <= m)
    ensures Report(v, wire).Ok? ==> Report(v, wire).value.tcert == Valid
  {
    assert InBounds(t, v.now);
    forall m, at | AgeLimit(t, m) && IssuedAt(doc) == Some(at) ensures v.now - at <= m {
      assert St.Get(doc.data, "issuedAt") == Some(Int(at));
    }
    TcertReports(v, wire, doc, id, t);
    LifecycleKeepsTcert(v, doc, v.env.sdocId(wire), id, t,
                        EmptyResult().(tcert := Valid, sdocId := Some(v.env.sdocId(wire)), tcertId := Some(id)));
  }

  lemma {:induction false} LifecycleKeepsTcert(v: Verifier, doc: SO.SignedObject, sdocId: string, id: TcertId,
                                               t: SO.SignedObject, r: VerificationResult)
    ensures VerifyLifecycle(v, doc, sdocId, id, t, r).Ok? ==>
      VerifyLifecycle(v, doc, sdocId, id, t, r).value.tcert == r.tcert
  {
    if SchemaOf(t).Some? {
      var rev := if IssuedAt(doc).None? then Invalid
                 else RevocationCheck(v.s.rev, id, doc.signerKeyId, IssuedAt(doc).value, sdocId);
      ContentKeepsTcert(v, doc, t, SchemaOf(t).value, r.(trust := TrustOf(v.env, v.s, id), revocation := rev));
    }
  }

  lemma {:induction false} ContentKeepsTcert(v: Verifier, doc: SO.SignedObject, t: SO.SignedObject,
                                             schema: seq<FieldSchema>, r: VerificationResult)
    ensures VerifyContent(v, doc, t, schema, r).Ok? ==> VerifyContent(v, doc, t, schema, r).value.tcert == r.tcert
  {
  }

  /** Trust, revocation and the presence of a schema, for a document whose TCert is accepted. */
  lemma {:induction false} LifecycleReports(v: Verifier, wire: bytes, doc: SO.SignedObject, id: TcertId,
                                            t: SO.SignedObject)
    requires NamesHeld(v, wire, doc, id, t) && TcertAccepted(v, doc, t)
    ensures var trust := TrustOf(v.env, v.s, id);
      var at := St.Get(doc.data, "issuedAt");
      var sdocId := v.env.sdocId(wire);
      if trust == Invalid then
        Report(v, wire)
        == Plain(Invalid, CannotVerify, Valid, Invalid, CannotVerify, CannotVerify, Some(sdocId), Some(id))
      else if at.None? || !Cose.IsJsNumber(at.value) then
        Report(v, wire)
        == Plain(Invalid, CannotVerify, Valid, trust, Invalid, CannotVerify, Some(sdocId), Some(id))
      else if RevocationCheck(v.s.rev, id, doc.signerKeyId, at.value.i, sdocId) == Invalid then
        Report(v, wire)
        == Plain(Invalid, CannotVerify, Valid, trust, Invalid, CannotVerify, Some(sdocId), Some(id))
      else if SchemaOf(t).None? then
        Report(v, wire)
        == Plain(Invalid, CannotVerify, Valid, trust, Valid, Invalid, Some(sdocId), Some(id))
      else
        Report(v, wire)
        == VerifyContent(v, doc, t, SchemaOf(t).value,
             EmptyResult().(tcert := Valid, trust := trust, revocation := Valid, sdocId := Some(sdocId),
                            tcertId := Some(id)))
  {
    TcertReports(v, wire, doc, id, t);
  }

  /* ----------------------------------- content ---------------------------------- */

  /** The document is judged by its content: nothing before has decided. */
  ghost predicate Reaches(v: Verifier, wire: bytes, doc: SO.SignedObject, id: TcertId, t: SO.SignedObject,
                          schema: seq<FieldSchema>)
  {
    && NamesHeld(v, wire, doc, id, t) && TcertAccepted(v, doc, t) && TrustOf(v.env, v.s, id) != Invalid
    && IssuedAt(doc).Some? && SchemaOf(t) == Some(schema)
    && RevocationCheck(v.s.rev, id, doc.signerKeyId, IssuedAt(doc).value, v.env.sdocId(wire)) == Valid
  }

  /** A report with an accepted, unrevoked TCert. */
  function Judged(v: Verifier, wire: bytes, id: TcertId, overall: ComponentState, crypto: ComponentState,
                  schema: ComponentState, fields: seq<FieldResult>, context: ContextState,
                  warnings: seq<string>): VerificationResult
  {
    VerificationResult(overall, crypto, Valid, TrustOf(v.env, v.s, id), Valid, schema, fields, context, warnings,
                       Some(v.env.sdocId(wire)), Some(id))
  }

  /**
   * Secrets and signature: an unanswered secret leaves the document open and is named in a warning; a
   * signature that does not cover the secrets refutes it.
   */
  lemma {:induction false} SecretReports(v: Verifier, wire: bytes, doc: SO.SignedObject, id: TcertId,
                                         t: SO.SignedObject, schema: seq<FieldSchema>)
    requires Reaches(v, wire, doc, id, t, schema)
    ensures !AllAnswered(schema, v.ask) ==>
      && Report(v, wire)
         == Ok(Judged(v, wire, id, CannotVerify, CannotVerify, CannotVerify, [], Missing,
                      MissingSecrets(schema, v.ask, |schema|)))
      && forall name :: name in Report(v, wire).value.warnings
           <==> exists i :: 0 <= i < |schema| && IsStripped(schema[i]) && v.ask(i).None? && schema[i].name == name
    ensures (AllAnswered(schema, v.ask) && Aad(SecretMap(schema, v.ask, |schema|)).Ok?
             && !SignatureHolds(v, doc, t, schema)) ==>
      Report(v, wire) == Ok(Judged(v, wire, id, Invalid, Invalid, CannotVerify, [], Satisfied, []))
    ensures AllAnswered(schema, v.ask) && SignatureHolds(v, doc, t, schema) ==>
      Report(v, wire)
      == VerifyFields(v, doc, schema, Judged(v, wire, id, CannotVerify, Valid, CannotVerify, [], Satisfied, []))
  {
    LifecycleReports(v, wire, doc, id, t);
    MissingMeaning(schema, v.ask, |schema|);
    WarningsMeaning(schema, v.ask, |schema|);
    ContentReports(v, doc, t, schema, Judged(v, wire, id, CannotVerify, CannotVerify, CannotVerify, [], Satisfied, []));
  }

  lemma {:induction false} ContentReports(v: Verifier, doc: SO.SignedObject, t: SO.SignedObject,
                                          schema: seq<FieldSchema>, r: VerificationResult)
    requires r.tcert == r.revocation == Valid && r.cryptographic == r.schema == CannotVerify && r.trust != Invalid
    requires MissingSecrets(schema, v.ask, |schema|) == [] <==> AllAnswered(schema, v.ask)
    ensures var out, missing := VerifyContent(v, doc, t, schema, r), MissingSecrets(schema, v.ask, |schema|);
      && (!AllAnswered(schema, v.ask) ==>
            out == Ok(r.(overall := CannotVerify, context := Missing, warnings := missing)))
      && ((AllAnswered(schema, v.ask) && Aad(SecretMap(schema, v.ask, |schema|)).Ok?
           && !SignatureHolds(v, doc, t, schema)) ==> out == Ok(r.(overall := Invalid, cryptographic := Invalid)))
      && (AllAnswered(schema, v.ask) && SignatureHolds(v, doc, t, schema) ==>
            out == VerifyFields(v, doc, schema, r.(cryptographic := Valid)))
  {
  }

  lemma {:induction false} WarningsMeaning(schema: seq<FieldSchema>, ask: nat -> Option<string>, n: nat)
    requires n <= |schema|
    ensures forall name ::
      name in MissingSecrets(schema, ask, n)
      <==> exists i :: 0 <= i < n && IsStripped(schema[i]) && ask(i).None? && schema[i].name == name
  {
    if n == 0 {
    } else {
      WarningsMeaning(schema, ask, n - 1);
    }
  }

  /** The state shown for a field. */
  function Shown(v: Verifier, f: FieldSchema, e: Engine, stored: Option<Value>, answer: Option<string>): FieldState
  {
    if IsStripped(f) then FieldValid
    else if stored.None? then if f.required then FieldInvalid else FieldValid
    else if IsInline(f) && answer.None? then FieldCannotVerify
    else if IsInline(f) && !Matches(v.fe, f, e, stored.value, answer) then FieldInvalid
    else
      var st := e.validateField(f, stored.value, v.ctx);
      if st.Some? then st.value else FieldMalformed
  }

  /** The context that checking a field lacked, going by its state. */
  function Lacking(f: FieldSchema, stored: Option<Value>, shown: FieldState): Option<ContextState>
  {
    if IsStripped(f) || stored.None? then None
    else if shown in {FieldCannotVerify, MissingContext} then Some(Missing)
    else if shown == ContextDenied then Some(Denied)
    else None
  }

  /** Checking throws at a field whose type has no engine, or whose stored value cannot be shown for comparison. */
  predicate Throws(v: Verifier, f: FieldSchema, stored: Option<Value>, answer: Option<string>)
  {
    !IsStripped(f)
    && (v.fe.engine(f.ftype).None?
        || (stored.Some? && IsInline(f) && answer.Some? && v.fe.engine(f.ftype).value.decode(f, stored.value).None?))
  }

  /** What one field adds: its state, whether it is refuted, and what it lacked. */
  lemma {:induction false} FieldShows(v: Verifier, f: FieldSchema, stored: Option<Value>, answer: Option<string>)
    ensures FieldVerdict(v.fe, f, stored, answer, v.ctx).Err? <==> Throws(v, f, stored, answer)
    ensures IsStripped(f) ==> FieldVerdict(v.fe, f, stored, answer, v.ctx) == Ok(Verdict(FieldValid, false, None))
    ensures FieldVerdict(v.fe, f, stored, answer, v.ctx).Ok? && v.fe.engine(f.ftype).Some? ==>
      var e := v.fe.engine(f.ftype).value;
      var one := FieldVerdict(v.fe, f, stored, answer, v.ctx).value;
      && one.state == Shown(v, f, e, stored, answer) && one.lacks == Lacking(f, stored, one.state)
      && one.refutes == FieldRefuted(v.fe, f, stored, answer, v.ctx)
  {
  }

  /** The last of the first `n` fields that lacked context decides. */
  function Context(v: Verifier, doc: SO.SignedObject, schema: seq<FieldSchema>, n: nat): ContextState
    requires n <= |schema|
  {
    if n == 0 then Satisfied
    else
      var f, stored := schema[n - 1], StoredAt(doc, n - 1);
      var e := v.fe.engine(f.ftype);
      var lacked := if e.None? then None else Lacking(f, stored, Shown(v, f, e.value, stored, v.ask(n - 1)));
      if lacked.Some? then lacked.value else Context(v, doc, schema, n - 1)
  }

  ghost predicate NothingThrows(v: Verifier, doc: SO.SignedObject, schema: seq<FieldSchema>, n: nat)
    requires n <= |schema|
  {
    forall i :: 0 <= i < n ==> !Throws(v, schema[i], StoredAt(doc, i), v.ask(i))
  }

  /** The result of field `i`, under its name and caption. */
  predicate ResultIs(v: Verifier, doc: SO.SignedObject, f: FieldSchema, i: nat, r: FieldResult)
  {
    && r.name == f.name && r.caption == f.caption
    && (IsStripped(f) ==> r.state == FieldValid)
    && (!IsStripped(f) ==>
          v.fe.engine(f.ftype).Some?
          && r.state == Shown(v, f, v.fe.engine(f.ftype).value, StoredAt(doc, i), v.ask(i)))
  }

  lemma {:induction false} FieldsShow(v: Verifier, doc: SO.SignedObject, schema: seq<FieldSchema>, n: nat)
    requires n <= |schema|
    ensures var p := CheckFields(v.fe, schema, doc, v.ask, v.ctx, n);
      && (p.Ok? <==> NothingThrows(v, doc, schema, n))
      && (p.Ok? ==> |p.value.fields| == n && p.value.context == Context(v, doc, schema, n))
      && (p.Ok? ==> forall i :: 0 <= i < n ==> ResultIs(v, doc, schema[i], i, p.value.fields[i]))
  {
    if n == 0 {
    } else {
      FieldsShow(v, doc, schema, n - 1);
      FieldShows(v, schema[n - 1], StoredAt(doc, n - 1), v.ask(n - 1));
      OneMoreShown(v, doc, schema, n, CheckFields(v.fe, schema, doc, v.ask, v.ctx, n - 1),
                   FieldVerdict(v.fe, schema[n - 1], StoredAt(doc, n - 1), v.ask(n - 1), v.ctx),
                   CheckFields(v.fe, schema, doc, v.ask, v.ctx, n));
    }
  }

  lemma {:induction false} OneMoreShown(v: Verifier, doc: SO.SignedObject, schema: seq<FieldSchema>, n: nat,
                                        before: Result<Progress>, one: Result<Verdict>, p: Result<Progress>)
    requires 0 < n <= |schema|
    requires p.Ok? <==> before.Ok? && one.Ok?
    requires p.Ok? ==> p.value == Advance(before.value, schema[n - 1], one.value)
    requires before.Ok? <==> NothingThrows(v, doc, schema, n - 1)
    requires before.Ok? ==> |before.value.fields| == n - 1 && before.value.context == Context(v, doc, schema, n - 1)
    requires before.Ok? ==>
      forall i :: 0 <= i < n - 1 ==> ResultIs(v, doc, schema[i], i, before.value.fields[i])
    requires one.Err? <==> Throws(v, schema[n - 1], StoredAt(doc, n - 1), v.ask(n - 1))
    requires IsStripped(schema[n - 1]) ==> one == Ok(Verdict(FieldValid, false, None))
    requires one.Ok? && v.fe.engine(schema[n - 1].ftype).Some? ==>
      && one.value.state == Shown(v, schema[n - 1], v.fe.engine(schema[n - 1].ftype).value, StoredAt(doc, n - 1),
                                  v.ask(n - 1))
      && one.value.lacks == Lacking(schema[n - 1], StoredAt(doc, n - 1), one.value.state)
    ensures p.Ok? <==> NothingThrows(v, doc, schema, n)
    ensures p.Ok? ==> |p.value.fields| == n && p.value.context == Context(v, doc, schema, n)
    ensures p.Ok? ==> forall i :: 0 <= i < n ==> ResultIs(v, doc, schema[i], i, p.value.fields[i])
  {
  }

  /**
   * The fields: checking throws exactly at the fields named above; otherwise every field is reported in order
   * under its name with its state, the schema fails exactly when some field is refuted, and the context is
   * what the last field lacked that lacked any.
   */
  lemma {:induction false} FieldReports(v: Verifier, wire: bytes, doc: SO.SignedObject, id: TcertId,
                                        t: SO.SignedObject, schema: seq<FieldSchema>)
    requires Reaches(v, wire, doc, id, t, schema)
    requires AllAnswered(schema, v.ask) && SignatureHolds(v, doc, t, schema)
    ensures Report(v, wire).Ok? <==> NothingThrows(v, doc, schema, |schema|)
    ensures Report(v, wire).Ok? ==>
      var r := Report(v, wire).value;
      && r == Judged(v, wire, id, r.overall, Valid, r.schema, r.fields, Context(v, doc, schema, |schema|), [])
      && r.schema == (if exists i :: 0 <= i < |schema| && RefutedAt(v, schema, doc, i) then Invalid else Valid)
      && |r.fields| == |schema|
      && forall i :: 0 <= i < |schema| ==> ResultIs(v, doc, schema[i], i, r.fields[i])
  {
    SecretReports(v, wire, doc, id, t, schema);
    FieldsShow(v, doc, schema, |schema|);
    FieldsMeaning(v, schema, doc, |schema|);
    VerifiedFields(v, doc, schema, Judged(v, wire, id, CannotVerify, Valid, CannotVerify, [], Satisfied, []));
  }

  lemma {:induction false} VerifiedFields(v: Verifier, doc: SO.SignedObject, schema: seq<FieldSchema>,
                                          r: VerificationResult)
    ensures var p, out := CheckFields(v.fe, schema, doc, v.ask, v.ctx, |schema|), VerifyFields(v, doc, schema, r);
      && (out.Ok? <==> p.Ok?)
      && (p.Ok? ==> out.value == r.(schema := p.value.schema, context := p.value.context, fields := p.value.fields,
                                    overall := out.value.overall))
  {
  }
}
