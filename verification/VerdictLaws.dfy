/** What the verdict means, exactly: when a document is valid, when it is refuted, and what can never be valid. */
module VerdictLaws {
  import opened Bytes
  import opened Cbor
  import opened Fields
  import opened Ids
  import opened ServiceState
  import opened Signing
  import opened Verification
  import Cose
  import Op = Operations
  import MemoryStores
  import Permanence
  import SO = SignedObjects
  import St = Statements

  /* ----------------------------------- fields ----------------------------------- */

  /** The engine has no objection and lacked nothing. */
  predicate EnginePasses(e: Engine, f: FieldSchema, x: Value, ctx: Context)
  {
    var st := e.validateField(f, x, ctx);
    st.Some? && st.value in {FieldValid, NotSupported, FieldMalformed, Unavailable}
  }

  /** The verifier entered the stored value of an inline-bound field. */
  predicate Matches(fe: FieldEnv, f: FieldSchema, e: Engine, x: Value, answer: Option<string>)
  {
    answer.Some? && e.decode(f, x).Some? && fe.trim(answer.value) == fe.trim(e.decode(f, x).value)
  }

  predicate FieldAccepted(fe: FieldEnv, f: FieldSchema, stored: Option<Value>, answer: Option<string>, ctx: Context)
  {
    IsStripped(f)
    || (fe.engine(f.ftype).Some?
        && match stored
           case None => !f.required
           case Some(x) =>
             && (IsInline(f) ==> Matches(fe, f, fe.engine(f.ftype).value, x, answer))
             && EnginePasses(fe.engine(f.ftype).value, f, x, ctx))
  }

  /** A required value is missing, a bound value differs, or the engine objects or throws. */
  predicate FieldRefuted(fe: FieldEnv, f: FieldSchema, stored: Option<Value>, answer: Option<string>, ctx: Context)
  {
    !IsStripped(f) && fe.engine(f.ftype).Some?
    && match stored
       case None => f.required
       case Some(x) =>
         var e := fe.engine(f.ftype).value;
         (IsInline(f) ==> answer.Some?)
         && ((IsInline(f) && !Matches(fe, f, e, x, answer)) || e.validateField(f, x, ctx) in {None, Some(FieldInvalid)})
  }

  lemma {:induction false} FieldVerdictMeaning(fe: FieldEnv, f: FieldSchema, stored: Option<Value>,
                                               answer: Option<string>, ctx: Context)
    ensures var v := FieldVerdict(fe, f, stored, answer, ctx);
      && (FieldAccepted(fe, f, stored, answer, ctx) <==> v.Ok? && !v.value.refutes && v.value.lacks.None?)
      && (v.Ok? ==> (v.value.refutes <==> FieldRefuted(fe, f, stored, answer, ctx)))
  {
  }

  predicate AcceptedAt(v: Verifier, schema: seq<FieldSchema>, doc: SO.SignedObject, i: nat)
    requires i < |schema|
  {
    FieldAccepted(v.fe, schema[i], StoredAt(doc, i), v.ask(i), v.ctx)
  }

  predicate RefutedAt(v: Verifier, schema: seq<FieldSchema>, doc: SO.SignedObject, i: nat)
    requires i < |schema|
  {
    FieldRefuted(v.fe, schema[i], StoredAt(doc, i), v.ask(i), v.ctx)
  }

  lemma {:induction false} FieldsMeaning(v: Verifier, schema: seq<FieldSchema>, doc: SO.SignedObject, n: nat)
    requires n <= |schema|
    ensures var p := CheckFields(v.fe, schema, doc, v.ask, v.ctx, n);
      && ((p.Ok? && p.value.schema == Valid && p.value.context == Satisfied)
          <==> forall i :: 0 <= i < n ==> AcceptedAt(v, schema, doc, i))
      && (p.Ok? ==> p.value.schema != CannotVerify && |p.value.fields| == n)
      && (p.Ok? ==> (p.value.schema == Invalid <==> exists i :: 0 <= i < n && RefutedAt(v, schema, doc, i)))
  {
    if n == 0 {
    } else {
      FieldsMeaning(v, schema, doc, n - 1);
      FieldVerdictMeaning(v.fe, schema[n - 1], StoredAt(doc, n - 1), v.ask(n - 1), v.ctx);
      LackingShows(v.fe, schema[n - 1], StoredAt(doc, n - 1), v.ask(n - 1), v.ctx);
      OneMoreField(v, schema, doc, n, CheckFields(v.fe, schema, doc, v.ask, v.ctx, n - 1),
                   FieldVerdict(v.fe, schema[n - 1], StoredAt(doc, n - 1), v.ask(n - 1), v.ctx));
    }
  }

  /** What the last field adds to the meaning of the earlier ones. */
  lemma {:induction false} OneMoreField(v: Verifier, schema: seq<FieldSchema>, doc: SO.SignedObject, n: nat,
                                        before: Result<Progress>, one: Result<Verdict>)
    requires 0 < n <= |schema|
    requires before == CheckFields(v.fe, schema, doc, v.ask, v.ctx, n - 1)
    requires one == FieldVerdict(v.fe, schema[n - 1], StoredAt(doc, n - 1), v.ask(n - 1), v.ctx)
    requires (before.Ok? && before.value.schema == Valid && before.value.context == Satisfied)
      <==> forall i :: 0 <= i < n - 1 ==> AcceptedAt(v, schema, doc, i)
    requires before.Ok? ==> before.value.schema != CannotVerify && |before.value.fields| == n - 1
    requires before.Ok? ==>
      (before.value.schema == Invalid <==> exists i :: 0 <= i < n - 1 && RefutedAt(v, schema, doc, i))
    requires AcceptedAt(v, schema, doc, n - 1) <==> one.Ok? && !one.value.refutes && one.value.lacks.None?
    requires one.Ok? ==> (one.value.refutes <==> RefutedAt(v, schema, doc, n - 1))
    requires one.Ok? && one.value.lacks.Some? ==> one.value.lacks.value != Satisfied
    ensures var p := CheckFields(v.fe, schema, doc, v.ask, v.ctx, n);
      && ((p.Ok? && p.value.schema == Valid && p.value.context == Satisfied)
          <==> forall i :: 0 <= i < n ==> AcceptedAt(v, schema, doc, i))
      && (p.Ok? ==> p.value.schema != CannotVerify && |p.value.fields| == n)
      && (p.Ok? ==> (p.value.schema == Invalid <==> exists i :: 0 <= i < n && RefutedAt(v, schema, doc, i)))
  {
  }

  /** Lacking context is never recorded as satisfied. */
  lemma {:induction false} LackingShows(fe: FieldEnv, f: FieldSchema, stored: Option<Value>, answer: Option<string>,
                                        ctx: Context)
    ensures var v := FieldVerdict(fe, f, stored, answer, ctx);
      v.Ok? && v.value.lacks.Some? ==> v.value.lacks.value != Satisfied
  {
  }

  lemma {:induction false} MissingMeaning(schema: seq<FieldSchema>, ask: nat -> Option<string>, n: nat)
    requires n <= |schema|
    ensures MissingSecrets(schema, ask, n) == [] <==> forall i :: 0 <= i < n && IsStripped(schema[i]) ==> ask(i).Some?
  {
    if n == 0 {
    } else {
      MissingMeaning(schema, ask, n - 1);
    }
  }

  /* ----------------------------------- verdicts --------------------------------- */

  predicate AllAnswered(schema: seq<FieldSchema>, ask: nat -> Option<string>)
  {
    forall i :: 0 <= i < |schema| && IsStripped(schema[i]) ==> ask(i).Some?
  }

  /** The signature verifies under the TCert's key together with the entered secrets. */
  predicate SignatureHolds(v: Verifier, doc: SO.SignedObject, t: SO.SignedObject, schema: seq<FieldSchema>)
  {
    var aad := Aad(SecretMap(schema, v.ask, |schema|));
    aad.Ok? && v.env.verifies(doc.algorithm, doc, v.env.publicKey(t), aad.value)
  }

  ghost predicate ContentAccepted(v: Verifier, doc: SO.SignedObject, t: SO.SignedObject, schema: seq<FieldSchema>)
  {
    AllAnswered(schema, v.ask) && SignatureHolds(v, doc, t, schema) && forall i :: 0 <= i < |schema| ==>
      AcceptedAt(v, schema, doc, i)
  }

  ghost predicate ContentRefuted(v: Verifier, doc: SO.SignedObject, t: SO.SignedObject, schema: seq<FieldSchema>)
  {
    AllAnswered(schema, v.ask)
    && (!SignatureHolds(v, doc, t, schema) || exists i :: 0 <= i < |schema| && RefutedAt(v, schema, doc, i))
  }

  /** Trust, lifecycle and content, for a document whose TCert is authentic and in its window. */
  ghost predicate BodyAccepted(v: Verifier, doc: SO.SignedObject, sdocId: string, id: TcertId, t: SO.SignedObject)
  {
    && TrustOf(v.env, v.s, id) == Valid
    && IssuedAt(doc).Some? && RevocationCheck(v.s.rev, id, doc.signerKeyId, IssuedAt(doc).value, sdocId) == Valid
    && SchemaOf(t).Some? && ContentAccepted(v, doc, t, SchemaOf(t).value)
  }

  ghost predicate BodyRefuted(v: Verifier, doc: SO.SignedObject, sdocId: string, id: TcertId, t: SO.SignedObject)
  {
    || id in v.s.trust.distrusted
    || IssuedAt(doc).None? || RevocationCheck(v.s.rev, id, doc.signerKeyId, IssuedAt(doc).value, sdocId) == Invalid
    || SchemaOf(t).None? || ContentRefuted(v, doc, t, SchemaOf(t).value)
  }

  /** The TCert a document names, when it is held and can be parsed. */
  datatype Signer = Signer(id: TcertId, tcert: SO.SignedObject)

  function SignerTcert(v: Verifier, doc: SO.SignedObject): Option<Signer>
  {
    match Op.TcertNumberOf(doc)
    case Err(_) => None
    case Ok(n) =>
      var id := TcertIdOf(doc.signerKeyId, n);
      var wire := GetCert(v.s.certs, id);
      if wire.None? || v.env.parse(wire.value).None? then None else Some(Signer(id, v.env.parse(wire.value).value))
  }

  /** The TCert's data allow its use at this time: from `validAfter` on and before `validBefore`. */
  ghost predicate InBounds(t: SO.SignedObject, now: int)
  {
    forall es :: St.Get(t.data, "validity") == Some(Map(es)) ==>
      && (forall a :: St.Get(es, "validAfter") == Some(Int(a)) ==> a <= now)
      && (forall b :: St.Get(es, "validBefore") == Some(Int(b)) ==> now < b)
  }

  /** The TCert's data limit the age of its documents to so many seconds. */
  predicate AgeLimit(t: SO.SignedObject, m: int)
  {
    match St.Get(t.data, "validity")
    case Some(Map(es)) => St.Get(es, "sdocMaxAgeSeconds") == Some(Int(m))
    case _ => false
  }

  /** The document is not older than the TCert's data allow; one without a time counts as young. */
  ghost predicate YoungEnough(t: SO.SignedObject, doc: SO.SignedObject, now: int)
  {
    forall m, at :: AgeLimit(t, m) && IssuedAt(doc) == Some(at) ==> now - at <= m
  }

  /** A TCert that verifies under its own key, and whose key id is that of the key. */
  predicate SelfCertified(env: Env, t: SO.SignedObject)
  {
    env.verifies(t.algorithm, t, env.publicKey(t), []) && env.keyIdOf(t.algorithm, env.publicKey(t)) == t.signerKeyId
  }

  ghost predicate TcertAccepted(v: Verifier, doc: SO.SignedObject, t: SO.SignedObject)
  {
    SelfCertified(v.env, t) && InBounds(t, v.now) && YoungEnough(t, doc, v.now)
  }

  /** The window and the age that the pipeline computes are these bounds. */
  lemma {:induction false} WindowMeaning(t: SO.SignedObject, doc: SO.SignedObject, now: int)
    ensures InWindow(WindowOf(t), now) <==> InBounds(t, now)
    ensures TooOld(t, doc, now) <==> !YoungEnough(t, doc, now)
  {
    var validity := St.Get(t.data, "validity");
    if validity.Some? && validity.value.Map? {
      EntriesMeaning(validity.value.entries, now);
      var w := WindowOf(t);
      if TooOld(t, doc, now) {
        assert AgeLimit(t, w.maxAge.value);
      }
    }
  }

  lemma {:induction false} EntriesMeaning(es: seq<Entry>, now: int)
    ensures InWindow(Window(IntIn(es, "validAfter"), IntIn(es, "validBefore"), IntIn(es, "sdocMaxAgeSeconds")), now)
      <==> (forall a :: St.Get(es, "validAfter") == Some(Int(a)) ==> a <= now)
           && (forall b :: St.Get(es, "validBefore") == Some(Int(b)) ==> now < b)
  {
    IntMeaning(es, "validAfter");
    IntMeaning(es, "validBefore");
  }

  lemma {:induction false} IntMeaning(es: seq<Entry>, name: string)
    ensures forall i :: IntIn(es, name) == Some(i) <==> St.Get(es, name) == Some(Int(i))
  {
  }

  /** Everything that has to hold of a valid document. */
  ghost predicate Acceptable(v: Verifier, wire: bytes)
  {
    var doc := v.env.parse(wire);
    && doc.Some? && doc.value.kind == SO.Sdoc
    && SignerTcert(v, doc.value).Some?
    && var sg := SignerTcert(v, doc.value).value;
       TcertAccepted(v, doc.value, sg.tcert) && BodyAccepted(v, doc.value, v.env.sdocId(wire), sg.id, sg.tcert)
  }

  /** The TCert number is absent, or the TCert is held and cannot be parsed. */
  predicate SignerRefuted(v: Verifier, doc: SO.SignedObject)
  {
    match Op.TcertNumberOf(doc)
    case Err(_) => true
    case Ok(n) => GetCert(v.s.certs, TcertIdOf(doc.signerKeyId, n)).Some? && SignerTcert(v, doc).None?
  }

  /** Something is positively wrong, as opposed to unknown. */
  ghost predicate Refuted(v: Verifier, wire: bytes)
  {
    var doc := v.env.parse(wire);
    || doc.None? || doc.value.kind != SO.Sdoc || SignerRefuted(v, doc.value)
    || (SignerTcert(v, doc.value).Some?
        && var sg := SignerTcert(v, doc.value).value;
           !TcertAccepted(v, doc.value, sg.tcert) || BodyRefuted(v, doc.value, v.env.sdocId(wire), sg.id, sg.tcert))
  }

  lemma {:induction false} ContentMeaning(v: Verifier, doc: SO.SignedObject, t: SO.SignedObject,
                                          schema: seq<FieldSchema>, r: VerificationResult)
    requires r.tcert == Valid && r.trust != Invalid && r.revocation == Valid && r.cryptographic == CannotVerify
    requires r.schema == CannotVerify
    requires r.context == Satisfied
    ensures var out := VerifyContent(v, doc, t, schema, r);
      && (out.Ok? && out.value.overall == Valid <==> r.trust == Valid && ContentAccepted(v, doc, t, schema))
      && (out.Ok? ==> (out.value.overall == Invalid <==> ContentRefuted(v, doc, t, schema)))
  {
    MissingMeaning(schema, v.ask, |schema|);
    if SignatureHolds(v, doc, t, schema) {
      VerifyFieldsMeaning(v, doc, schema, r.(cryptographic := Valid));
    }
  }

  lemma {:induction false} VerifyFieldsMeaning(v: Verifier, doc: SO.SignedObject, schema: seq<FieldSchema>,
                                               r: VerificationResult)
    requires r.tcert == Valid && r.trust != Invalid && r.revocation == Valid && r.cryptographic == Valid
    ensures var out := VerifyFields(v, doc, schema, r);
      && (out.Ok? && out.value.overall == Valid
          <==> r.trust == Valid && forall i :: 0 <= i < |schema| ==> AcceptedAt(v, schema, doc, i))
      && (out.Ok? ==> (out.value.overall == Invalid <==> exists i :: 0 <= i < |schema| && RefutedAt(v, schema, doc, i)))
  {
    FieldsMeaning(v, schema, doc, |schema|);
  }

  lemma {:induction false} LifecycleMeaning(v: Verifier, doc: SO.SignedObject, sdocId: string, id: TcertId,
                                            t: SO.SignedObject, r: VerificationResult)
    requires r == EmptyResult().(tcert := Valid, sdocId := r.sdocId, tcertId := r.tcertId)
    ensures var out := VerifyLifecycle(v, doc, sdocId, id, t, r);
      && (out.Ok? && out.value.overall == Valid <==> BodyAccepted(v, doc, sdocId, id, t))
      && (out.Ok? ==> (out.value.overall == Invalid <==> BodyRefuted(v, doc, sdocId, id, t)))
  {
    var trust := TrustOf(v.env, v.s, id);
    if trust != Invalid && IssuedAt(doc).Some? {
      var rev := RevocationCheck(v.s.rev, id, doc.signerKeyId, IssuedAt(doc).value, sdocId);
      if rev != Invalid && SchemaOf(t).Some? {
        ContentMeaning(v, doc, t, SchemaOf(t).value, r.(trust := trust, revocation := rev));
      }
    }
  }

  lemma {:induction false} TcertMeaning(v: Verifier, doc: SO.SignedObject, sdocId: string, id: TcertId, wire: bytes,
                                        r: VerificationResult)
    requires r == EmptyResult().(sdocId := r.sdocId, tcertId := r.tcertId)
    ensures var out := VerifyTcert(v, doc, sdocId, id, wire, r);
      var t := v.env.parse(wire);
      && (out.Ok? && out.value.overall == Valid
          <==> t.Some? && TcertAccepted(v, doc, t.value) && BodyAccepted(v, doc, sdocId, id, t.value))
      && (out.Ok? ==>
          (out.value.overall == Invalid
           <==> t.None? || !TcertAccepted(v, doc, t.value) || BodyRefuted(v, doc, sdocId, id, t.value)))
  {
    var t := v.env.parse(wire);
    if t.Some? {
      WindowMeaning(t.value, doc, v.now);
    }
    if t.Some? && TcertAccepted(v, doc, t.value) {
      LifecycleMeaning(v, doc, sdocId, id, t.value, r.(tcert := Valid));
    }
  }

  /**
   * The verdict is exact. It is `valid` if and only if the document parses, its TCert is held,
   * authentic and in its window, the document is young enough, the TCert is trusted, nothing is
   * revoked or blocked, every secret is given and the signature covers them, and every field passes.
   * It is `invalid` if and only if something is positively wrong; `cannotVerify` is the rest.
   */
  lemma {:induction false} VerdictIsExact(v: Verifier, wire: bytes)
    ensures Report(v, wire).Ok? && Report(v, wire).value.overall == Valid <==> Acceptable(v, wire)
    ensures Report(v, wire).Ok? ==> (Report(v, wire).value.overall == Invalid <==> Refuted(v, wire))
  {
    var doc := v.env.parse(wire);
    if doc.Some? && doc.value.kind == SO.Sdoc {
      var n := Op.TcertNumberOf(doc.value);
      if n.Ok? {
        var id := TcertIdOf(doc.value.signerKeyId, n.value);
        var cert := GetCert(v.s.certs, id);
        if cert.Some? {
          var sdocId := v.env.sdocId(wire);
          TcertMeaning(v, doc.value, sdocId, id, cert.value,
                       EmptyResult().(sdocId := Some(sdocId), tcertId := Some(id)));
        }
      }
    }
  }

  /* ------------------------------ never valid ----------------------------------- */

  /** The schema the document is checked against. */
  function SchemaFor(v: Verifier, wire: bytes): seq<FieldSchema>
  {
    var doc := v.env.parse(wire);
    if doc.None? || SignerTcert(v, doc.value).None? then []
    else
      var schema := SchemaOf(SignerTcert(v, doc.value).value.tcert);
      if schema.Some? then schema.value else []
  }

  /** Every engine of a type that needs the position reports that it could not verify without one. */
  ghost predicate NeedsLocation(e: Engine)
  {
    forall f, x, now ::
      e.validateField(f, x, Context(now, None)) in {None, Some(FieldCannotVerify), Some(MissingContext),
                                                    Some(ContextDenied)}
  }

  function EngineOf(v: Verifier, f: FieldSchema): Option<Engine> { v.fe.engine(f.ftype) }

  /** The location engine is one of them, whatever its distance test. */
  lemma {:induction false} LocationNeedsPosition(e: Engine,
                                                 within: (FieldSchema, Value) -> ((int, int)) -> Option<bool>)
    requires forall f, x, ctx :: e.validateField(f, x, ctx) == LocationVerdict(ctx, within(f, x))
    ensures NeedsLocation(e)
  {
    forall f, x, now ensures e.validateField(f, x, Context(now, None)) == Some(FieldCannotVerify) {
      assert e.validateField(f, x, Context(now, None)) == LocationVerdict(Context(now, None), within(f, x));
    }
  }

  /** Field `i` of the schema was asked for a value that was answered with null. */
  ghost predicate AnsweredNull(v: Verifier, f: FieldSchema, stored: Option<Value>, i: nat)
  {
    || (IsStripped(f) && v.ask(i).None?)
    || (IsInline(f) && stored.Some? && v.ask(i).None?)
    || (!IsStripped(f) && stored.Some? && v.ctx.location.None? && EngineOf(v, f).Some?
        && NeedsLocation(EngineOf(v, f).value))
  }

  lemma {:induction false} NullIsNotAccepted(v: Verifier, f: FieldSchema, stored: Option<Value>, i: nat)
    requires AnsweredNull(v, f, stored, i)
    ensures (IsStripped(f) && v.ask(i).None?) || !FieldAccepted(v.fe, f, stored, v.ask(i), v.ctx)
  {
    BindingsExclude(f);
    if v.ctx.location.None? {
      assert v.ctx == Context(v.ctx.now, None);
    }
  }

  lemma {:induction false} ValidFieldsAccepted(v: Verifier, wire: bytes, i: nat)
    requires i < |SchemaFor(v, wire)| && Acceptable(v, wire)
    ensures AcceptedAt(v, SchemaFor(v, wire), v.env.parse(wire).value, i)
    ensures IsStripped(SchemaFor(v, wire)[i]) ==> v.ask(i).Some?
  {
    var doc := v.env.parse(wire).value;
    var sg := SignerTcert(v, doc).value;
    assert ContentAccepted(v, doc, sg.tcert, SchemaFor(v, wire));
  }

  /** A requested secret, bound value or position that is answered with null never gives a valid document. */
  lemma {:induction false} NullAnswersAreNeverValid(v: Verifier, wire: bytes, i: nat)
    requires i < |SchemaFor(v, wire)|
    requires AnsweredNull(v, SchemaFor(v, wire)[i], StoredAt(v.env.parse(wire).value, i), i)
    ensures !(Report(v, wire).Ok? && Report(v, wire).value.overall == Valid)
  {
    VerdictIsExact(v, wire);
    NullIsNotAccepted(v, SchemaFor(v, wire)[i], StoredAt(v.env.parse(wire).value, i), i);
    if Acceptable(v, wire) {
      ValidFieldsAccepted(v, wire, i);
    }
  }

  /** Once a key is revoked, no document of that key verifies as valid again, whatever operations follow. */
  lemma {:induction false} RevokedKeyNeverValid(v: Verifier, ops: seq<Op.Op>, wire: bytes)
    requires v.env.parse(wire).Some? && v.env.parse(wire).value.signerKeyId in v.s.rev.keys
    ensures var later := v.(s := Op.Run(v.env, v.s, ops));
      !(Report(later, wire).Ok? && Report(later, wire).value.overall == Valid)
  {
    var later := v.(s := Op.Run(v.env, v.s, ops));
    var doc := v.env.parse(wire).value;
    VerdictIsExact(later, wire);
    if Acceptable(later, wire) {
      Permanence.RevokedKeyIsFinal(v.env, v.s, ops, SignerTcert(later, doc).value.id, doc.signerKeyId,
                                   IssuedAt(doc).value, v.env.sdocId(wire));
    }
  }

  /**
   * A valid document whose TCert is revoked has only prospective revocations to survive, and was
   * issued before the latest of them.
   */
  lemma {:induction false} ValidPredatesRevocation(v: Verifier, wire: bytes)
    requires v.env.parse(wire).Some? && SignerTcert(v, v.env.parse(wire).value).Some?
    requires Report(v, wire).Ok? && Report(v, wire).value.overall == Valid
    ensures var id := SignerTcert(v, v.env.parse(wire).value).value.id;
      forall e :: e in RevocationsOf(v.s.rev, id) ==>
        e.kind.Prospective? && exists x ::
          x in RevocationsOf(v.s.rev, id) && e.issuedAt <= x.issuedAt
            && IssuedAt(v.env.parse(wire).value).value < x.issuedAt
  {
    VerdictIsExact(v, wire);
    var id := SignerTcert(v, v.env.parse(wire).value).value.id;
    MemoryStores.EffectiveRevocationIsWorst(v.s.rev, id);
    if TcertRevoked(v.s.rev, id) {
      var worst := EffectiveRevocation(v.s.rev, id).value;
      assert worst in RevocationsOf(v.s.rev, id);
    }
  }
}
