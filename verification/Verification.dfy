/** The verification pipeline: stages with early exits that fill in a result, folded into one verdict. */
module Verification {
  import opened Bytes
  import opened Cbor
  import CborDecoder
  import opened Fields
  import opened Ids
  import opened ServiceState
  import opened Signing
  import Cose
  import Op = Operations
  import SO = SignedObjects
  import St = Statements
  import Svc = Services

  datatype ContextState = Satisfied | Missing | Denied
  datatype FieldResult = FieldResult(name: string, caption: string, state: FieldState)

  datatype VerificationResult = VerificationResult(
    overall: ComponentState,
    cryptographic: ComponentState,
    tcert: ComponentState,
    trust: ComponentState,
    revocation: ComponentState,
    schema: ComponentState,
    fields: seq<FieldResult>,
    context: ContextState,
    warnings: seq<string>,
    sdocId: Option<string>,
    tcertId: Option<TcertId>)

  function EmptyResult(): VerificationResult
  {
    VerificationResult(CannotVerify, CannotVerify, CannotVerify, CannotVerify, CannotVerify, CannotVerify, [],
                       Satisfied, [], None, None)
  }

  /** `finalize`: any invalid component decides, then anything unknown or unsatisfied. */
  function Final(r: VerificationResult): VerificationResult
  {
    var components := [r.cryptographic, r.tcert, r.trust, r.revocation, r.schema];
    r.(overall :=
      if Invalid in components then Invalid
      else if CannotVerify in components || r.context != Satisfied then CannotVerify
      else Valid)
  }

  /* ----------------------------------- fields ----------------------------------- */

  /** Value `i` of the document; null and absent are the same. */
  function StoredAt(doc: SO.SignedObject, i: nat): Option<Value>
  {
    match St.Get(doc.data, "fields")
    case Some(Array(items)) => if i < |items| && items[i] != Null then Some(items[i]) else None
    case _ => None
  }

  /** What checking one field contributes: its state, whether it refutes the document, and what context it lacked. */
  datatype Verdict = Verdict(state: FieldState, refutes: bool, lacks: Option<ContextState>)

  function EngineVerdict(e: Engine, f: FieldSchema, x: Value, ctx: Context): Verdict
  {
    match e.validateField(f, x, ctx)
    case None => Verdict(FieldMalformed, true, None)
    case Some(st) =>
      Verdict(st, st == FieldInvalid,
              if st == FieldCannotVerify || st == MissingContext then Some(Missing)
                else if st == ContextDenied then Some(Denied) else None)
  }

  function FieldVerdict(fe: FieldEnv, f: FieldSchema, stored: Option<Value>, answer: Option<string>,
                        ctx: Context): Result<Verdict>
  {
    if IsStripped(f) then Ok(Verdict(FieldValid, false, None))
    else match fe.engine(f.ftype)
      case None => Err(UnsupportedError)
      case Some(e) =>
        match stored
        case None => Ok(if f.required then Verdict(FieldInvalid, true, None) else Verdict(FieldValid, false, None))
        case Some(x) =>
          if !IsInline(f) then Ok(EngineVerdict(e, f, x, ctx))
          else if answer.None? then Ok(Verdict(FieldCannotVerify, false, Some(Missing)))
          else match e.decode(f, x)
            case None => Err(ValidationError)
            case Some(shown) =>
              Ok(if fe.trim(answer.value) != fe.trim(shown) then Verdict(FieldInvalid, true, None)
                 else EngineVerdict(e, f, x, ctx))
  }

  datatype Progress = Progress(schema: ComponentState, context: ContextState, fields: seq<FieldResult>)

  function Advance(p: Progress, f: FieldSchema, v: Verdict): Progress
  {
    Progress(if v.refutes then Invalid else p.schema, if v.lacks.Some? then v.lacks.value else p.context,
             p.fields + [FieldResult(f.name, f.caption, v.state)])
  }

  /** The loop over the first `n` fields. */
  function CheckFields(fe: FieldEnv, schema: seq<FieldSchema>, doc: SO.SignedObject, ask: nat -> Option<string>,
                       ctx: Context, n: nat)
    : Result<Progress>
    requires n <= |schema|
  {
    if n == 0 then Ok(Progress(Valid, Satisfied, []))
    else
      var before :- CheckFields(fe, schema, doc, ask, ctx, n - 1);
      var v :- FieldVerdict(fe, schema[n - 1], StoredAt(doc, n - 1), ask(n - 1), ctx);
      Ok(Advance(before, schema[n - 1], v))
  }

  /** The secrets that were entered, and the names of those that were not. */
  datatype Given = Given(secrets: seq<Entry>, missing: seq<string>)

  /** The names of the stripped fields whose value was not given. */
  function MissingSecrets(schema: seq<FieldSchema>, ask: nat -> Option<string>, n: nat): seq<string>
    requires n <= |schema|
  {
    if n == 0 then []
    else MissingSecrets(schema, ask, n - 1) + (if IsStripped(schema[n - 1])
                                               && ask(n - 1).None? then [schema[n - 1].name] else [])
  }

  function Entered(schema: seq<FieldSchema>, ask: nat -> Option<string>): Given
  {
    Given(SecretMap(schema, ask, |schema|), MissingSecrets(schema, ask, |schema|))
  }

  /* ----------------------------------- stages ----------------------------------- */

  /** The verifier: its stores, the external services, the time, and the answers to its questions. */
  datatype Verifier = Verifier(env: Env, fe: FieldEnv, s: State, now: int, ask: nat -> Option<string>, ctx: Context)

  /** A self-signed TCert whose key id belongs to its key. */
  predicate Authentic(env: Env, t: SO.SignedObject)
  {
    SelfSigned(env, t) && env.keyIdOf(t.algorithm, env.publicKey(t)) == t.signerKeyId
  }

  function IssuedAt(doc: SO.SignedObject): Option<int>
  {
    match St.Get(doc.data, "issuedAt") case None => None case Some(v) => if Cose.IsJsNumber(v) then Some(v.i) else None
  }

  predicate TooOld(t: SO.SignedObject, doc: SO.SignedObject, now: int)
  {
    var maxAge := WindowOf(t).maxAge;
    maxAge.Some? && IssuedAt(doc).Some? && now - IssuedAt(doc).value > maxAge.value
  }

  function VerifyFields(v: Verifier, doc: SO.SignedObject, schema: seq<FieldSchema>,
                        r: VerificationResult): Result<VerificationResult>
  {
    var p :- CheckFields(v.fe, schema, doc, v.ask, v.ctx, |schema|);
    Ok(Final(r.(schema := p.schema, context := p.context, fields := p.fields)))
  }

  function VerifyContent(v: Verifier, doc: SO.SignedObject, t: SO.SignedObject, schema: seq<FieldSchema>,
                         r: VerificationResult)
    : Result<VerificationResult>
  {
    var missing := MissingSecrets(schema, v.ask, |schema|);
    if missing != [] then Ok(Final(r.(context := Missing, warnings := missing)))
    else
      var aad :- Aad(SecretMap(schema, v.ask, |schema|));
      if !v.env.verifies(doc.algorithm, doc, v.env.publicKey(t), aad) then Ok(Final(r.(cryptographic := Invalid)))
      else VerifyFields(v, doc, schema, r.(cryptographic := Valid))
  }

  function VerifyLifecycle(v: Verifier, doc: SO.SignedObject, sdocId: string, id: TcertId, t: SO.SignedObject,
                           r: VerificationResult)
    : Result<VerificationResult>
  {
    var trust := TrustOf(v.env, v.s, id);
    var r := r.(trust := trust);
    if trust == Invalid then Ok(Final(r))
    else match IssuedAt(doc)
      case None => Ok(Final(r.(revocation := Invalid)))
      case Some(at) =>
        var rev := RevocationCheck(v.s.rev, id, doc.signerKeyId, at, sdocId);
        var r := r.(revocation := rev);
        if rev == Invalid then Ok(Final(r))
        else match SchemaOf(t)
          case None => Ok(Final(r.(schema := Invalid)))
          case Some(schema) => VerifyContent(v, doc, t, schema, r)
  }

  function VerifyTcert(v: Verifier, doc: SO.SignedObject, sdocId: string, id: TcertId, wire: bytes,
                       r: VerificationResult)
    : Result<VerificationResult>
  {
    match v.env.parse(wire)
    case None => Ok(Final(r.(tcert := Invalid)))
    case Some(t) =>
      if !Authentic(v.env, t) || !InWindow(WindowOf(t), v.now) then Ok(Final(r.(tcert := Invalid)))
      else if TooOld(t, doc, v.now) then Ok(Final(r.(schema := Invalid)))
      else VerifyLifecycle(v, doc, sdocId, id, t, r.(tcert := Valid))
  }

  function VerifySigner(v: Verifier, doc: SO.SignedObject, sdocId: string,
                        r: VerificationResult): Result<VerificationResult>
  {
    match Op.TcertNumberOf(doc)
    case Err(_) => Ok(Final(r.(tcert := Invalid)))
    case Ok(n) =>
      var id := TcertIdOf(doc.signerKeyId, n);
      var r := r.(tcertId := Some(id));
      match GetCert(v.s.certs, id)
      case None => Ok(Final(r))
      case Some(wire) => VerifyTcert(v, doc, sdocId, id, wire, r)
  }

  /** `verify`: the result, or the error it throws (an unknown field type, or a stored value that cannot be shown). */
  function Report(v: Verifier, wire: bytes): Result<VerificationResult>
  {
    match v.env.parse(wire)
    case None => Ok(Final(EmptyResult().(cryptographic := Invalid)))
    case Some(doc) =>
      if doc.kind != SO.Sdoc then Ok(Final(EmptyResult().(cryptographic := Invalid)))
      else VerifySigner(v, doc, v.env.sdocId(wire), EmptyResult().(sdocId := Some(v.env.sdocId(wire))))
  }

  /* ----------------------------------- service ---------------------------------- */

  class VerificationService {
    const deps: Svc.ServiceDeps
    const fields: FieldEnv
    const trustService: Svc.TrustService
    const revocationService: Svc.RevocationService

    predicate Wired() { trustService.deps == deps && revocationService.deps == deps }

    constructor (deps: Svc.ServiceDeps, fields: FieldEnv)
      ensures this.deps == deps && this.fields == fields && Wired()
    {
      this.deps := deps;
      this.fields := fields;
      trustService := new Svc.TrustService(deps);
      revocationService := new Svc.RevocationService(deps);
    }

    function Self(now: int, ask: nat -> Option<string>, ctx: Context): Verifier
      reads deps.certificateStore, deps.documentStore, deps.trustStore, deps.revocationStore
    {
      Verifier(deps.env, fields, deps.State(), now, ask, ctx)
    }

    /**
     * One invalid component makes the document invalid, whatever the others and the context are; it is
     * valid when all five are and no context was missing or denied. Nothing else of the result changes.
     */
    method Finalize(r: VerificationResult) returns (done: VerificationResult)
      ensures done == r.(overall := done.overall)
      ensures done.overall == Invalid
        <==> Invalid in {r.cryptographic, r.tcert, r.trust, r.revocation, r.schema}
      ensures done.overall == Valid
        <==> r.cryptographic == r.tcert == r.trust == r.revocation == r.schema == Valid && r.context == Satisfied
      ensures done == Final(r)
    {
      var components := [r.cryptographic, r.tcert, r.trust, r.revocation, r.schema];
      if Invalid in components {
        done := r.(overall := Invalid);
      } else if CannotVerify in components || r.context == Missing || r.context == Denied {
        done := r.(overall := CannotVerify);
      } else {
        done := r.(overall := Valid);
      }
    }

    method Verify(wire: bytes, now: int, ask: nat -> Option<string>,
                  ctx: Context) returns (out: Result<VerificationResult>)
      requires Wired()
      ensures out == Report(Self(now, ask, ctx), wire)
    {
      var result := EmptyResult();
      var doc := deps.env.parse(wire);
      if doc.None? || doc.value.kind != SO.Sdoc {
        result := Finalize(result.(cryptographic := Invalid));
        return Ok(result);
      }
      result := result.(sdocId := Some(deps.env.sdocId(wire)));
      var n := Op.TcertNumberOf(doc.value);
      if n.Err? {
        result := Finalize(result.(tcert := Invalid));
        return Ok(result);
      }
      var id := TcertIdOf(doc.value.signerKeyId, n.value);
      result := result.(tcertId := Some(id));
      var tcertBytes := deps.certificateStore.Get(id);
      if tcertBytes.None? {
        result := Finalize(result);
        return Ok(result);
      }
      out := CheckTcert(doc.value, deps.env.sdocId(wire), id, tcertBytes.value, result, now, ask, ctx);
    }

    /** The TCert: its own signature, its window, and how old documents may be. */
    method CheckTcert(doc: SO.SignedObject, sdocId: string, id: TcertId, wire: bytes, r: VerificationResult,
                      now: int, ask: nat -> Option<string>, ctx: Context) returns (out: Result<VerificationResult>)
      requires Wired()
      ensures out == VerifyTcert(Self(now, ask, ctx), doc, sdocId, id, wire, r)
    {
      var result := r;
      var t := deps.env.parse(wire);
      if t.None? {
        result := Finalize(result.(tcert := Invalid));
        return Ok(result);
      }
      var pub := deps.env.publicKey(t.value);
      var selfOk := deps.env.verifies(t.value.algorithm, t.value, pub, []);
      var keyIdOk := deps.env.keyIdOf(t.value.algorithm, pub) == t.value.signerKeyId;
      if !selfOk || !keyIdOk {
        result := Finalize(result.(tcert := Invalid));
        return Ok(result);
      }
      var w := WindowOf(t.value);
      if w.validAfter.Some? && now < w.validAfter.value {
        result := Finalize(result.(tcert := Invalid));
        return Ok(result);
      }
      if w.validBefore.Some? && now >= w.validBefore.value {
        result := Finalize(result.(tcert := Invalid));
        return Ok(result);
      }
      if w.maxAge.Some? {
        var at := IssuedAt(doc);
        if at.Some? && now - at.value > w.maxAge.value {
          result := Finalize(result.(schema := Invalid));
          return Ok(result);
        }
      }
      result := result.(tcert := Valid);
      out := CheckLifecycle(doc, sdocId, id, t.value, result, now, ask, ctx);
    }

    /** Trust, then revocation. */
    method CheckLifecycle(doc: SO.SignedObject, sdocId: string, id: TcertId, t: SO.SignedObject, r: VerificationResult,
                          now: int, ask: nat -> Option<string>, ctx: Context) returns (out: Result<VerificationResult>)
      requires Wired()
      ensures out == VerifyLifecycle(Self(now, ask, ctx), doc, sdocId, id, t, r)
    {
      var result := r;
      var trust := trustService.ResolveTrust(id);
      result := result.(trust := trust.state);
      if trust.state == Invalid {
        result := Finalize(result);
        return Ok(result);
      }
      var at := IssuedAt(doc);
      if at.None? {
        result := Finalize(result.(revocation := Invalid));
        return Ok(result);
      }
      var rev := revocationService.CheckRevocation(id, doc.signerKeyId, at.value, sdocId);
      result := result.(revocation := rev);
      if rev == Invalid {
        result := Finalize(result);
        return Ok(result);
      }
      var schema := SchemaOf(t);
      if schema.None? {
        result := Finalize(result.(schema := Invalid));
        return Ok(result);
      }
      out := CheckContent(doc, t, schema.value, result, now, ask, ctx);
    }

    /** The secrets, the signature over them, and every field. */
    method CheckContent(doc: SO.SignedObject, t: SO.SignedObject, schema: seq<FieldSchema>, r: VerificationResult,
                        now: int, ask: nat -> Option<string>, ctx: Context) returns (out: Result<VerificationResult>)
      ensures out == VerifyContent(Self(now, ask, ctx), doc, t, schema, r)
    {
      var result := r;
      var given := CollectSecrets(schema, ask);
      if given.missing != [] {
        result := Finalize(result.(context := Missing, warnings := given.missing));
        return Ok(result);
      }
      var aad :- Aad(given.secrets);
      var sigOk := deps.env.verifies(doc.algorithm, doc, deps.env.publicKey(t), aad);
      if !sigOk {
        result := Finalize(result.(cryptographic := Invalid));
        return Ok(result);
      }
      result := result.(cryptographic := Valid);
      out := CheckEachField(doc, schema, result, now, ask, ctx);
    }

    /** Ask for every stripped value, and go on when one is missing. */
    method CollectSecrets(schema: seq<FieldSchema>, ask: nat -> Option<string>) returns (given: Given)
      ensures given == Entered(schema, ask)
    {
      var secrets: seq<Entry>, missing: seq<string> := [], [];
      for i := 0 to |schema|
        invariant secrets == SecretMap(schema, ask, i)
        invariant missing == MissingSecrets(schema, ask, i)
      {
        if IsStripped(schema[i]) {
          var secret := ask(i);
          if secret.None? {
            missing := missing + [schema[i].name];
          } else {
            secrets := SetProperty(secrets, schema[i].name, secret.value);
          }
        }
      }
      return Given(secrets, missing);
    }

    method CheckEachField(doc: SO.SignedObject, schema: seq<FieldSchema>, r: VerificationResult,
                          now: int, ask: nat -> Option<string>, ctx: Context) returns (out: Result<VerificationResult>)
      ensures out == VerifyFields(Self(now, ask, ctx), doc, schema, r)
    {
      var result := r.(schema := Valid, context := Satisfied, fields := []);
      for i := 0 to |schema|
        invariant CheckFields(fields, schema, doc, ask, ctx, i)
          == Ok(Progress(result.schema, result.context, result.fields))
        invariant result == r.(schema := result.schema, context := result.context, fields := result.fields)
      {
        FirstErrorStops(fields, schema, doc, ask, ctx, i);
        var verdict := CheckOne(schema[i], StoredAt(doc, i), ask(i), ctx);
        if verdict.Err? {
          return Err(verdict.error);
        }
        var v := verdict.value;
        result := result.(fields := result.fields + [FieldResult(schema[i].name, schema[i].caption, v.state)]);
        if v.refutes {
          result := result.(schema := Invalid);
        }
        if v.lacks.Some? {
          result := result.(context := v.lacks.value);
        }
      }
      result := Finalize(result);
      return Ok(result);
    }

    /** One field: stripped, absent, bound inline, or checked by its engine. */
    method CheckOne(f: FieldSchema, encoded: Option<Value>, answer: Option<string>,
                    ctx: Context) returns (r: Result<Verdict>)
      ensures r == FieldVerdict(fields, f, encoded, answer, ctx)
    {
      if IsStripped(f) {
        return Ok(Verdict(FieldValid, false, None));
      }
      var e := fields.engine(f.ftype);
      if e.None? {
        return Err(UnsupportedError);
      }
      if encoded.None? {
        return Ok(if f.required then Verdict(FieldInvalid, true, None) else Verdict(FieldValid, false, None));
      }
      if IsInline(f) {
        if answer.None? {
          return Ok(Verdict(FieldCannotVerify, false, Some(Missing)));
        }
        var presentable := e.value.decode(f, encoded.value);
        if presentable.None? {
          return Err(ValidationError);
        }
        if fields.trim(answer.value) != fields.trim(presentable.value) {
          return Ok(Verdict(FieldInvalid, true, None));
        }
      }
      return Ok(EngineVerdict(e.value, f, encoded.value, ctx));
    }
  }

  lemma {:induction false} FirstErrorStops(fe: FieldEnv, schema: seq<FieldSchema>, doc: SO.SignedObject,
                                           ask: nat -> Option<string>, ctx: Context, i: nat)
    requires i < |schema| && CheckFields(fe, schema, doc, ask, ctx, i).Ok?
    ensures var v := FieldVerdict(fe, schema[i], StoredAt(doc, i), ask(i), ctx);
      v.Err? ==> CheckFields(fe, schema, doc, ask, ctx, |schema|) == Err(v.error)
  {
    var v := FieldVerdict(fe, schema[i], StoredAt(doc, i), ask(i), ctx);
    if v.Err? {
      for k := i + 1 to |schema|
        invariant CheckFields(fe, schema, doc, ask, ctx, k) == Err(v.error)
      {
      }
    }
  }
}
