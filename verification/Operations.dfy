/**
 * The operations of the trust, revocation and online services as transitions of the stores.
 * A failing operation reports the error it throws and leaves the stores as they were, except
 * for a TCert that was saved before the failure.
 */
module Operations {
  import opened Bytes
  import opened Ids
  import opened ServiceState
  import Cbor
  import Cose
  import SO = SignedObjects
  import St = Statements

  /** What a statement is going to say. */
  datatype Draft = Draft(action: St.Action, target: St.Target, issuedAt: int, options: St.Options)

  /** The signer's private key, if it is held: building a statement with it and checking its signature. */
  datatype Signing = NoKey | Key(make: Draft -> Result<bytes>)

  /** The bytes of the signed statement, or the error on the way. */
  function Statement(signing: Signing, draft: Draft): Result<bytes>
  {
    match signing
    case NoKey => Err(NotFoundError)
    case Key(make) => make(draft)
  }

  datatype Attesting = Attesting(
    ca: TcertId,
    target: TcertId,
    claims: Option<seq<Cbor.Entry>>,
    issuedAt: int,
    signing: Signing)

  /** A revocation, block or unblock request; `subject` is what it is about. */
  datatype Request = Request(signer: string, subject: string, reason: Option<string>, issuedAt: int, signing: Signing)

  datatype Op =
    | Pin(id: TcertId) | Unpin(id: TcertId)
    | AddCa(id: TcertId) | RemoveCa(id: TcertId)
    | Distrust(id: TcertId) | TrustAgain(id: TcertId)
    | Attest(p: Attesting)
    | AddTcert(tcertBytes: Option<bytes>, p: Attesting)
    | RevokeAttestation(r: Request)
    | RevokeTcert(r: Request, kind: St.RevocationType)
    | RevokeKey(r: Request)
    | BlockSdoc(r: Request) | UnblockSdoc(r: Request)
    | ImportStatementBytes(wire: bytes)
    | ImportTcertBytes(wire: bytes)
    | SaveTcert(id: TcertId, wire: bytes)
    | SaveSdoc(sdocId: string, wire: bytes)

  /** New stores together with the result of the call: statement bytes, none, or an error. */
  datatype Step = Step(state: State, result: Result<bytes>)

  function Done(s: State): Step { Step(s, Ok([])) }

  /* ------------------------------- trust service -------------------------------- */

  predicate Held(s: State, id: TcertId) { GetCert(s.certs, id).Some? }

  function WithTrust(s: State, t: TrustState): State { s.(trust := t) }

  function PinStep(s: State, id: TcertId): Step
  {
    if Held(s, id) then Done(WithTrust(s, s.trust.(pinned := s.trust.pinned + {id}))) else Step(s, Err(NotFoundError))
  }

  function AddCaStep(s: State, id: TcertId): Step
  {
    if Held(s, id) then Done(WithTrust(s, s.trust.(cas := s.trust.cas + {id}))) else Step(s, Err(NotFoundError))
  }

  function ParsedCert(env: Env, s: State, id: TcertId): Result<SO.SignedObject>
  {
    match GetCert(s.certs, id)
    case None => Err(NotFoundError)
    case Some(wire) => match env.parse(wire) case None => Err(ParseError) case Some(o) => Ok(o)
  }

  /** What an attestation states: the target with the content hash of the TCert held. */
  function AttestDraft(p: Attesting, parts: (KeyId, int), hash: string): Draft
  {
    Draft(St.Attest, St.TcertTarget(parts.0, parts.1, Some(hash)), p.issuedAt, St.Options(None, None, p.claims, None))
  }

  /** The record `attest` stores. */
  function NewAttestation(env: Env, s: State, p: Attesting): Result<Attestation>
  {
    if p.ca !in s.trust.cas then Err(AuthorizationError)
    else if AttestedBy(s.trust, p.target, p.ca) then Err(ValidationError)
    else
      var ca :- ParsedCert(env, s, p.ca);
      if p.signing.NoKey? then Err(NotFoundError)
      else
        var parts :- SplitTcertId(p.target);
        var target :- ParsedCert(env, s, p.target);
        var hash := env.tcertHash(target);
        var wire :- Statement(p.signing, AttestDraft(p, parts, hash));
        Ok(Attestation(p.target, ca.signerKeyId, p.ca, hash, St.Dictionary(p.claims), p.issuedAt, wire))
  }

  function AttestStep(env: Env, s: State, p: Attesting): Step
  {
    match NewAttestation(env, s, p)
    case Err(e) => Step(s, Err(e))
    case Ok(a) => Step(WithTrust(s, WithAttestation(s.trust, a)), Ok(a.statement))
  }

  /** Why the TCert bytes given to `addTcert` are refused. */
  function TcertMismatch(env: Env, wire: bytes, target: TcertId): Option<Error>
  {
    match env.parse(wire)
    case None => Some(ParseError)
    case Some(o) =>
      if o.kind != SO.Tcert || TcertIdOf(o.signerKeyId, env.certificateNumber(o)) != target then Some(ValidationError)
        else None
  }

  function AddTcertStep(env: Env, s: State, tcertBytes: Option<bytes>, p: Attesting): Step
  {
    match tcertBytes
    case None => AttestStep(env, s, p)
    case Some(wire) =>
      match TcertMismatch(env, wire, p.target)
      case Some(e) => Step(s, Err(e))
      case None => AttestStep(env, s.(certs := WithCert(s.certs, p.target, wire)), p)
  }

  /* ----------------------------- revocation service ----------------------------- */

  function WithRevocations(s: State, r: RevocationState): State { s.(rev := r) }

  /** What a withdrawal or a revocation of a TCert states. */
  function RevocationDraft(r: Request, action: St.Action, target: (KeyId, int), kind: St.RevocationType): Draft
  {
    Draft(action, St.TcertTarget(target.0, target.1, None), r.issuedAt, St.Options(r.reason, Some(kind), None, None))
  }

  function KeyDraft(r: Request): Draft
  {
    Draft(St.RevokeTcert, St.KeyTarget(r.subject), r.issuedAt, St.Options(r.reason, Some(St.Retrospective), None, None))
  }

  function BlockDraft(r: Request, blocks: bool): Draft
  {
    Draft(if blocks then St.BlockSdoc else St.UnblockSdoc, St.SdocTarget(r.subject), r.issuedAt,
          St.Options(r.reason, None, None, None))
  }

  function RevokeAttestationStep(s: State, r: Request): Step
  {
    match SplitTcertId(r.signer)
    case Err(e) => Step(s, Err(e))
    case Ok(ca) =>
      match SplitTcertId(r.subject)
      case Err(e) => Step(s, Err(e))
      case Ok(target) =>
        if !AttestedBy(s.trust, r.subject, r.signer) then Step(s, Err(AuthorizationError))
        else match Statement(r.signing, RevocationDraft(r, St.RevokeAttestation, target, St.Prospective))
          case Err(e) => Step(s, Err(e))
          case Ok(wire) =>
            var entry := RevocationEntry(St.Prospective, r.issuedAt, r.reason, Some(ca.0), Some(r.signer), Some(wire));
            Step(WithRevocations(s, WithRevokedAttestation(s.rev, r.subject, r.signer, entry)), Ok(wire))
  }

  /** The owner of the key, or a trusted CA that attested the TCert. */
  predicate MayRevoke(env: Env, s: State, signer: KeyId, owner: KeyId, tcertId: TcertId)
  {
    signer == owner || AuthorizedCa(env, s, signer, tcertId)
  }

  function RevokeTcertStep(env: Env, s: State, r: Request, kind: St.RevocationType): Step
  {
    match SplitTcertId(r.subject)
    case Err(e) => Step(s, Err(e))
    case Ok(target) =>
      if !MayRevoke(env, s, r.signer, target.0, r.subject) then Step(s, Err(AuthorizationError))
      else match Statement(r.signing, RevocationDraft(r, St.RevokeTcert, target, kind))
        case Err(e) => Step(s, Err(e))
        case Ok(wire) =>
          var entry := RevocationEntry(kind, r.issuedAt, r.reason, Some(r.signer), None, Some(wire));
          Step(WithRevocations(s, WithRevokedTcert(s.rev, r.subject, entry)), Ok(wire))
  }

  function RevokeKeyStep(s: State, r: Request): Step
  {
    if r.signer != r.subject then Step(s, Err(AuthorizationError))
    else match Statement(r.signing, KeyDraft(r))
      case Err(e) => Step(s, Err(e))
      case Ok(wire) =>
        var entry := RevocationEntry(St.Retrospective, r.issuedAt, r.reason, Some(r.signer), None, Some(wire));
        Step(WithRevocations(s, WithRevokedKey(s.rev, r.subject, entry)), Ok(wire))
  }

  /** `tcertNumberOf`: the number in the protected headers. */
  function TcertNumberOf(o: SO.SignedObject): Result<int>
  {
    match o.cose.tcertNumber
    case None => Err(ParseError)
    case Some(n) => if Cose.IsTcertNumber(n) then Ok(n) else Err(ParseError)
  }

  /** Whether the signer may block or unblock a stored SDoc. */
  function BlockAuthority(env: Env, s: State, signer: KeyId, sdocId: string): Result<bool>
  {
    if sdocId !in s.docs then Err(NotFoundError)
    else match env.parse(s.docs[sdocId])
      case None => Err(ParseError)
      case Some(o) =>
        var n :- TcertNumberOf(o);
        if MayRevoke(env, s, signer, o.signerKeyId, TcertIdOf(o.signerKeyId, n)) then Ok(true)
          else Err(AuthorizationError)
  }

  function BlockStep(env: Env, s: State, r: Request, blocks: bool): Step
  {
    match BlockAuthority(env, s, r.signer, r.subject)
    case Err(e) => Step(s, Err(e))
    case Ok(_) =>
      match Statement(r.signing, BlockDraft(r, blocks))
      case Err(e) => Step(s, Err(e))
      case Ok(wire) =>
        var entry := BlockEntry(r.issuedAt, r.reason, Some(r.signer), None, Some(wire));
        Step(WithRevocations(s, if blocks then WithBlocked(s.rev, r.subject, entry)
                             else WithUnblocked(s.rev, r.subject, entry)), Ok(wire))
  }

  /* ------------------------------------ runs ------------------------------------ */

  function WithSdoc(s: State, id: string, wire: bytes): State { s.(docs := s.docs[id := wire]) }

  /** One operation. */
  function Apply(env: Env, s: State, op: Op): State
  {
    match op
    case Pin(id) => PinStep(s, id).state
    case Unpin(id) => WithTrust(s, s.trust.(pinned := s.trust.pinned - {id}))
    case AddCa(id) => AddCaStep(s, id).state
    case RemoveCa(id) => WithTrust(s, s.trust.(cas := s.trust.cas - {id}))
    case Distrust(id) => WithTrust(s, s.trust.(distrusted := s.trust.distrusted + {id}))
    case TrustAgain(id) => WithTrust(s, s.trust.(distrusted := s.trust.distrusted - {id}))
    case Attest(p) => AttestStep(env, s, p).state
    case AddTcert(wire, p) => AddTcertStep(env, s, wire, p).state
    case RevokeAttestation(r) => RevokeAttestationStep(s, r).state
    case RevokeTcert(r, kind) => RevokeTcertStep(env, s, r, kind).state
    case RevokeKey(r) => RevokeKeyStep(s, r).state
    case BlockSdoc(r) => BlockStep(env, s, r, true).state
    case UnblockSdoc(r) => BlockStep(env, s, r, false).state
    case ImportStatementBytes(wire) => ImportStatement(env, s, wire).0
    case ImportTcertBytes(wire) => ImportTcert(env, s, wire).0
    case SaveTcert(id, wire) => s.(certs := WithCert(s.certs, id, wire))
    case SaveSdoc(id, wire) => WithSdoc(s, id, wire)
  }

  /** A run of operations, each an atomic step. */
  function Run(env: Env, s: State, ops: seq<Op>): State
    decreases |ops|
  {
    if ops == [] then s else Run(env, Apply(env, s, ops[0]), ops[1..])
  }

  function Empty(): State
  {
    State([], map[], TrustState({}, {}, {}, map[]), RevocationState(map[], map[], map[], map[], []))
  }
}
