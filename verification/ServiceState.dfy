/**
 * What the verifier's stores hold, the queries over them, and the transition every
 * service operation makes.
 */
module ServiceState {
  import opened Bytes
  import opened Ids
  import opened Sorting
  import Cbor
  import SO = SignedObjects
  import St = Statements

  /* ------------------------------- external services ---------------------------- */

  /**
   * The parsing and cryptographic services the stores are used with. Every statement below
   * holds for all of them; `None` is a parser that throws. `verifies(alg, o, pub, aad)` is the
   * provider of `alg` checking the signature of `o` under `pub` with `aad`.
   */
  datatype Env = Env(
    parse: bytes -> Option<SO.SignedObject>,
    statement: bytes -> Option<St.Statement>,
    publicKey: SO.SignedObject -> Cbor.Value,
    certificateNumber: SO.SignedObject -> int,
    keyIdOf: (SO.Algorithm, Cbor.Value) -> KeyId,
    tcertHash: SO.SignedObject -> string,
    sdocId: bytes -> string,
    verifies: (SO.Algorithm, SO.SignedObject, Cbor.Value, bytes) -> bool)

  /** A TCert whose signature verifies under the public key it contains. */
  predicate SelfSigned(env: Env, o: SO.SignedObject)
  {
    env.verifies(o.algorithm, o, env.publicKey(o), [])
  }

  /* ------------------------------------ records --------------------------------- */

  datatype RevocationEntry = RevocationEntry(
    kind: St.RevocationType,
    issuedAt: int,
    reason: Option<string>,
    byKeyId: Option<KeyId>,
    byTcertId: Option<TcertId>,
    statement: Option<bytes>)

  datatype BlockEntry = BlockEntry(
    issuedAt: int,
    reason: Option<string>,
    byKeyId: Option<KeyId>,
    byTcertId: Option<TcertId>,
    statement: Option<bytes>)

  datatype SdocStatement = SdocStatement(sdocId: string, entry: BlockEntry, blocks: bool)

  datatype Attestation = Attestation(
    target: TcertId,
    caKeyId: KeyId,
    caTcertId: TcertId,
    tcertHash: string,
    claims: Option<Cbor.Value>,
    issuedAt: int,
    statement: bytes)

  datatype Cert = Cert(id: TcertId, wire: bytes)

  datatype TrustState = TrustState(
    pinned: set<TcertId>,
    cas: set<TcertId>,
    distrusted: set<TcertId>,
    attestations: map<TcertId, seq<Attestation>>)

  datatype RevocationState = RevocationState(
    tcerts: map<TcertId, seq<RevocationEntry>>,
    keys: map<KeyId, RevocationEntry>,
    attestations: map<string, RevocationEntry>,
    blocked: map<string, BlockEntry>,
    history: seq<SdocStatement>)

  datatype State = State(certs: seq<Cert>, docs: map<string, bytes>, trust: TrustState, rev: RevocationState)

  /** Replace the first matching element in place, or append. */
  function Upserted<T>(xs: seq<T>, x: T, same: T -> bool): (r: seq<T>)
    ensures |xs| <= |r| <= |xs| + 1
  {
    if xs == [] then [x]
    else if same(xs[0]) then [x] + xs[1..]
    else [xs[0]] + Upserted(xs[1..], x, same)
  }

  /* ------------------------------- store transitions ---------------------------- */

  function AttestationsOf(t: TrustState, target: TcertId): seq<Attestation>
  {
    if target in t.attestations then t.attestations[target] else []
  }

  /** One attestation per (target, CA). */
  function WithAttestation(t: TrustState, a: Attestation): TrustState
  {
    t.(attestations := t.attestations[a.target :=
         Upserted(AttestationsOf(t, a.target), a, (x: Attestation) => x.caTcertId == a.caTcertId)])
  }

  function RevocationsOf(r: RevocationState, id: TcertId): seq<RevocationEntry>
  {
    if id in r.tcerts then r.tcerts[id] else []
  }

  predicate NamesRevoker(e: RevocationEntry) { e.byKeyId.Some? && e.byKeyId.value != "" }

  /** One revocation per revoker key; anonymous entries accumulate. */
  function WithRevokedTcert(r: RevocationState, id: TcertId, e: RevocationEntry): RevocationState
  {
    var list := RevocationsOf(r, id);
    r.(tcerts := r.tcerts[id := if NamesRevoker(e)
                                then Upserted(list, e, (x: RevocationEntry) => x.byKeyId == e.byKeyId)
                                else list + [e]])
  }

  function WithRevokedKey(r: RevocationState, k: KeyId, e: RevocationEntry): RevocationState
  {
    r.(keys := r.keys[k := e])
  }

  function PairKey(target: TcertId, ca: TcertId): string { target + "|" + ca }

  function WithRevokedAttestation(r: RevocationState, target: TcertId, ca: TcertId, e: RevocationEntry): RevocationState
  {
    r.(attestations := r.attestations[PairKey(target, ca) := e])
  }

  function WithBlocked(r: RevocationState, sdocId: string, e: BlockEntry): RevocationState
  {
    r.(blocked := r.blocked[sdocId := e], history := r.history + [SdocStatement(sdocId, e, true)])
  }

  function WithUnblocked(r: RevocationState, sdocId: string, e: BlockEntry): RevocationState
  {
    r.(blocked := r.blocked - {sdocId}, history := r.history + [SdocStatement(sdocId, e, false)])
  }

  function WithCert(certs: seq<Cert>, id: TcertId, wire: bytes): seq<Cert>
  {
    Upserted(certs, Cert(id, wire), (c: Cert) => c.id == id)
  }

  /* ------------------------------------- queries -------------------------------- */

  function GetCert(certs: seq<Cert>, id: TcertId): Option<bytes>
  {
    if certs == [] then None else if certs[0].id == id then Some(certs[0].wire) else GetCert(certs[1..], id)
  }

  predicate StartsWith(s: string, prefix: string) { |prefix| <= |s| && s[..|prefix|] == prefix }

  /** `findByKeyId`, in store order. */
  function CertsOfKey(certs: seq<Cert>, keyId: KeyId): seq<Cert>
  {
    if certs == [] then []
    else (if StartsWith(certs[0].id, keyId + ":") then [certs[0]] else []) + CertsOfKey(certs[1..], keyId)
  }

  function Severity(k: St.RevocationType): int { if k.Retrospective? then 1 else 0 }

  /** The comparator of `getRevokedTcert`: severity first, then the later statement. */
  predicate MoreSevere(a: RevocationEntry, b: RevocationEntry)
  {
    Severity(a.kind) > Severity(b.kind) || (Severity(a.kind) == Severity(b.kind) && a.issuedAt >= b.issuedAt)
  }

  /** `getRevokedTcert` on the list of a TCert: the first entry of the sorted list. */
  function WorstOf(list: seq<RevocationEntry>): Option<RevocationEntry>
  {
    SortPermutes(list, MoreSevere);
    if list == [] then None else Some(Sort(list, MoreSevere)[0])
  }

  function EffectiveRevocation(r: RevocationState, id: TcertId): Option<RevocationEntry>
  {
    WorstOf(RevocationsOf(r, id))
  }

  predicate TcertRevoked(r: RevocationState, id: TcertId) { RevocationsOf(r, id) != [] }

  /** `isTrustedCa`. */
  predicate TrustedCa(s: State, ca: TcertId)
  {
    ca !in s.trust.distrusted && !TcertRevoked(s.rev, ca) && (ca in s.trust.pinned || ca in s.trust.cas)
  }

  /** The CA of an attestation is a self-signed TCert held locally and trusted, and its key is not revoked. */
  predicate CaInGoodStanding(env: Env, s: State, a: Attestation)
  {
    var wire := GetCert(s.certs, a.caTcertId);
    wire.Some? &&
    var ca := env.parse(wire.value);
    && ca.Some? && ca.value.kind == SO.Tcert && SelfSigned(env, ca.value)
    && TrustedCa(s, a.caTcertId) && a.caKeyId !in s.rev.keys
  }

  /** The signed statement of an attestation is about exactly the TCert held locally. */
  predicate StatementBindsTarget(env: Env, s: State, a: Attestation)
  {
    var stmt, wire := env.statement(a.statement), GetCert(s.certs, a.target);
    && stmt.Some? && stmt.value.action == St.Attest && stmt.value.target.TcertTarget?
    && TcertIdOf(stmt.value.target.keyId, stmt.value.target.certificateNumber) == a.target
    && stmt.value.signerKeyId == a.caKeyId
    && stmt.value.target.tcertHash == Some(a.tcertHash)
    && wire.Some? && env.parse(wire.value).Some? && env.tcertHash(env.parse(wire.value).value) == a.tcertHash
  }

  /** The statement verifies under the CA's public key. */
  predicate SignedByCa(env: Env, s: State, a: Attestation)
  {
    var wire, stmt := GetCert(s.certs, a.caTcertId), env.statement(a.statement);
    wire.Some? &&
    var ca := env.parse(wire.value);
    ca.Some? && stmt.Some? && env.verifies(ca.value.algorithm, stmt.value.signed, env.publicKey(ca.value), [])
  }

  /** `isValidAttestation`. */
  predicate ValidAttestation(env: Env, s: State, a: Attestation)
  {
    CaInGoodStanding(env, s, a) && StatementBindsTarget(env, s, a) && SignedByCa(env, s, a)
  }

  /** An attestation that `resolveTrust` accepts as a path to its target. */
  predicate TrustPath(env: Env, s: State, a: Attestation)
  {
    PairKey(a.target, a.caTcertId) !in s.rev.attestations && ValidAttestation(env, s, a)
  }

  predicate HasTrustPath(env: Env, s: State, target: TcertId)
  {
    exists i :: 0 <= i < |AttestationsOf(s.trust, target)| && TrustPath(env, s, AttestationsOf(s.trust, target)[i])
  }

  datatype ComponentState = Valid | Invalid | CannotVerify

  /** The state `resolveTrust` reports. */
  function TrustOf(env: Env, s: State, id: TcertId): ComponentState
  {
    if id in s.trust.distrusted then Invalid
    else if id in s.trust.pinned || HasTrustPath(env, s, id) then Valid
    else CannotVerify
  }

  /** The state `checkRevocation` reports. */
  function RevocationCheck(r: RevocationState, tcertId: TcertId, keyId: KeyId, issuedAt: int,
                           sdocId: string): ComponentState
  {
    if keyId in r.keys then Invalid
    else match EffectiveRevocation(r, tcertId)
      case Some(e) => if e.kind.Retrospective? || issuedAt >= e.issuedAt then Invalid else Valid
      case None => if sdocId in r.blocked then Invalid else Valid
  }

  /** An attestation that makes its CA an authority over the target TCert. */
  predicate AuthorizingAttestation(env: Env, s: State, signer: KeyId, a: Attestation)
  {
    && a.caKeyId == signer
    && GetCert(s.certs, a.caTcertId).Some? && env.parse(GetCert(s.certs, a.caTcertId).value).Some?
    && !TcertRevoked(s.rev, a.caTcertId) && signer !in s.rev.keys
    && a.caTcertId !in s.trust.distrusted
    && (a.caTcertId in s.trust.pinned || a.caTcertId in s.trust.cas)
  }

  /** `isAuthorizedCa`. */
  predicate AuthorizedCa(env: Env, s: State, signer: KeyId, target: TcertId)
  {
    exists i :: 0 <= i < |AttestationsOf(s.trust, target)|
      && AuthorizingAttestation(env, s, signer, AttestationsOf(s.trust, target)[i])
  }

  predicate AttestedBy(t: TrustState, target: TcertId, ca: TcertId)
  {
    exists i :: 0 <= i < |AttestationsOf(t, target)| && AttestationsOf(t, target)[i].caTcertId == ca
  }

  /* --------------------------------- import of objects -------------------------- */

  /** A local TCert under whose public key the statement verifies. */
  predicate CanSign(env: Env, c: Cert, stmt: St.Statement)
  {
    var o := env.parse(c.wire);
    o.Some? && o.value.kind == SO.Tcert && env.verifies(o.value.algorithm, stmt.signed, env.publicKey(o.value), [])
  }

  /** The first of `certs` that can have signed the statement. */
  function FirstSigner(env: Env, certs: seq<Cert>, stmt: St.Statement): Option<TcertId>
  {
    if certs == [] then None
    else if CanSign(env, certs[0], stmt) then Some(certs[0].id)
    else FirstSigner(env, certs[1..], stmt)
  }

  /** The last of `certs` that can have signed the statement and is configured as a CA. */
  function LastCaSigner(env: Env, cas: set<TcertId>, certs: seq<Cert>, stmt: St.Statement): Option<TcertId>
  {
    if certs == [] then None
    else
      var c := certs[|certs| - 1];
      if CanSign(env, c, stmt) && c.id in cas then Some(c.id) else LastCaSigner(env, cas, certs[..|certs| - 1], stmt)
  }

  /** The TCert a statement is attributed to: a CA when there is one, else the first that verifies. */
  function SignerOf(env: Env, s: State, stmt: St.Statement): Option<TcertId>
  {
    var certs := CertsOfKey(s.certs, stmt.signerKeyId);
    var ca := LastCaSigner(env, s.trust.cas, certs, stmt);
    if ca.Some? then ca else FirstSigner(env, certs, stmt)
  }

  datatype Rejection =
    | Malformed | NoSigner | MalformedTarget | HashMismatch | AttestationNotFound
    | UnsupportedAction | UnsupportedTarget
    | NotATcert | BadSelfSignature | KeyIdMismatch

  datatype Outcome = Applied(action: St.Action, target: string) | Imported(tcertId: TcertId) | Rejected(why: Rejection)

  function TargetTcertId(t: St.Target): TcertId
    requires t.TcertTarget?
  {
    TcertIdOf(t.keyId, t.certificateNumber)
  }

  /**
   * The content hash an imported attestation is stored with: the statement's own one while the
   * target is not held, the computed one when it is held and agrees.
   */
  function ImportedHash(env: Env, s: State, t: St.Target): Result<string>
    requires t.TcertTarget?
  {
    match GetCert(s.certs, TargetTcertId(t))
    case None => Ok(if t.tcertHash.Some? then t.tcertHash.value else "")
    case Some(wire) =>
      match env.parse(wire)
      case None => Err(ParseError)
      case Some(o) =>
        if t.tcertHash.Some? && t.tcertHash.value != env.tcertHash(o) then Err(ValidationError)
          else Ok(env.tcertHash(o))
  }

  function ImportedAttestation(stmt: St.Statement, signer: TcertId, hash: string, wire: bytes): Attestation
    requires stmt.target.TcertTarget?
  {
    Attestation(TargetTcertId(stmt.target), stmt.signerKeyId, signer, hash, stmt.claims, stmt.issuedAt, wire)
  }

  function ImportedRevocation(stmt: St.Statement, kind: St.RevocationType, signer: TcertId,
                              wire: bytes): RevocationEntry
  {
    RevocationEntry(kind, stmt.issuedAt, stmt.reason, Some(stmt.signerKeyId), Some(signer), Some(wire))
  }

  function ImportedBlock(stmt: St.Statement, signer: TcertId, wire: bytes): BlockEntry
  {
    BlockEntry(stmt.issuedAt, stmt.reason, Some(stmt.signerKeyId), Some(signer), Some(wire))
  }

  /** `importStatement` once the signer is known. */
  function ApplyStatement(env: Env, s: State, stmt: St.Statement, signer: TcertId, wire: bytes): (State, Outcome)
  {
    var t := stmt.target;
    match stmt.action
    case Attest =>
      if !t.TcertTarget? then (s, Rejected(UnsupportedTarget))
      else (match ImportedHash(env, s, t)
        case Err(e) => (s, Rejected(if e == ParseError then MalformedTarget else HashMismatch))
        case Ok(hash) =>
          (s.(trust := WithAttestation(s.trust, ImportedAttestation(stmt, signer, hash, wire))),
           Applied(St.Attest, TargetTcertId(t))))
    case RevokeTcert =>
      var e := ImportedRevocation(stmt, if stmt.revocationType.Some? then stmt.revocationType.value
                                  else St.Retrospective, signer, wire);
      (match t
       case TcertTarget(_, _, _) =>
         (s.(rev := WithRevokedTcert(s.rev, TargetTcertId(t), e)), Applied(St.RevokeTcert, TargetTcertId(t)))
       case KeyTarget(k) => (s.(rev := WithRevokedKey(s.rev, k, e)), Applied(St.RevokeTcert, k))
       case SdocTarget(_) => (s, Rejected(UnsupportedTarget)))
    case RevokeAttestation =>
      if !t.TcertTarget? then (s, Rejected(UnsupportedTarget))
      else if !AttestedBy(s.trust, TargetTcertId(t), signer) then (s, Rejected(AttestationNotFound))
      else
        var e := ImportedRevocation(stmt, St.Prospective, signer, wire);
        (s.(rev := WithRevokedAttestation(s.rev, TargetTcertId(t), signer, e)),
         Applied(St.RevokeAttestation, TargetTcertId(t)))
    case BlockSdoc =>
      if !t.SdocTarget? then (s, Rejected(UnsupportedTarget))
      else (s.(rev := WithBlocked(s.rev, t.sdocId, ImportedBlock(stmt, signer, wire))), Applied(St.BlockSdoc, t.sdocId))
    case UnblockSdoc =>
      if !t.SdocTarget? then (s, Rejected(UnsupportedTarget))
      else (s.(rev := WithUnblocked(s.rev, t.sdocId, ImportedBlock(stmt, signer, wire))),
            Applied(St.UnblockSdoc, t.sdocId))
    case AddTcert => (s, Rejected(UnsupportedAction))
  }

  /** `importStatement`. */
  function ImportStatement(env: Env, s: State, wire: bytes): (State, Outcome)
  {
    match env.statement(wire)
    case None => (s, Rejected(Malformed))
    case Some(stmt) =>
      match SignerOf(env, s, stmt)
      case None => (s, Rejected(NoSigner))
      case Some(signer) => ApplyStatement(env, s, stmt, signer, wire)
  }

  /** Why `importTcert` refuses an object, if it does. */
  function TcertObjection(env: Env, wire: bytes): Option<Rejection>
  {
    match env.parse(wire)
    case None => Some(Malformed)
    case Some(o) =>
      if o.kind != SO.Tcert then Some(NotATcert)
      else if !SelfSigned(env, o) then Some(BadSelfSignature)
      else if env.keyIdOf(o.algorithm, env.publicKey(o)) != o.signerKeyId then Some(KeyIdMismatch)
      else None
  }

  function ImportedTcertId(env: Env, wire: bytes): TcertId
    requires env.parse(wire).Some?
  {
    TcertIdOf(env.parse(wire).value.signerKeyId, env.certificateNumber(env.parse(wire).value))
  }

  /** `importTcert`. */
  function ImportTcert(env: Env, s: State, wire: bytes): (State, Outcome)
  {
    match TcertObjection(env, wire)
    case Some(why) => (s, Rejected(why))
    case None =>
      var id := ImportedTcertId(env, wire);
      (s.(certs := WithCert(s.certs, id, wire)), Imported(id))
  }
}
