/** Statements on their way: what a service signs on one device takes effect on another that imports it. */
module Delivery {
  import opened Bytes
  import opened Cbor
  import opened CborHeads
  import opened Ids
  import opened JsDecoder
  import opened Operations
  import opened Permanence
  import opened ServiceState
  import opened StoreInvariants
  import Cose
  import SO = SignedObjects
  import St = Statements

  /** A signer: its algorithm, key id and signature, and the random id of the statement it makes next. */
  datatype Author = Author(algorithm: SO.Algorithm, kid: bytes, sign: bytes -> bytes, statementId: bytes)

  function Built(w: Author, d: Draft): Result<Cose.Signed>
  {
    St.BuildStatement(w.statementId, d.action, d.target, d.issuedAt, d.options, w.algorithm, ToHex(w.kid), w.sign)
  }

  /** Building a statement with the author's key. */
  function Made(w: Author): Draft -> Result<bytes>
  {
    (d: Draft) => match Built(w, d) case Ok(s) => Ok(s.wire) case Err(e) => Err(e)
  }

  function Data(w: Author, d: Draft): seq<Entry>
    requires St.EncodeTarget(d.target).Ok?
  {
    St.StatementData(w.statementId, d.action, St.EncodeTarget(d.target).value, d.issuedAt, d.options)
  }

  /** A draft in the form the library makes it. */
  ghost predicate WellFormed(w: Author, d: Draft)
  {
    && |w.statementId| <= MAX_ARG && SafeArg(|w.kid|)
    && St.WellFormedTarget(d.target) && Cose.IsJsNumber(Int(d.issuedAt)) && St.WellFormedOptions(d.options)
  }

  /** The statement's lengths are safe, and so are the texts and keys of its data; its integers are free. */
  predicate Deliverable(w: Author, d: Draft)
  {
    && Built(w, d).Ok? && St.EncodeTarget(d.target).Ok? && Encodable(Map(Data(w, d)))
    && SO.Carried(Built(w, d).value.cose, Data(w, d)) && JsShaped(Map(Data(w, d)))
  }

  /** The device reads statements with the protocol's own parser. */
  ghost predicate ReadsStatements(env: Env)
  {
    forall w :: env.statement(w) == match St.ParseStatement(w) case Ok(x) => Some(x) case Err(_) => None
  }

  /** The statement as it arrives. */
  function Arriving(w: Author, d: Draft): St.Statement
    requires Deliverable(w, d)
  {
    St.Delivered(w.statementId, d.action, d.target, d.issuedAt, d.options,
                 SO.AsDelivered(SO.Statement, Data(w, d), w.algorithm, w.kid, Built(w, d).value.cose))
  }

  /** A deliverable statement arrives as it was drafted, with its integers lowered, from the key that signed it. */
  lemma {:induction false} StatementArrives(env: Env, w: Author, d: Draft)
    requires ReadsStatements(env) && WellFormed(w, d) && Deliverable(w, d)
    ensures env.statement(Built(w, d).value.wire) == Some(Arriving(w, d))
  {
    St.StatementRoundTrip(w.statementId, d.action, d.target, d.issuedAt, d.options, w.algorithm, w.kid, w.sign);
  }

  /** The importing device attributes the statement to this TCert. */
  predicate Attributed(env: Env, s: State, w: Author, d: Draft, signer: TcertId)
  {
    Deliverable(w, d) && SignerOf(env, s, Arriving(w, d)) == Some(signer)
  }

  /** The statement says what the draft says, as far as the decoder lets its integers through. */
  ghost predicate Says(stmt: St.Statement, d: Draft, w: Author)
  {
    && stmt.action == d.action && stmt.target == St.LoweredTarget(d.target) && stmt.issuedAt == Lowered(d.issuedAt)
    && stmt.reason == d.options.reason && stmt.revocationType == d.options.revocationType
    && stmt.claims == Cose.ImageOption(St.Dictionary(d.options.claims)) && stmt.signerKeyId == ToHex(w.kid)
  }

  /** Importing the bytes that were made of a draft applies a statement that says the same. */
  lemma {:induction false} StatementIsApplied(env: Env, s: State, w: Author, d: Draft, signer: TcertId, wire: bytes)
    returns (stmt: St.Statement)
    requires ReadsStatements(env) && WellFormed(w, d) && Attributed(env, s, w, d, signer)
    requires Made(w)(d) == Ok(wire)
    ensures Says(stmt, d, w) && ImportStatement(env, s, wire) == ApplyStatement(env, s, stmt, signer, wire)
  {
    StatementArrives(env, w, d);
    stmt := Arriving(w, d);
  }

  /* ----------------------------------- revocation ------------------------------- */

  /**
   * An entry is recorded that says what was requested, at the time the statement is read with, and names
   * the key and the TCert that signed it.
   */
  ghost predicate Recorded(r: RevocationState, id: TcertId, kind: St.RevocationType, q: Request, w: Author,
                           signer: TcertId)
  {
    exists e :: e in RevocationsOf(r, id) && e.kind == kind && e.issuedAt == Lowered(q.issuedAt) && e.reason == q.reason
                && e.byKeyId == Some(ToHex(w.kid)) && e.byTcertId == Some(signer)
  }

  /**
   * A TCert revoked on one device is revoked on every device that imports the statement and holds a TCert
   * of the revoker's key: with the same kind and reason, at the date it is read with, and, when it is
   * retrospective, for all documents.
   */
  lemma {:induction false} RevocationArrives(here: Env, s: State, there: Env, s': State, q: Request,
                                             kind: St.RevocationType, key: KeyId, n: int, w: Author, signer: TcertId,
                                             at: int, sdocId: string)
    requires key != "" && ':' !in key && 1 <= n <= 255 && q.subject == TcertIdOf(key, n)
    requires q.signing.Key? && q.signing.make == Made(w) && RevokeTcertStep(here, s, q, kind).result.Ok?
    requires var d := RevocationDraft(q, St.RevokeTcert, (key, n), kind);
      ReadsStatements(there) && WellFormed(w, d) && Attributed(there, s', w, d, signer)
    ensures var (after, out) := ImportStatement(there, s', RevokeTcertStep(here, s, q, kind).result.value);
      && out == Applied(St.RevokeTcert, q.subject)
      && Recorded(after.rev, q.subject, kind, q, w, signer)
      && TcertRevoked(after.rev, q.subject) && !TrustedCa(after, q.subject)
      && (kind.Retrospective? ==> RevocationCheck(after.rev, q.subject, key, at, sdocId) == Invalid)
  {
    var d := RevocationDraft(q, St.RevokeTcert, (key, n), kind);
    SplitInvertsJoin(key, n);
    var wire := RevocationMade(here, s, q, kind, (key, n));
    var stmt := StatementIsApplied(there, s', w, d, signer, wire);
    RevocationTakesEffect(there, s', stmt, signer, wire, q, key, n, kind, w, at, sdocId);
  }

  lemma {:induction false} RevocationTakesEffect(env: Env, s: State, stmt: St.Statement, signer: TcertId, wire: bytes,
                                                 q: Request, key: KeyId, n: int, kind: St.RevocationType, w: Author,
                                                 at: int, sdocId: string)
    requires Says(stmt, RevocationDraft(q, St.RevokeTcert, (key, n), kind), w)
    requires 1 <= n <= 255 && q.subject == TcertIdOf(key, n)
    ensures var (after, out) := ApplyStatement(env, s, stmt, signer, wire);
      && out == Applied(St.RevokeTcert, q.subject)
      && Recorded(after.rev, q.subject, kind, q, w, signer)
      && TcertRevoked(after.rev, q.subject) && !TrustedCa(after, q.subject)
      && (kind.Retrospective? ==> RevocationCheck(after.rev, q.subject, key, at, sdocId) == Invalid)
  {
    RevocationApplied(env, s, stmt, signer, wire, key, n, kind);
    var e := ImportedRevocation(stmt, kind, signer, wire);
    RevocationRecorded(s.rev, q.subject, e);
    RevocationCheckMeaning(WithRevokedTcert(s.rev, q.subject, e), q.subject, key, at, sdocId);
  }

  /** The bytes that a revocation returns are made of its draft. */
  lemma {:induction false} RevocationMade(env: Env, s: State, q: Request, kind: St.RevocationType, target: (KeyId, int))
    returns (wire: bytes)
    requires SplitTcertId(q.subject) == Ok(target) && RevokeTcertStep(env, s, q, kind).result.Ok?
    ensures RevokeTcertStep(env, s, q, kind).result == Ok(wire)
    ensures Statement(q.signing, RevocationDraft(q, St.RevokeTcert, target, kind)) == Ok(wire)
  {
    wire := RevokeTcertStep(env, s, q, kind).result.value;
  }

  lemma {:induction false} RevocationApplied(env: Env, s: State, stmt: St.Statement, signer: TcertId, wire: bytes,
                                             key: KeyId, n: int, kind: St.RevocationType)
    requires stmt.action == St.RevokeTcert && stmt.target == St.TcertTarget(key, n, None)
    requires stmt.revocationType == Some(kind)
    ensures var e := ImportedRevocation(stmt, kind, signer, wire);
      ApplyStatement(env, s, stmt, signer, wire)
      == (WithRevocations(s, WithRevokedTcert(s.rev, TcertIdOf(key, n), e)), Applied(St.RevokeTcert, TcertIdOf(key, n)))
  {
  }

  lemma {:induction false} RevocationRecorded(r: RevocationState, id: TcertId, e: RevocationEntry)
    ensures e in RevocationsOf(WithRevokedTcert(r, id, e), id)
  {
    UpsertedMembers(RevocationsOf(r, id), e, (x: RevocationEntry) => x.byKeyId == e.byKeyId);
  }

  /**
   * The date of an imported revocation that is the first about its TCert decides exactly which documents it
   * refuses, and it is the date as it is read.
   */
  lemma {:induction false} FirstRevocationDecides(here: Env, s: State, there: Env, s': State, q: Request,
                                                  kind: St.RevocationType, key: KeyId, n: int, w: Author,
                                                  signer: TcertId, at: int, sdocId: string)
    requires key != "" && ':' !in key && 1 <= n <= 255 && q.subject == TcertIdOf(key, n)
    requires q.signing.Key? && q.signing.make == Made(w) && RevokeTcertStep(here, s, q, kind).result.Ok?
    requires var d := RevocationDraft(q, St.RevokeTcert, (key, n), kind);
      ReadsStatements(there) && WellFormed(w, d) && Attributed(there, s', w, d, signer)
    requires RevocationsOf(s'.rev, q.subject) == []
    ensures var after := ImportStatement(there, s', RevokeTcertStep(here, s, q, kind).result.value).0;
      RevocationCheck(after.rev, q.subject, key, at, sdocId) == Invalid
      <==> key in s'.rev.keys || kind.Retrospective? || Lowered(q.issuedAt) <= at
  {
    var d := RevocationDraft(q, St.RevokeTcert, (key, n), kind);
    SplitInvertsJoin(key, n);
    var wire := RevocationMade(here, s, q, kind, (key, n));
    var stmt := StatementIsApplied(there, s', w, d, signer, wire);
    RevocationApplied(there, s', stmt, signer, wire, key, n, kind);
    OnlyRevocation(s'.rev, q.subject, ImportedRevocation(stmt, kind, signer, wire), key, at, sdocId);
  }

  lemma {:induction false} OnlyRevocation(r: RevocationState, id: TcertId, e: RevocationEntry, key: KeyId, at: int,
                                          sdocId: string)
    requires RevocationsOf(r, id) == []
    ensures RevocationCheck(WithRevokedTcert(r, id, e), id, key, at, sdocId) == Invalid
      <==> key in r.keys || e.kind.Retrospective? || e.issuedAt <= at
  {
    var r' := WithRevokedTcert(r, id, e);
    RevocationCheckMeaning(r', id, key, at, sdocId);
    assert RevocationsOf(r', id) == [e] && r'.keys == r.keys;
    assert e in RevocationsOf(r', id);
  }

  /**
   * The signed reading breaks prospective revocation: one that is dated 2038 to 2106 arrives with a
   * negative date, so that it refuses every document read with a time from 1970 on.
   */
  lemma {:induction false} LateRevocationsRefuseAll(here: Env, s: State, there: Env, s': State, q: Request, key: KeyId,
                                                    n: int, w: Author, signer: TcertId, at: int, sdocId: string)
    requires key != "" && ':' !in key && 1 <= n <= 255 && q.subject == TcertIdOf(key, n)
    requires q.signing.Key? && q.signing.make == Made(w)
    requires RevokeTcertStep(here, s, q, St.Prospective).result.Ok?
    requires var d := RevocationDraft(q, St.RevokeTcert, (key, n), St.Prospective);
      ReadsStatements(there) && WellFormed(w, d) && Attributed(there, s', w, d, signer)
    requires RevocationsOf(s'.rev, q.subject) == []
    requires SIGN_BIT <= q.issuedAt <= 0xFFFF_FFFF && 0 <= at
    ensures var after := ImportStatement(there, s', RevokeTcertStep(here, s, q, St.Prospective).result.value).0;
      RevocationCheck(after.rev, q.subject, key, at, sdocId) == Invalid
  {
    FirstRevocationDecides(here, s, there, s', q, St.Prospective, key, n, w, signer, at, sdocId);
    LoweredMeaning(q.issuedAt);
  }

  /** A key revoked by its owner is revoked wherever the statement is imported, for good. */
  lemma {:induction false} KeyRevocationArrives(s: State, there: Env, s': State, q: Request, w: Author, signer: TcertId,
                                                ops: seq<Op>, tcertId: TcertId, at: int, sdocId: string)
    requires q.signing.Key? && q.signing.make == Made(w) && RevokeKeyStep(s, q).result.Ok?
    requires ReadsStatements(there) && WellFormed(w, KeyDraft(q)) && Attributed(there, s', w, KeyDraft(q), signer)
    ensures var (after, out) := ImportStatement(there, s', RevokeKeyStep(s, q).result.value);
      && out == Applied(St.RevokeTcert, q.subject)
      && RevocationCheck(Run(there, after, ops).rev, tcertId, q.subject, at, sdocId) == Invalid
  {
    var wire := RevokeKeyStep(s, q).result.value;
    var stmt := StatementIsApplied(there, s', w, KeyDraft(q), signer, wire);
    var after := ImportStatement(there, s', wire).0;
    assert q.subject in after.rev.keys;
    RevokedKeyIsFinal(there, after, ops, tcertId, q.subject, at, sdocId);
  }

  /** Blocking and unblocking on one device does the same to the document on the importing one, and to no other. */
  lemma {:induction false} BlockArrives(here: Env, s: State, there: Env, s': State, q: Request, blocks: bool, w: Author,
                                        signer: TcertId, other: string)
    requires q.signing.Key? && q.signing.make == Made(w) && BlockStep(here, s, q, blocks).result.Ok?
    requires var d := BlockDraft(q, blocks);
      ReadsStatements(there) && WellFormed(w, d) && Attributed(there, s', w, d, signer)
    ensures var (after, out) := ImportStatement(there, s', BlockStep(here, s, q, blocks).result.value);
      && out == Applied(if blocks then St.BlockSdoc else St.UnblockSdoc, q.subject)
      && (q.subject in after.rev.blocked <==> blocks)
      && (q.subject in BlockStep(here, s, q, blocks).state.rev.blocked <==> blocks)
      && (other != q.subject ==> (other in after.rev.blocked <==> other in s'.rev.blocked))
  {
    var wire := BlockMade(here, s, q, blocks);
    var stmt := StatementIsApplied(there, s', w, BlockDraft(q, blocks), signer, wire);
    BlockTakesEffect(there, s', stmt, signer, wire, q, blocks, w, other);
  }

  lemma {:induction false} BlockTakesEffect(env: Env, s: State, stmt: St.Statement, signer: TcertId, wire: bytes,
                                            q: Request, blocks: bool, w: Author, other: string)
    requires Says(stmt, BlockDraft(q, blocks), w)
    ensures var (after, out) := ApplyStatement(env, s, stmt, signer, wire);
      && out == Applied(if blocks then St.BlockSdoc else St.UnblockSdoc, q.subject)
      && (q.subject in after.rev.blocked <==> blocks)
      && (other != q.subject ==> (other in after.rev.blocked <==> other in s.rev.blocked))
  {
    BlockApplied(env, s, stmt, signer, wire, q.subject, blocks);
  }

  lemma {:induction false} BlockMade(env: Env, s: State, q: Request, blocks: bool) returns (wire: bytes)
    requires BlockStep(env, s, q, blocks).result.Ok?
    ensures BlockStep(env, s, q, blocks).result == Ok(wire) && Statement(q.signing, BlockDraft(q, blocks)) == Ok(wire)
    ensures q.subject in BlockStep(env, s, q, blocks).state.rev.blocked <==> blocks
  {
    wire := BlockStep(env, s, q, blocks).result.value;
  }

  lemma {:induction false} BlockApplied(env: Env, s: State, stmt: St.Statement, signer: TcertId, wire: bytes,
                                        sdocId: string, blocks: bool)
    requires stmt.action == (if blocks then St.BlockSdoc else St.UnblockSdoc) && stmt.target == St.SdocTarget(sdocId)
    ensures var e := ImportedBlock(stmt, signer, wire);
      ApplyStatement(env, s, stmt, signer, wire)
      == (WithRevocations(s, if blocks then WithBlocked(s.rev, sdocId, e) else WithUnblocked(s.rev, sdocId, e)),
          Applied(stmt.action, sdocId))
  {
  }

  /* ---------------------------------- attestation ------------------------------- */

  /**
   * An attestation made on one device gives the same record on an importing device that holds the target
   * with the same content hash: target, hash, statement and key of the CA, and the date and claims as they
   * are read. A device that holds another TCert under the id refuses it.
   */
  lemma {:induction false} AttestationArrives(here: Env, s: State, there: Env, s': State, p: Attesting, key: KeyId,
                                              n: int, w: Author, signer: TcertId, a: Attestation)
    requires key != "" && ':' !in key && 1 <= n <= 255 && p.target == TcertIdOf(key, n)
    requires p.signing.Key? && p.signing.make == Made(w) && NewAttestation(here, s, p) == Ok(a)
    requires a.caKeyId == ToHex(w.kid)
    requires var d := AttestDraft(p, (key, n), a.tcertHash);
      ReadsStatements(there) && WellFormed(w, d) && Attributed(there, s', w, d, signer)
    ensures var held := ParsedCert(there, s', p.target);
      var (after, out) := ImportStatement(there, s', a.statement);
      && (held.Ok? && there.tcertHash(held.value) == a.tcertHash ==>
            && out == Applied(St.Attest, p.target)
            && after == WithTrust(s', WithAttestation(s'.trust, Imported(a, signer))))
      && (held.Ok? && there.tcertHash(held.value) != a.tcertHash ==> out == Rejected(HashMismatch) && after == s')
  {
    SplitInvertsJoin(key, n);
    AttestationMade(here, s, p, (key, n), a);
    var d := AttestDraft(p, (key, n), a.tcertHash);
    var stmt := StatementIsApplied(there, s', w, d, signer, a.statement);
    AttestationTakesEffect(there, s', stmt, signer, p, key, n, w, a);
  }

  /** The record of an attestation on another device: under the TCert it is attributed to there. */
  function Imported(a: Attestation, signer: TcertId): Attestation
  {
    a.(caTcertId := signer, claims := Cose.ImageOption(a.claims), issuedAt := Lowered(a.issuedAt))
  }

  lemma {:induction false} AttestationTakesEffect(env: Env, s: State, stmt: St.Statement, signer: TcertId, p: Attesting,
                                                  key: KeyId, n: int, w: Author, a: Attestation)
    requires Says(stmt, AttestDraft(p, (key, n), a.tcertHash), w) && 1 <= n <= 255 && p.target == TcertIdOf(key, n)
    requires a.target == p.target && a.caKeyId == ToHex(w.kid) && a.issuedAt == p.issuedAt
    requires a.claims == St.Dictionary(p.claims)
    ensures var held := ParsedCert(env, s, p.target);
      var (after, out) := ApplyStatement(env, s, stmt, signer, a.statement);
      && (held.Ok? && env.tcertHash(held.value) == a.tcertHash ==>
            && out == Applied(St.Attest, p.target)
            && after == WithTrust(s, WithAttestation(s.trust, Imported(a, signer))))
      && (held.Ok? && env.tcertHash(held.value) != a.tcertHash ==> out == Rejected(HashMismatch) && after == s)
  {
    AttestationApplied(env, s, stmt, signer, a.statement, key, n, a.tcertHash);
    assert ImportedAttestation(stmt, signer, a.tcertHash, a.statement) == Imported(a, signer);
  }

  lemma {:induction false} AttestationMade(env: Env, s: State, p: Attesting, parts: (KeyId, int), a: Attestation)
    requires SplitTcertId(p.target) == Ok(parts) && NewAttestation(env, s, p) == Ok(a)
    ensures Statement(p.signing, AttestDraft(p, parts, a.tcertHash)) == Ok(a.statement)
    ensures a.target == p.target && a.caTcertId == p.ca && a.claims == St.Dictionary(p.claims)
    ensures a.issuedAt == p.issuedAt
  {
  }

  lemma {:induction false} AttestationApplied(env: Env, s: State, stmt: St.Statement, signer: TcertId, wire: bytes,
                                              key: KeyId, n: int, hash: string)
    requires stmt.action == St.Attest && stmt.target == St.TcertTarget(key, n, Some(hash))
    ensures var held := ParsedCert(env, s, TcertIdOf(key, n));
      var (after, out) := ApplyStatement(env, s, stmt, signer, wire);
      && (held.Ok? && env.tcertHash(held.value) == hash ==>
            && out == Applied(St.Attest, TcertIdOf(key, n))
            && after == WithTrust(s, WithAttestation(s.trust, ImportedAttestation(stmt, signer, hash, wire))))
      && (held.Ok? && env.tcertHash(held.value) != hash ==> out == Rejected(HashMismatch) && after == s)
  {
  }
}
