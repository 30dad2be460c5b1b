/** What a successful operation achieves, for good where that is so. */
module Effects {
  import opened Bytes
  import opened Ids
  import opened Operations
  import opened Permanence
  import opened ServiceState
  import opened StoreInvariants
  import Authority
  import St = Statements

  /** A withdrawn attestation is over for good, although its record stays. */
  lemma {:induction false} WithdrawalIsForGood(env: Env, s: State, r: Request, ops: seq<Op>, a: Attestation)
    requires RevokeAttestationStep(s, r).result.Ok? && a.target == r.subject && a.caTcertId == r.signer
    ensures AttestedBy(s.trust, r.subject, r.signer)
    ensures RevokeAttestationStep(s, r).state.trust == s.trust
    ensures !TrustPath(env, Run(env, RevokeAttestationStep(s, r).state, ops), a)
  {
    WithdrawnIsFinal(env, RevokeAttestationStep(s, r).state, ops, a);
  }

  /** A revoked TCert is recorded under its revoker, who was entitled to it, and is no trusted CA ever after. */
  lemma {:induction false} TcertRevocationTakesEffect(env: Env, s: State, r: Request, kind: St.RevocationType,
                                                      ops: seq<Op>)
    requires RevokeTcertStep(env, s, r, kind).result.Ok?
    ensures var after := RevokeTcertStep(env, s, r, kind).state;
      && SplitTcertId(r.subject).Ok?
      && (r.signer == SplitTcertId(r.subject).value.0 || Authority.AttestingCa(env, s, r.signer, r.subject))
      && (exists e ::
          e in RevocationsOf(after.rev, r.subject) && e.kind == kind && e.issuedAt == r.issuedAt
            && e.byKeyId == Some(r.signer))
      && TcertRevoked(Run(env, after, ops).rev, r.subject) && !TrustedCa(Run(env, after, ops), r.subject)
      && (r.signer != "" ==> r.signer in Revokers(Run(env, after, ops).rev, r.subject))
  {
    var step := RevokeTcertStep(env, s, r, kind);
    var e := RevocationEntry(kind, r.issuedAt, r.reason, Some(r.signer), None, Some(step.result.value));
    var list := RevocationsOf(s.rev, r.subject);
    Authority.EntitledMeaning(env, s, r.signer, SplitTcertId(r.subject).value.0, r.subject);
    UpsertedMembers(list, e, (x: RevocationEntry) => x.byKeyId == e.byKeyId);
    assert e in RevocationsOf(step.state.rev, r.subject);
    RunExtends(env, step.state, ops);
    if r.signer != "" {
      assert NamesRevoker(e);
      assert r.signer in Revokers(step.state.rev, r.subject);
    }
  }

  /**
   * Right after a retrospective revocation every document of the TCert is refused, after a prospective
   * one every later document than all entries.
   */
  lemma {:induction false} TcertRevocationRefuses(env: Env, s: State, r: Request, kind: St.RevocationType, keyId: KeyId,
                                                  at: int, sdocId: string)
    requires RevokeTcertStep(env, s, r, kind).result.Ok?
    requires kind.Retrospective? || forall e ::
      e in RevocationsOf(RevokeTcertStep(env, s, r, kind).state.rev, r.subject) ==> e.issuedAt <= at
    ensures RevocationCheck(RevokeTcertStep(env, s, r, kind).state.rev, r.subject, keyId, at, sdocId) == Invalid
  {
    TcertRevocationTakesEffect(env, s, r, kind, []);
    RevocationCheckMeaning(RevokeTcertStep(env, s, r, kind).state.rev, r.subject, keyId, at, sdocId);
  }

  /** Only the owner revokes a key, and then no document of the key is ever accepted again. */
  lemma {:induction false} KeyRevocationIsForGood(env: Env, s: State, r: Request, ops: seq<Op>, tcertId: TcertId,
                                                  at: int, sdocId: string)
    requires RevokeKeyStep(s, r).result.Ok?
    ensures r.signer == r.subject
    ensures RevocationCheck(Run(env, RevokeKeyStep(s, r).state, ops).rev, tcertId, r.subject, at, sdocId) == Invalid
  {
    RevokedKeyIsFinal(env, RevokeKeyStep(s, r).state, ops, tcertId, r.subject, at, sdocId);
  }

  /* ------------------------------- imported statements -------------------------- */

  /** What the stores hold after a statement was applied. */
  predicate Took(s: State, stmt: St.Statement, signer: TcertId)
  {
    match stmt.action
    case Attest => stmt.target.TcertTarget? && AttestedBy(s.trust, TargetTcertId(stmt.target), signer)
    case RevokeTcert =>
      (match stmt.target
       case TcertTarget(_, _, _) => TcertRevoked(s.rev, TargetTcertId(stmt.target))
       case KeyTarget(k) => k in s.rev.keys
       case SdocTarget(_) => false)
    case RevokeAttestation => stmt.target.TcertTarget?
      && PairKey(TargetTcertId(stmt.target), signer) in s.rev.attestations
    case BlockSdoc => stmt.target.SdocTarget? && stmt.target.sdocId in s.rev.blocked
    case UnblockSdoc => stmt.target.SdocTarget? && stmt.target.sdocId !in s.rev.blocked
    case AddTcert => false
  }

  lemma {:induction false} AddedIsAttested(t: TrustState, a: Attestation)
    ensures AttestedBy(WithAttestation(t, a), a.target, a.caTcertId)
  {
    var list := AttestationsOf(t, a.target);
    UpsertedMembers(list, a, (x: Attestation) => x.caTcertId == a.caTcertId);
    var after := AttestationsOf(WithAttestation(t, a), a.target);
    assert a in after;
    var i :| 0 <= i < |after| && after[i] == a;
  }

  /** An applied statement has the effect it names, attributed to the TCert that verified it. */
  lemma {:induction false} AppliedStatementsTakeEffect(env: Env, s: State, wire: bytes, stmt: St.Statement,
                                                       signer: TcertId)
    requires env.statement(wire) == Some(stmt) && SignerOf(env, s, stmt) == Some(signer)
    requires ImportStatement(env, s, wire).1.Applied?
    ensures Took(ImportStatement(env, s, wire).0, stmt, signer) && ImportStatement(env, s, wire).1.action == stmt.action
  {
    if stmt.action == St.Attest {
      AddedIsAttested(s.trust, ImportedAttestation(stmt, signer, ImportedHash(env, s, stmt.target).value, wire));
    } else if stmt.action == St.RevokeTcert && stmt.target.TcertTarget? {
      var kind := if stmt.revocationType.Some? then stmt.revocationType.value else St.Retrospective;
      var e := ImportedRevocation(stmt, kind, signer, wire);
      UpsertedMembers(RevocationsOf(s.rev, TargetTcertId(stmt.target)), e,
                      (x: RevocationEntry) => x.byKeyId == e.byKeyId);
    }
  }
}
