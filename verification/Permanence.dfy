/** Revocation is permanent over every run of operations; what can still change is stated exactly. */
module Permanence {
  import opened Bytes
  import opened Ids
  import opened MemoryStores
  import opened Operations
  import opened ServiceState
  import opened StoreInvariants
  import St = Statements

  /** The keys that have revoked a TCert. */
  function Revokers(r: RevocationState, id: TcertId): set<KeyId>
  {
    set e | e in RevocationsOf(r, id) && NamesRevoker(e) :: e.byKeyId.value
  }

  /** Nothing that was revoked is forgotten. */
  ghost predicate Extends(r: RevocationState, r': RevocationState)
  {
    && r.keys.Keys <= r'.keys.Keys
    && r.attestations.Keys <= r'.attestations.Keys
    && (forall id :: TcertRevoked(r, id) ==> TcertRevoked(r', id))
    && (forall id :: Revokers(r, id) <= Revokers(r', id))
  }

  lemma {:induction false} RevokedTcertExtends(r: RevocationState, id: TcertId, e: RevocationEntry)
    ensures Extends(r, WithRevokedTcert(r, id, e))
  {
    var list, r' := RevocationsOf(r, id), WithRevokedTcert(r, id, e);
    var same := (x: RevocationEntry) => x.byKeyId == e.byKeyId;
    if NamesRevoker(e) {
      UpsertedMembers(list, e, same);
      assert RevocationsOf(r', id) == Upserted(list, e, same);
    } else {
      assert RevocationsOf(r', id) == list + [e];
    }
    forall k ensures Revokers(r, k) <= Revokers(r', k) && (TcertRevoked(r, k) ==> TcertRevoked(r', k)) {
      if k == id {
        RevokersKept(list, RevocationsOf(r', id), e);
      } else {
        assert RevocationsOf(r', k) == RevocationsOf(r, k);
      }
    }
  }

  lemma {:induction false} RevokersKept(list: seq<RevocationEntry>, list': seq<RevocationEntry>, e: RevocationEntry)
    requires e in list' && forall y :: y in list && !(NamesRevoker(e) && y.byKeyId == e.byKeyId) ==> y in list'
    ensures forall y :: y in list && NamesRevoker(y) ==> exists z ::
      z in list' && NamesRevoker(z) && z.byKeyId == y.byKeyId
  {
    forall y | y in list && NamesRevoker(y) ensures exists z ::
      z in list' && NamesRevoker(z) && z.byKeyId == y.byKeyId {
      if NamesRevoker(e) && y.byKeyId == e.byKeyId {
        assert e in list' && NamesRevoker(e);
      } else {
        assert y in list';
      }
    }
  }

  lemma {:induction false} ImportExtends(env: Env, s: State, wire: bytes)
    ensures Extends(s.rev, ImportStatement(env, s, wire).0.rev)
  {
    var stmt := env.statement(wire);
    if stmt.Some? && SignerOf(env, s, stmt.value).Some? {
      var st, signer := stmt.value, SignerOf(env, s, stmt.value).value;
      if st.action == St.RevokeTcert && st.target.TcertTarget? {
        var kind := if st.revocationType.Some? then st.revocationType.value else St.Retrospective;
        RevokedTcertExtends(s.rev, TargetTcertId(st.target), ImportedRevocation(st, kind, signer, wire));
      } else {
        SameTcertsExtend(s.rev, ImportStatement(env, s, wire).0.rev);
      }
    }
  }

  lemma {:induction false} SameTcertsExtend(r: RevocationState, r': RevocationState)
    requires r.tcerts == r'.tcerts && r.keys.Keys <= r'.keys.Keys && r.attestations.Keys <= r'.attestations.Keys
    ensures Extends(r, r')
  {
    assert forall id :: RevocationsOf(r', id) == RevocationsOf(r, id);
  }

  lemma {:induction false} RevokeExtends(env: Env, s: State, r: Request, kind: St.RevocationType)
    ensures Extends(s.rev, RevokeTcertStep(env, s, r, kind).state.rev)
  {
    var step := RevokeTcertStep(env, s, r, kind);
    if step.result.Ok? {
      RevokedTcertExtends(s.rev, r.subject,
                          RevocationEntry(kind, r.issuedAt, r.reason, Some(r.signer), None, Some(step.result.value)));
    }
  }

  lemma {:induction false} ApplyExtends(env: Env, s: State, op: Op)
    ensures Extends(s.rev, Apply(env, s, op).rev)
  {
    match op
    case RevokeTcert(r, kind) => RevokeExtends(env, s, r, kind);
    case ImportStatementBytes(wire) => ImportExtends(env, s, wire);
    case RevokeAttestation(r) => SameTcertsExtend(s.rev, RevokeAttestationStep(s, r).state.rev);
    case RevokeKey(r) => SameTcertsExtend(s.rev, RevokeKeyStep(s, r).state.rev);
    case BlockSdoc(r) => BlockExtends(env, s, r, true);
    case UnblockSdoc(r) => BlockExtends(env, s, r, false);
    case _ =>
      OthersKeepRevocations(env, s, op);
      SameTcertsExtend(s.rev, s.rev);
  }

  lemma {:induction false} BlockExtends(env: Env, s: State, r: Request, blocks: bool)
    ensures Extends(s.rev, BlockStep(env, s, r, blocks).state.rev)
  {
    SameTcertsExtend(s.rev, BlockStep(env, s, r, blocks).state.rev);
  }

  /** Trust decisions, attestations and saved objects do not touch the revocations. */
  lemma {:induction false} OthersKeepRevocations(env: Env, s: State, op: Op)
    requires op.Pin? || op.Unpin? || op.AddCa? || op.RemoveCa? || op.Distrust? || op.TrustAgain? || op.Attest?
      || op.AddTcert?
          || op.ImportTcertBytes? || op.SaveTcert? || op.SaveSdoc?
    ensures Apply(env, s, op).rev == s.rev
  {
  }

  /** A run forgets no revoked key, no revoked attestation, no revoked TCert and none of its revokers. */
  lemma {:induction false} RunExtends(env: Env, s: State, ops: seq<Op>)
    ensures Extends(s.rev, Run(env, s, ops).rev)
    decreases |ops|
  {
    if ops == [] {
    } else {
      ApplyExtends(env, s, ops[0]);
      RunExtends(env, Apply(env, s, ops[0]), ops[1..]);
    }
  }

  /**
   * The lifecycle check, in terms of what is recorded: a document is refused exactly when its key is
   * revoked, or its TCert has a retrospective entry, or has entries and none of them is later than the
   * document, or has no entry and the document is blocked. An entry for later documents hides a block.
   */
  lemma {:induction false} RevocationCheckMeaning(r: RevocationState, tcertId: TcertId, keyId: KeyId, issuedAt: int,
                                                  sdocId: string)
    ensures var list := RevocationsOf(r, tcertId);
      RevocationCheck(r, tcertId, keyId, issuedAt, sdocId)
      == if || keyId in r.keys
            || (exists e :: e in list && e.kind.Retrospective?)
            || (list != [] && forall e :: e in list ==> e.issuedAt <= issuedAt)
            || (list == [] && sdocId in r.blocked)
         then Invalid else Valid
  {
    EffectiveRevocationIsWorst(r, tcertId);
    var list := RevocationsOf(r, tcertId);
    if keyId !in r.keys && list != [] {
      var worst := EffectiveRevocation(r, tcertId).value;
      assert worst in list;
      if worst.kind.Prospective? {
        assert forall e :: e in list ==> e.kind == worst.kind;
      }
    }
  }

  /** Documents of a revoked key fail the lifecycle check after every run. */
  lemma {:induction false} RevokedKeyIsFinal(env: Env, s: State, ops: seq<Op>, tcertId: TcertId, keyId: KeyId,
                                             issuedAt: int, sdocId: string)
    requires keyId in s.rev.keys
    ensures RevocationCheck(Run(env, s, ops).rev, tcertId, keyId, issuedAt, sdocId) == Invalid
  {
    RunExtends(env, s, ops);
  }

  /** An attestation that is withdrawn, or whose CA's TCert or key is revoked. */
  predicate Withdrawn(r: RevocationState, a: Attestation)
  {
    PairKey(a.target, a.caTcertId) in r.attestations || TcertRevoked(r, a.caTcertId) || a.caKeyId in r.keys
  }

  /** Such an attestation never supports trust again, and its CA's TCert is never a trusted CA again. */
  lemma {:induction false} WithdrawnIsFinal(env: Env, s: State, ops: seq<Op>, a: Attestation)
    requires Withdrawn(s.rev, a)
    ensures !TrustPath(env, Run(env, s, ops), a)
    ensures TcertRevoked(s.rev, a.caTcertId) ==> !TrustedCa(Run(env, s, ops), a.caTcertId)
  {
    RunExtends(env, s, ops);
  }

  /** When every attestation of a target is withdrawn, later trust can only come from new attestations or pinning. */
  lemma {:induction false} OnlyNewAttestationsRestoreTrust(env: Env, s: State, ops: seq<Op>, id: TcertId)
    requires forall a :: a in AttestationsOf(s.trust, id) ==> Withdrawn(s.rev, a)
    requires TrustOf(env, Run(env, s, ops), id) == Valid
    ensures var end := Run(env, s, ops);
      id in end.trust.pinned || exists a ::
        a in AttestationsOf(end.trust, id) && a !in AttestationsOf(s.trust, id) && TrustPath(env, end, a)
  {
    var end := Run(env, s, ops);
    if id !in end.trust.pinned {
      var i :| 0 <= i < |AttestationsOf(end.trust, id)| && TrustPath(env, end, AttestationsOf(end.trust, id)[i]);
      var a := AttestationsOf(end.trust, id)[i];
      if a in AttestationsOf(s.trust, id) {
        WithdrawnIsFinal(env, s, ops, a);
        assert false;
      }
    }
  }

  /* -------------------------- what is not permanent ----------------------------- */

  /** Some recorded entry is retrospective. */
  predicate Retrospectively(r: RevocationState, id: TcertId)
  {
    exists i :: 0 <= i < |RevocationsOf(r, id)| && RevocationsOf(r, id)[i].kind.Retrospective?
  }

  lemma {:induction false} UpsertedOthers<T>(xs: seq<T>, x: T, same: T -> bool, y: T)
    requires Apart(xs, (a: T, b: T) => !(same(a) && same(b)))
    ensures y in Upserted(xs, x, same) <==> y == x || (y in xs && !same(y))
  {
    if xs == [] {
    } else {
      assert xs == [xs[0]] + xs[1..];
      var apart := (a: T, b: T) => !(same(a) && same(b));
      assert Apart(xs[1..], apart) by {
        forall i, j | 0 <= i < j < |xs[1..]| ensures apart(xs[1..][i],
                                                           xs[1..][j]) { assert apart(xs[i + 1], xs[j + 1]); }
      }
      if same(xs[0]) {
        if y in xs[1..] { HeadApart(xs, y, apart); }
      } else {
        UpsertedOthers(xs[1..], x, same, y);
      }
    }
  }

  /**
   * A revoker's newer statement replaces its older one whatever its kind and date: after it, a TCert
   * counts as retrospectively revoked if and only if the new entry says so or another revoker did.
   */
  lemma {:induction false} RetrospectiveSurvives(r: RevocationState, id: TcertId, e: RevocationEntry)
    requires OneRevocationPerRevoker(r)
    ensures Retrospectively(WithRevokedTcert(r, id, e), id)
      <==> e.kind.Retrospective?
           || exists x ::
             x in RevocationsOf(r, id) && x.kind.Retrospective? && !(NamesRevoker(e) && x.byKeyId == e.byKeyId)
  {
    var list, r' := RevocationsOf(r, id), WithRevokedTcert(r, id, e);
    var list' := RevocationsOf(r', id);
    var same := (x: RevocationEntry) => x.byKeyId == e.byKeyId;
    if NamesRevoker(e) {
      var apart := (a: RevocationEntry, b: RevocationEntry) => !(same(a) && same(b));
      forall i, j | 0 <= i < j < |list| ensures apart(list[i], list[j]) {
        assert OtherRevoker(list[i], list[j]);
      }
      forall y ensures y in list' <==> y == e || (y in list && !same(y)) {
        UpsertedOthers(list, e, same, y);
      }
    } else {
      assert list' == list + [e];
    }
    RetrospectiveMember(r, id);
    RetrospectiveMember(r', id);
  }

  lemma {:induction false} RetrospectiveMember(r: RevocationState, id: TcertId)
    ensures Retrospectively(r, id) <==> exists x :: x in RevocationsOf(r, id) && x.kind.Retrospective?
  {
    if Retrospectively(r, id) {
      var i :| 0 <= i < |RevocationsOf(r, id)| && RevocationsOf(r, id)[i].kind.Retrospective?;
      assert RevocationsOf(r, id)[i] in RevocationsOf(r, id);
    }
  }

  /** The owner's revocation of a TCert, signed with the key that is held. */
  function OwnerRevokes(key: KeyId, n: int, issuedAt: int, make: Draft -> Result<bytes>): Request
  {
    Request(key, TcertIdOf(key, n), None, issuedAt, Key(make))
  }

  /** A successful revocation by the owner is the only one of a TCert that had none by others. */
  lemma {:induction false} OwnerRevocationStep(env: Env, s: State, key: KeyId, n: int, issuedAt: int,
                                               kind: St.RevocationType, make: Draft -> Result<bytes>)
    returns (e: RevocationEntry)
    requires key != "" && ':' !in key && 1 <= n <= 255
    requires make(RevocationDraft(OwnerRevokes(key, n, issuedAt, make), St.RevokeTcert, (key, n), kind)).Ok?
    requires forall x :: x in RevocationsOf(s.rev, TcertIdOf(key, n)) ==> x.byKeyId == Some(key)
    requires |RevocationsOf(s.rev, TcertIdOf(key, n))| <= 1
    ensures var after := Apply(env, s, RevokeTcert(OwnerRevokes(key, n, issuedAt, make), kind));
      && RevocationsOf(after.rev, TcertIdOf(key, n)) == [e] && e.kind == kind && e.issuedAt == issuedAt
      && e.byKeyId == Some(key) && after.rev.keys == s.rev.keys
  {
    SplitInvertsJoin(key, n);
    var r := OwnerRevokes(key, n, issuedAt, make);
    var wire := make(RevocationDraft(r, St.RevokeTcert, (key, n), kind)).value;
    e := RevocationEntry(kind, issuedAt, None, Some(key), None, Some(wire));
    OwnerMayRevoke(env, s, r, (key, n), kind, wire);
    OnlyEntryReplaced(s.rev, r.subject, e);
  }

  lemma {:induction false} OwnerMayRevoke(env: Env, s: State, r: Request, target: (KeyId, int), kind: St.RevocationType,
                                          wire: bytes)
    requires SplitTcertId(r.subject) == Ok(target) && r.signer == target.0
    requires Statement(r.signing, RevocationDraft(r, St.RevokeTcert, target, kind)) == Ok(wire)
    ensures RevokeTcertStep(env, s, r, kind).state
         == WithRevocations(s,
                            WithRevokedTcert(s.rev, r.subject,
                                             RevocationEntry(kind, r.issuedAt, r.reason, Some(r.signer), None,
                                                             Some(wire))))
  {
  }

  lemma {:induction false} OnlyEntryReplaced(r: RevocationState, id: TcertId, e: RevocationEntry)
    requires NamesRevoker(e) && |RevocationsOf(r, id)| <= 1
    requires forall x :: x in RevocationsOf(r, id) ==> x.byKeyId == e.byKeyId
    ensures RevocationsOf(WithRevokedTcert(r, id, e), id) == [e]
  {
  }

  /**
   * Retrospective revocation is not permanent: when the owner of a TCert revokes it retrospectively and
   * then prospectively, documents older than the second statement are acceptable again, although the
   * TCert stays revoked. A run of two operations from empty stores, for every key and pair of dates.
   */
  lemma {:induction false} RetrospectiveCanBeWeakened(env: Env, key: KeyId, n: int, first: int, second: int,
                                                      issuedAt: int, sdocId: string, make: Draft -> Result<bytes>)
    requires key != "" && ':' !in key && 1 <= n <= 255 && issuedAt < second
    requires make(RevocationDraft(OwnerRevokes(key, n, first, make), St.RevokeTcert, (key, n), St.Retrospective)).Ok?
    requires make(RevocationDraft(OwnerRevokes(key, n, second, make), St.RevokeTcert, (key, n), St.Prospective)).Ok?
    ensures var id := TcertIdOf(key, n);
      var once := RevokeTcert(OwnerRevokes(key, n, first, make), St.Retrospective);
      var again := RevokeTcert(OwnerRevokes(key, n, second, make), St.Prospective);
      && RevocationCheck(Run(env, Empty(), [once]).rev, id, key, issuedAt, sdocId) == Invalid
      && RevocationCheck(Run(env, Empty(), [once, again]).rev, id, key, issuedAt, sdocId) == Valid
      && TcertRevoked(Run(env, Empty(), [once, again]).rev, id)
  {
    var once := RevokeTcert(OwnerRevokes(key, n, first, make), St.Retrospective);
    var again := RevokeTcert(OwnerRevokes(key, n, second, make), St.Prospective);
    var s1 := Apply(env, Empty(), once);
    var e1 := OwnerRevocationStep(env, Empty(), key, n, first, St.Retrospective, make);
    var e2 := OwnerRevocationStep(env, s1, key, n, second, St.Prospective, make);
    TwoSteps(env, once, again);
    RevocationCheckMeaning(s1.rev, TcertIdOf(key, n), key, issuedAt, sdocId);
    assert e1 in RevocationsOf(s1.rev, TcertIdOf(key, n));
    OnlyEntryDecides(Apply(env, s1, again).rev, TcertIdOf(key, n), key, issuedAt, sdocId, e2);
  }

  lemma {:induction false} OnlyEntryDecides(r: RevocationState, id: TcertId, key: KeyId, issuedAt: int, sdocId: string,
                                            e: RevocationEntry)
    requires RevocationsOf(r, id) == [e] && key !in r.keys && e.kind.Prospective? && issuedAt < e.issuedAt
    ensures RevocationCheck(r, id, key, issuedAt, sdocId) == Valid
  {
    RevocationCheckMeaning(r, id, key, issuedAt, sdocId);
    assert e in RevocationsOf(r, id);
  }

  lemma {:induction false} TwoSteps(env: Env, a: Op, b: Op)
    ensures Run(env, Empty(), [a]) == Apply(env, Empty(), a)
    ensures Run(env, Empty(), [a, b]) == Apply(env, Apply(env, Empty(), a), b)
  {
    assert [a][1..] == [] && [a, b][1..] == [b] && [b][1..] == [];
    var s1 := Apply(env, Empty(), a);
    assert Run(env, s1, [b]) == Run(env, Apply(env, s1, b), []);
    assert Run(env, Empty(), [a, b]) == Run(env, s1, [b]);
  }
}
