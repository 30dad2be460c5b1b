/**
 * Who is trusted, who may revoke, and which statements count: the rules of the protocol, written over
 * the records alone, and the proof that every service follows exactly these rules.
 */
module Authority {
  import opened Bytes
  import opened Ids
  import opened Operations
  import opened ServiceState
  import opened StoreInvariants
  import ImportLaws
  import SO = SignedObjects
  import St = Statements

  /* ------------------------------------ trust ----------------------------------- */

  /** The certificate held under an id parses to this object. */
  predicate HeldAs(env: Env, s: State, id: TcertId, o: SO.SignedObject)
  {
    GetCert(s.certs, id).Some? && env.parse(GetCert(s.certs, id).value) == Some(o)
  }

  /** A TCert that the user pinned or configured as a CA, and that nobody distrusted or revoked. */
  predicate StandingCa(s: State, ca: TcertId)
  {
    ca in s.trust.pinned + s.trust.cas && ca !in s.trust.distrusted && RevocationsOf(s.rev, ca) == []
  }

  /** A signed object or statement verifies under the public key that a TCert contains. */
  predicate SignedUnder(env: Env, tcert: SO.SignedObject, o: SO.SignedObject)
  {
    env.verifies(tcert.algorithm, o, env.publicKey(tcert), [])
  }

  /** The statement attests the TCert `id` with this content hash, in the name of this key. */
  ghost predicate Attests(stmt: St.Statement, id: TcertId, hash: string, key: KeyId)
  {
    stmt.action == St.Attest && stmt.signerKeyId == key
    && exists k, n :: stmt.target == St.TcertTarget(k, n, Some(hash)) && TcertIdOf(k, n) == id
  }

  /**
   * The record makes its target trusted: it is not withdrawn, its CA is in good standing and held as a
   * self-signed TCert, the CA's key is not revoked, and the CA signed a statement that attests exactly
   * the content held under the target's id.
   */
  ghost predicate Vouches(env: Env, s: State, a: Attestation)
  {
    && a.target + "|" + a.caTcertId !in s.rev.attestations
    && StandingCa(s, a.caTcertId) && a.caKeyId !in s.rev.keys
    && exists ca, target, stmt ::
      && HeldAs(env, s, a.caTcertId, ca) && ca.kind == SO.Tcert && SignedUnder(env, ca, ca)
      && HeldAs(env, s, a.target, target) && env.tcertHash(target) == a.tcertHash
      && env.statement(a.statement) == Some(stmt) && Attests(stmt, a.target, a.tcertHash, a.caKeyId)
      && SignedUnder(env, ca, stmt.signed)
  }

  lemma {:induction false} PathVouches(env: Env, s: State, a: Attestation)
    ensures TrustPath(env, s, a) <==> Vouches(env, s, a)
  {
    var caWire, targetWire := GetCert(s.certs, a.caTcertId), GetCert(s.certs, a.target);
    if TrustPath(env, s, a) {
      var ca, target := env.parse(caWire.value).value, env.parse(targetWire.value).value;
      var stmt := env.statement(a.statement).value;
      assert stmt.target == St.TcertTarget(stmt.target.keyId, stmt.target.certificateNumber, Some(a.tcertHash));
      assert HeldAs(env, s, a.caTcertId, ca) && HeldAs(env, s, a.target, target);
      assert Attests(stmt, a.target, a.tcertHash, a.caKeyId);
    }
  }

  /**
   * What `resolveTrust` answers: invalid exactly for distrusted TCerts; valid exactly for other ones that
   * are pinned or that a recorded attestation vouches for.
   */
  lemma {:induction false} ResolvedMeaning(env: Env, s: State, id: TcertId)
    ensures TrustOf(env, s, id) == Invalid <==> id in s.trust.distrusted
    ensures TrustOf(env, s, id) == Valid
      <==> id !in s.trust.distrusted
           && (id in s.trust.pinned || exists a :: a in AttestationsOf(s.trust, id) && Vouches(env, s, a))
  {
    var list := AttestationsOf(s.trust, id);
    forall a ensures TrustPath(env, s, a) <==> Vouches(env, s, a) {
      PathVouches(env, s, a);
    }
    if a :| a in list && Vouches(env, s, a) {
      var i :| 0 <= i < |list| && list[i] == a;
      assert TrustPath(env, s, list[i]);
    }
    if HasTrustPath(env, s, id) {
      var i :| 0 <= i < |list| && TrustPath(env, s, list[i]);
      assert list[i] in list;
    }
  }

  /** `isTrustedCa` and `isValidAttestation` decide these rules, a withdrawal apart. */
  lemma {:induction false} CaAndAttestationMeaning(env: Env, s: State, ca: TcertId, a: Attestation)
    ensures TrustedCa(s, ca) <==> StandingCa(s, ca)
    ensures ValidAttestation(env, s, a)
      <==> Vouches(env, s.(rev := s.rev.(attestations := s.rev.attestations - {a.target + "|" + a.caTcertId})), a)
  {
    var t := s.(rev := s.rev.(attestations := s.rev.attestations - {a.target + "|" + a.caTcertId}));
    PathVouches(env, t, a);
    assert RevocationsOf(t.rev, a.caTcertId) == RevocationsOf(s.rev, a.caTcertId);
    assert CaInGoodStanding(env, t, a) <==> CaInGoodStanding(env, s, a);
    assert StatementBindsTarget(env, t, a) <==> StatementBindsTarget(env, s, a);
    assert SignedByCa(env, t, a) <==> SignedByCa(env, s, a);
  }

  /** Without a pin, only a TCert in good standing as a CA can make another one trusted. */
  lemma {:induction false} TrustNeedsStandingCa(env: Env, s: State, id: TcertId)
    requires id !in s.trust.pinned && id !in s.trust.distrusted
    requires forall a :: a in AttestationsOf(s.trust, id) ==> !StandingCa(s, a.caTcertId)
    ensures TrustOf(env, s, id) == CannotVerify
  {
    ResolvedMeaning(env, s, id);
  }

  /** Unpinning and unconfiguring the only CA that attested a TCert ends the trust in it. */
  lemma {:induction false} DismissedCaEndsTrust(env: Env, s: State, id: TcertId, ca: TcertId)
    requires id !in s.trust.pinned && id !in s.trust.distrusted
    requires forall a :: a in AttestationsOf(s.trust, id) ==> a.caTcertId == ca
    ensures TrustOf(env, Run(env, s, [Unpin(ca), RemoveCa(ca)]), id) == CannotVerify
    ensures TrustOf(env, Run(env, s, [RemoveCa(ca), Unpin(ca)]), id) == CannotVerify
    ensures TrustOf(env, Run(env, s, [Distrust(ca)]), id) == if id == ca then Invalid else CannotVerify
  {
    RunOfTwo(env, s, Unpin(ca), RemoveCa(ca));
    RunOfTwo(env, s, RemoveCa(ca), Unpin(ca));
    RunOfOne(env, s, Distrust(ca));
    TrustNeedsStandingCa(env, Run(env, s, [Unpin(ca), RemoveCa(ca)]), id);
    TrustNeedsStandingCa(env, Run(env, s, [RemoveCa(ca), Unpin(ca)]), id);
    if id != ca {
      TrustNeedsStandingCa(env, Run(env, s, [Distrust(ca)]), id);
    } else {
      ResolvedMeaning(env, Run(env, s, [Distrust(ca)]), id);
    }
  }

  lemma {:induction false} RunOfOne(env: Env, s: State, a: Op)
    ensures Run(env, s, [a]) == Apply(env, s, a)
  {
    assert [a][1..] == [];
  }

  lemma {:induction false} RunOfTwo(env: Env, s: State, a: Op, b: Op)
    ensures Run(env, s, [a, b]) == Apply(env, Apply(env, s, a), b)
  {
    assert [a, b][1..] == [b];
    RunOfOne(env, Apply(env, s, a), b);
  }

  /**
   * Nobody but a CA can vouch: importing an attestation that is attributed to a TCert which is neither
   * pinned nor configured as a CA makes no TCert trusted that was not trusted before.
   */
  lemma {:induction false} OthersCannotVouch(env: Env, s: State, wire: bytes, id: TcertId)
    requires env.statement(wire).Some? && env.statement(wire).value.action == St.Attest
    requires SignerOf(env, s, env.statement(wire).value).Some? ==>
      SignerOf(env, s, env.statement(wire).value).value !in s.trust.pinned + s.trust.cas
    ensures TrustOf(env, ImportStatement(env, s, wire).0, id) == Valid ==> TrustOf(env, s, id) == Valid
  {
    var stmt, after := env.statement(wire).value, ImportStatement(env, s, wire).0;
    if SignerOf(env, s, stmt).Some? && TrustOf(env, after, id) == Valid {
      ResolvedMeaning(env, s, id);
      ResolvedMeaning(env, after, id);
      if id !in s.trust.pinned && after != s {
        var a :| a in AttestationsOf(after.trust, id) && Vouches(env, after, a);
        var added := ImportedAttestation(stmt, SignerOf(env, s, stmt).value,
                                         ImportedHash(env, s, stmt.target).value, wire);
        NewRecordAside(s, added, id, a);
        SameRecordsVouch(env, s, after, a);
      }
    }
  }

  lemma {:induction false} NewRecordAside(s: State, added: Attestation, id: TcertId, a: Attestation)
    requires a in AttestationsOf(WithAttestation(s.trust, added), id) && a.caTcertId != added.caTcertId
    ensures a in AttestationsOf(s.trust, id)
  {
    if id == added.target {
      UpsertedMembers(AttestationsOf(s.trust, id), added, (x: Attestation) => x.caTcertId == added.caTcertId);
    }
  }

  /** Vouching does not depend on the other attestations. */
  lemma {:induction false} SameRecordsVouch(env: Env, s: State, t: State, a: Attestation)
    requires t == s.(trust := s.trust.(attestations := t.trust.attestations))
    ensures Vouches(env, s, a) <==> Vouches(env, t, a)
  {
    PathVouches(env, s, a);
    PathVouches(env, t, a);
  }

  /* ---------------------------------- authority --------------------------------- */

  /** The signer's key belongs to a CA in good standing, still held, that attested the TCert. */
  ghost predicate AttestingCa(env: Env, s: State, signer: KeyId, tcertId: TcertId)
  {
    signer !in s.rev.keys
    && exists a, o ::
      && a in AttestationsOf(s.trust, tcertId) && a.caKeyId == signer && StandingCa(s, a.caTcertId)
      && HeldAs(env, s, a.caTcertId, o)
  }

  /** Only the owner of the key and such CAs may revoke a TCert or block a document. */
  lemma {:induction false} EntitledMeaning(env: Env, s: State, signer: KeyId, owner: KeyId, tcertId: TcertId)
    ensures AuthorizedCa(env, s, signer, tcertId) <==> AttestingCa(env, s, signer, tcertId)
    ensures MayRevoke(env, s, signer, owner, tcertId) <==> signer == owner || AttestingCa(env, s, signer, tcertId)
  {
    var list := AttestationsOf(s.trust, tcertId);
    if AuthorizedCa(env, s, signer, tcertId) {
      var i :| 0 <= i < |list| && AuthorizingAttestation(env, s, signer, list[i]);
      assert list[i] in list
        && HeldAs(env, s, list[i].caTcertId, env.parse(GetCert(s.certs, list[i].caTcertId).value).value);
    }
    if AttestingCa(env, s, signer, tcertId) {
      var a, o :| a in list && a.caKeyId == signer && StandingCa(s, a.caTcertId) && HeldAs(env, s, a.caTcertId, o);
      var i :| 0 <= i < |list| && list[i] == a;
      assert AuthorizingAttestation(env, s, signer, list[i]);
    }
  }

  /** The outcome of signing a statement, and the stores once it is recorded. */
  function Signed(signing: Signing, d: Draft, failed: State, done: bytes -> State): Step
  {
    match signing
    case NoKey => Step(failed, Err(NotFoundError))
    case Key(make) => match make(d) case Err(e) => Step(failed, Err(e)) case Ok(wire) => Step(done(wire), Ok(wire))
  }

  /**
   * Revoking a TCert: an entitled signer signs exactly this statement and has it recorded under its key;
   * anybody else is refused and changes nothing.
   */
  lemma {:induction false} RevokeTcertMeaning(env: Env, s: State, r: Request, kind: St.RevocationType, key: KeyId,
                                              n: int)
    requires SplitTcertId(r.subject) == Ok((key, n))
    ensures RevokeTcertStep(env, s, r, kind)
      == if !(r.signer == key || AttestingCa(env, s, r.signer, r.subject)) then Step(s, Err(AuthorizationError))
         else Signed(r.signing,
                     Draft(St.RevokeTcert, St.TcertTarget(key, n, None), r.issuedAt,
                           St.Options(r.reason, Some(kind), None, None)),
                     s,
                     wire => s.(rev := WithRevokedTcert(s.rev, r.subject,
                       RevocationEntry(kind, r.issuedAt, r.reason, Some(r.signer), None, Some(wire)))))
  {
    EntitledMeaning(env, s, r.signer, key, r.subject);
  }

  /** Ids that are none are refused first. */
  lemma {:induction false} MalformedSubjects(env: Env, s: State, r: Request, kind: St.RevocationType)
    ensures SplitTcertId(r.subject).Err? ==>
      RevokeTcertStep(env, s, r, kind) == Step(s, Err(SplitTcertId(r.subject).error))
    ensures SplitTcertId(r.signer).Err? ==>
      RevokeAttestationStep(s, r) == Step(s, Err(SplitTcertId(r.signer).error))
    ensures SplitTcertId(r.signer).Ok? && SplitTcertId(r.subject).Err? ==>
      RevokeAttestationStep(s, r) == Step(s, Err(SplitTcertId(r.subject).error))
  {
  }

  /** The key and TCert number that a stored document names. */
  predicate DocumentOf(env: Env, s: State, sdocId: string, key: KeyId, n: int)
  {
    && sdocId in s.docs && env.parse(s.docs[sdocId]).Some?
    && env.parse(s.docs[sdocId]).value.signerKeyId == key
    && env.parse(s.docs[sdocId]).value.cose.tcertNumber == Some(n) && 1 <= n <= 255
  }

  /**
   * Blocking and unblocking a stored document: its issuer, or a CA entitled to revoke its TCert, signs exactly
   * this statement and has it recorded; anybody else is refused and changes nothing.
   */
  lemma {:induction false} BlockMeaning(env: Env, s: State, r: Request, blocks: bool, key: KeyId, n: int)
    requires DocumentOf(env, s, r.subject, key, n)
    ensures BlockStep(env, s, r, blocks)
      == if !(r.signer == key || AttestingCa(env, s, r.signer, key + ":" + IntString(n)))
         then Step(s, Err(AuthorizationError))
         else Signed(r.signing,
                     Draft(if blocks then St.BlockSdoc else St.UnblockSdoc, St.SdocTarget(r.subject), r.issuedAt,
                           St.Options(r.reason, None, None, None)),
                     s,
                     wire =>
                       var entry := BlockEntry(r.issuedAt, r.reason, Some(r.signer), None, Some(wire));
                       s.(rev := s.rev.(
                         blocked := if blocks then s.rev.blocked[r.subject := entry] else s.rev.blocked - {r.subject},
                         history := s.rev.history + [SdocStatement(r.subject, entry, blocks)])))
  {
    EntitledMeaning(env, s, r.signer, key, TcertIdOf(key, n));
  }

  /** Documents that are not stored, or name no TCert, are neither blocked nor unblocked. */
  lemma {:induction false} UnknownDocuments(env: Env, s: State, r: Request, blocks: bool)
    requires forall key, n :: !DocumentOf(env, s, r.subject, key, n)
    ensures BlockStep(env, s, r, blocks) == Step(s, Err(if r.subject in s.docs then ParseError else NotFoundError))
  {
    if r.subject in s.docs && env.parse(s.docs[r.subject]).Some? {
      var o := env.parse(s.docs[r.subject]).value;
      if o.cose.tcertNumber.Some? {
        assert !DocumentOf(env, s, r.subject, o.signerKeyId, o.cose.tcertNumber.value);
      }
    }
  }

  /**
   * A CA that is distrusted, or whose TCert anybody revoked, has no authority left: when all attestations of
   * a TCert in the name of a key come from that CA, the key revokes nothing and blocks nothing of it.
   */
  lemma {:induction false} FallenCaLosesAuthority(env: Env, s: State, r: Request, kind: St.RevocationType, blocks: bool,
                                                  ca: TcertId, key: KeyId, n: int)
    requires ca in s.trust.distrusted || RevocationsOf(s.rev, ca) != [] || ca !in s.trust.pinned + s.trust.cas
             || r.signer in s.rev.keys
    requires r.signer != key
    requires forall a :: a in AttestationsOf(s.trust, TcertIdOf(key, n)) && a.caKeyId == r.signer ==> a.caTcertId == ca
    ensures SplitTcertId(r.subject) == Ok((key, n)) && r.subject == TcertIdOf(key, n) ==>
      RevokeTcertStep(env, s, r, kind) == Step(s, Err(AuthorizationError))
    ensures DocumentOf(env, s, r.subject, key, n) ==>
      BlockStep(env, s, r, blocks) == Step(s, Err(AuthorizationError))
  {
    assert !AttestingCa(env, s, r.signer, TcertIdOf(key, n));
    if SplitTcertId(r.subject) == Ok((key, n)) {
      RevokeTcertMeaning(env, s, r, kind, key, n);
    }
    if DocumentOf(env, s, r.subject, key, n) {
      BlockMeaning(env, s, r, blocks, key, n);
    }
  }

  /** Revoking a key: its owner signs exactly this statement, and nobody else can. */
  lemma {:induction false} RevokeKeyMeaning(s: State, r: Request)
    ensures RevokeKeyStep(s, r)
      == if r.signer != r.subject then Step(s, Err(AuthorizationError))
         else Signed(r.signing,
                     Draft(St.RevokeTcert, St.KeyTarget(r.subject), r.issuedAt,
                           St.Options(r.reason, Some(St.Retrospective), None, None)),
                     s,
                     wire => s.(rev := s.rev.(keys := s.rev.keys[r.subject :=
                       RevocationEntry(St.Retrospective, r.issuedAt, r.reason, Some(r.signer), None, Some(wire))])))
  {
  }

  /** Withdrawing an attestation: only the TCert that made one can, and the target itself is not revoked. */
  lemma {:induction false} WithdrawMeaning(s: State, r: Request, caKey: KeyId, caNumber: int, key: KeyId, n: int)
    requires SplitTcertId(r.signer) == Ok((caKey, caNumber)) && SplitTcertId(r.subject) == Ok((key, n))
    ensures RevokeAttestationStep(s, r)
      == if !exists a :: a in AttestationsOf(s.trust, r.subject) && a.caTcertId == r.signer
         then Step(s, Err(AuthorizationError))
         else Signed(r.signing,
                     Draft(St.RevokeAttestation, St.TcertTarget(key, n, None), r.issuedAt,
                           St.Options(r.reason, Some(St.Prospective), None, None)),
                     s,
                     wire => s.(rev := s.rev.(attestations := s.rev.attestations[r.subject + "|" + r.signer :=
                       RevocationEntry(St.Prospective, r.issuedAt, r.reason, Some(caKey), Some(r.signer),
                                       Some(wire))])))
  {
    AttestedMeaning(s.trust, r.subject, r.signer);
  }

  lemma {:induction false} AttestedMeaning(t: TrustState, target: TcertId, ca: TcertId)
    ensures AttestedBy(t, target, ca) <==> exists a :: a in AttestationsOf(t, target) && a.caTcertId == ca
  {
    var list := AttestationsOf(t, target);
    if AttestedBy(t, target, ca) {
      var i :| 0 <= i < |list| && list[i].caTcertId == ca;
      assert list[i] in list;
    }
    if a :| a in list && a.caTcertId == ca {
      var i :| 0 <= i < |list| && list[i] == a;
    }
  }

  /* ---------------------------------- attesting --------------------------------- */

  /** Why an attestation is refused before anything is signed, if it is. */
  ghost predicate MayAttest(env: Env, s: State, p: Attesting, ca: SO.SignedObject, target: SO.SignedObject, key: KeyId,
                            n: int)
  {
    && p.ca in s.trust.cas && (forall a :: a in AttestationsOf(s.trust, p.target) ==> a.caTcertId != p.ca)
    && HeldAs(env, s, p.ca, ca) && HeldAs(env, s, p.target, target) && SplitTcertId(p.target) == Ok((key, n))
  }

  /**
   * Attesting: a configured CA that has not attested the target yet signs a statement about the content hash
   * of the target that is held, and the record says so.
   */
  lemma {:induction false} AttestMeaning(env: Env, s: State, p: Attesting, ca: SO.SignedObject,
                                         target: SO.SignedObject, key: KeyId, n: int)
    requires MayAttest(env, s, p, ca, target, key, n)
    ensures AttestStep(env, s, p)
      == Signed(p.signing,
                Draft(St.Attest, St.TcertTarget(key, n, Some(env.tcertHash(target))), p.issuedAt,
                      St.Options(None, None, p.claims, None)),
                s,
                wire => s.(trust := WithAttestation(s.trust,
                  Attestation(p.target, ca.signerKeyId, p.ca, env.tcertHash(target), St.Dictionary(p.claims),
                              p.issuedAt, wire))))
  {
    AttestedMeaning(s.trust, p.target, p.ca);
  }

  /** Otherwise nothing is attested: no CA, an attestation that is there already, or a TCert that is not usable. */
  lemma {:induction false} AttestRefused(env: Env, s: State, p: Attesting)
    requires forall ca, target, key, n :: !MayAttest(env, s, p, ca, target, key, n)
    ensures AttestStep(env, s, p).state == s && AttestStep(env, s, p).result.Err?
    ensures p.ca !in s.trust.cas ==> AttestStep(env, s, p).result == Err(AuthorizationError)
    ensures p.ca in s.trust.cas && (exists a :: a in AttestationsOf(s.trust, p.target) && a.caTcertId == p.ca) ==>
      AttestStep(env, s, p).result == Err(ValidationError)
  {
    AttestedMeaning(s.trust, p.target, p.ca);
    if NewAttestation(env, s, p).Ok? {
      var ca, target := ParsedCert(env, s, p.ca).value, ParsedCert(env, s, p.target).value;
      var parts := SplitTcertId(p.target).value;
      assert MayAttest(env, s, p, ca, target, parts.0, parts.1);
    }
  }

  /** `addTcert` saves the TCert it is given exactly when it is one with the target's id, and then attests. */
  lemma {:induction false} AddTcertMeaning(env: Env, s: State, wire: bytes, p: Attesting)
    ensures AddTcertStep(env, s, None, p) == AttestStep(env, s, p)
    ensures AddTcertStep(env, s, Some(wire), p)
      == if env.parse(wire).None? then Step(s, Err(ParseError))
         else
           var o := env.parse(wire).value;
           if o.kind == SO.Tcert && o.signerKeyId + ":" + IntString(env.certificateNumber(o)) == p.target
           then AttestStep(env, s.(certs := WithCert(s.certs, p.target, wire)), p) else Step(s, Err(ValidationError))
  {
  }

  /** The user's own decisions: pinning and configuring need the TCert, undoing does not; nothing else changes. */
  lemma {:induction false} DecisionsMeaning(env: Env, s: State, id: TcertId, other: TcertId)
    ensures PinStep(s, id).result == if GetCert(s.certs, id).Some? then Ok([]) else Err(NotFoundError)
    ensures AddCaStep(s, id).result == if GetCert(s.certs, id).Some? then Ok([]) else Err(NotFoundError)
    ensures forall op :: op in [Pin(id), Unpin(id), AddCa(id), RemoveCa(id), Distrust(id), TrustAgain(id)] ==>
      var t := Apply(env, s, op);
      && t == s.(trust := t.trust) && t.trust.attestations == s.trust.attestations
      && (other in t.trust.pinned
          <==> if other == id && op.Pin? && GetCert(s.certs, id).Some? then true
               else if other == id && op.Unpin? then false else other in s.trust.pinned)
      && (other in t.trust.cas
          <==> if other == id && op.AddCa? && GetCert(s.certs, id).Some? then true
               else if other == id && op.RemoveCa? then false else other in s.trust.cas)
      && (other in t.trust.distrusted
          <==> if other == id && op.Distrust? then true
               else if other == id && op.TrustAgain? then false else other in s.trust.distrusted)
  {
  }

  /* ----------------------------------- importing -------------------------------- */

  /**
   * No statement is applied without a valid signature: bytes that are no statement, and statements that
   * verify under no held TCert of the key they name, are refused and change nothing.
   */
  lemma {:induction false} UnsignedIsRefused(env: Env, s: State, wire: bytes)
    ensures env.statement(wire).None? ==> ImportStatement(env, s, wire) == (s, Rejected(Malformed))
    ensures env.statement(wire).Some? ==>
      (ImportStatement(env, s, wire).1 == Rejected(NoSigner)
       <==> forall c :: !ImportLaws.Candidate(env, s, env.statement(wire).value, c))
    ensures ImportStatement(env, s, wire).1 == Rejected(NoSigner) ==> ImportStatement(env, s, wire).0 == s
    ensures ImportStatement(env, s, wire).1.Applied? ==>
      env.statement(wire).Some? && exists c :: ImportLaws.Candidate(env, s, env.statement(wire).value, c)
  {
    if env.statement(wire).Some? {
      var stmt := env.statement(wire).value;
      ImportLaws.SignerMeaning(env, s, stmt);
    }
  }

  /** The certificate at a place signs the statement. */
  ghost predicate SignsAt(env: Env, s: State, stmt: St.Statement, i: nat)
  {
    i < |s.certs| && ImportLaws.Candidate(env, s, stmt, s.certs[i])
  }

  /**
   * Which TCert a statement is attributed to: the last held CA that signs it, and without one the first
   * held TCert that does.
   */
  lemma {:induction false} AttributionMeaning(env: Env, s: State, stmt: St.Statement, i: nat)
    requires SignsAt(env, s, stmt, i)
    requires s.certs[i].id in s.trust.cas ==>
      forall j: nat :: i < j && SignsAt(env, s, stmt, j) ==> s.certs[j].id !in s.trust.cas
    requires s.certs[i].id !in s.trust.cas ==>
      forall j: nat :: SignsAt(env, s, stmt, j) ==> i <= j && s.certs[j].id !in s.trust.cas
    ensures SignerOf(env, s, stmt) == Some(s.certs[i].id)
  {
    var n := |s.certs|;
    forall j: nat | j < n
      ensures SignsAt(env, s, stmt, j)
        <==> StartsWith(s.certs[j].id, stmt.signerKeyId + ":") && CanSign(env, s.certs[j], stmt)
    {
      ImportLaws.CandidateMeaning(env, s, stmt, s.certs[j]);
      ImportLaws.OfKeyMembers(s.certs, stmt.signerKeyId, s.certs[j]);
    }
    if s.certs[i].id in s.trust.cas {
      LastCaAt(env, s.trust.cas, s.certs, stmt, i);
    } else {
      NoCaSigns(env, s.trust.cas, s.certs, stmt);
      FirstAt(env, s.certs, stmt, i);
    }
  }

  predicate MaySign(env: Env, c: Cert, stmt: St.Statement)
  {
    StartsWith(c.id, stmt.signerKeyId + ":") && CanSign(env, c, stmt)
  }

  lemma {:induction false} FirstAt(env: Env, certs: seq<Cert>, stmt: St.Statement, i: nat)
    requires i < |certs| && MaySign(env, certs[i], stmt) && forall j :: 0 <= j < i ==> !MaySign(env, certs[j], stmt)
    ensures FirstSigner(env, CertsOfKey(certs, stmt.signerKeyId), stmt) == Some(certs[i].id)
  {
    var rest := CertsOfKey(certs[1..], stmt.signerKeyId);
    if i == 0 {
      assert CertsOfKey(certs, stmt.signerKeyId)[0] == certs[0];
    } else {
      FirstAt(env, certs[1..], stmt, i - 1);
      assert !MaySign(env, certs[0], stmt);
      if StartsWith(certs[0].id, stmt.signerKeyId + ":") {
        assert ([certs[0]] + rest)[1..] == rest;
      } else {
        assert [] + rest == rest;
      }
    }
  }

  lemma {:induction false} NoCaSigns(env: Env, cas: set<TcertId>, certs: seq<Cert>, stmt: St.Statement)
    requires forall j :: 0 <= j < |certs| && MaySign(env, certs[j], stmt) ==> certs[j].id !in cas
    ensures LastCaSigner(env, cas, CertsOfKey(certs, stmt.signerKeyId), stmt) == None
  {
    var recs := CertsOfKey(certs, stmt.signerKeyId);
    ImportLaws.LastCaSignerMeaning(env, cas, recs, stmt);
    forall c | c in recs && CanSign(env, c, stmt) ensures c.id !in cas {
      ImportLaws.OfKeyMembers(certs, stmt.signerKeyId, c);
      var j :| 0 <= j < |certs| && certs[j] == c;
      assert MaySign(env, certs[j], stmt);
    }
  }

  lemma {:induction false} LastCaAt(env: Env, cas: set<TcertId>, certs: seq<Cert>, stmt: St.Statement, i: nat)
    requires i < |certs| && MaySign(env, certs[i], stmt) && certs[i].id in cas
    requires forall j :: i < j < |certs| && MaySign(env, certs[j], stmt) ==> certs[j].id !in cas
    ensures LastCaSigner(env, cas, CertsOfKey(certs, stmt.signerKeyId), stmt) == Some(certs[i].id)
    decreases |certs|
  {
    var n := |certs| - 1;
    var recs := CertsOfKey(certs[..n], stmt.signerKeyId);
    ImportLaws.AppendedCertsOfKey(certs[..n], certs[n], stmt.signerKeyId);
    assert certs == certs[..n] + [certs[n]];
    if StartsWith(certs[n].id, stmt.signerKeyId + ":") {
      assert (recs + [certs[n]])[..|recs|] == recs;
    } else {
      assert recs + [] == recs;
    }
    if i < n {
      LastCaAt(env, cas, certs[..n], stmt, i);
      assert !(MaySign(env, certs[n], stmt) && certs[n].id in cas);
    }
  }

  /** What an attributed attestation does: the content hash is the one held, or the stated one while none is held. */
  lemma {:induction false} ImportedAttestMeaning(env: Env, s: State, wire: bytes, stmt: St.Statement, signer: TcertId,
                                                 k: KeyId, n: int, hash: Option<string>)
    requires env.statement(wire) == Some(stmt) && SignerOf(env, s, stmt) == Some(signer)
    requires stmt.action == St.Attest && stmt.target == St.TcertTarget(k, n, hash)
    ensures var id := k + ":" + IntString(n);
      var held := GetCert(s.certs, id);
      var (after, out) := ImportStatement(env, s, wire);
      if held.None? then
        && out == Applied(St.Attest, id)
        && after == s.(trust := WithAttestation(s.trust,
             Attestation(id, stmt.signerKeyId, signer, if hash.Some? then hash.value else "", stmt.claims,
                         stmt.issuedAt, wire)))
      else if env.parse(held.value).None? then out == Rejected(MalformedTarget) && after == s
      else
        var computed := env.tcertHash(env.parse(held.value).value);
        if hash.Some? && hash.value != computed then out == Rejected(HashMismatch) && after == s
        else
          && out == Applied(St.Attest, id)
          && after == s.(trust := WithAttestation(s.trust,
               Attestation(id, stmt.signerKeyId, signer, computed, stmt.claims, stmt.issuedAt, wire)))
  {
  }

  /** What an attributed revocation or withdrawal does; a revocation without a kind is retrospective. */
  lemma {:induction false} ImportedRevocationMeaning(env: Env, s: State, wire: bytes, stmt: St.Statement,
                                                     signer: TcertId)
    requires env.statement(wire) == Some(stmt) && SignerOf(env, s, stmt) == Some(signer)
    requires stmt.action in {St.RevokeTcert, St.RevokeAttestation}
    ensures var kind := if stmt.action == St.RevokeAttestation then St.Prospective
                        else if stmt.revocationType.Some? then stmt.revocationType.value else St.Retrospective;
      var e := RevocationEntry(kind, stmt.issuedAt, stmt.reason, Some(stmt.signerKeyId), Some(signer), Some(wire));
      ImportStatement(env, s, wire)
      == match stmt.target
         case TcertTarget(k, n, _) =>
           var id := k + ":" + IntString(n);
           if stmt.action == St.RevokeTcert
           then (s.(rev := WithRevokedTcert(s.rev, id, e)), Applied(St.RevokeTcert, id))
           else if exists a :: a in AttestationsOf(s.trust, id) && a.caTcertId == signer
           then (s.(rev := s.rev.(attestations := s.rev.attestations[id + "|" + signer := e])),
                 Applied(St.RevokeAttestation, id))
           else (s, Rejected(AttestationNotFound))
         case KeyTarget(k) =>
           if stmt.action == St.RevokeTcert
           then (s.(rev := s.rev.(keys := s.rev.keys[k := e])), Applied(St.RevokeTcert, k))
           else (s, Rejected(UnsupportedTarget))
         case SdocTarget(_) => (s, Rejected(UnsupportedTarget))
  {
    if stmt.target.TcertTarget? {
      AttestedMeaning(s.trust, TargetTcertId(stmt.target), signer);
    }
  }

  /** What an attributed block or unblock does; TCerts are not added by statements. */
  lemma {:induction false} ImportedBlockMeaning(env: Env, s: State, wire: bytes, stmt: St.Statement, signer: TcertId)
    requires env.statement(wire) == Some(stmt) && SignerOf(env, s, stmt) == Some(signer)
    requires stmt.action in {St.BlockSdoc, St.UnblockSdoc, St.AddTcert}
      || (stmt.action == St.Attest && !stmt.target.TcertTarget?)
    ensures var e := BlockEntry(stmt.issuedAt, stmt.reason, Some(stmt.signerKeyId), Some(signer), Some(wire));
      ImportStatement(env, s, wire)
      == if stmt.action == St.AddTcert then (s, Rejected(UnsupportedAction))
         else if stmt.action == St.Attest || !stmt.target.SdocTarget? then (s, Rejected(UnsupportedTarget))
         else
           var d, blocks := stmt.target.sdocId, stmt.action == St.BlockSdoc;
           (s.(rev := s.rev.(blocked := if blocks then s.rev.blocked[d := e] else s.rev.blocked - {d},
                             history := s.rev.history + [SdocStatement(d, e, blocks)])),
            Applied(stmt.action, d))
  {
  }

  /** Which bytes become a TCert, under which id, and why others are refused. */
  lemma {:induction false} ImportTcertMeaning(env: Env, s: State, wire: bytes)
    ensures ImportTcert(env, s, wire)
      == if env.parse(wire).None? then (s, Rejected(Malformed))
         else
           var o := env.parse(wire).value;
           if o.kind != SO.Tcert then (s, Rejected(NotATcert))
           else if !SignedUnder(env, o, o) then (s, Rejected(BadSelfSignature))
           else if env.keyIdOf(o.algorithm, env.publicKey(o)) != o.signerKeyId then (s, Rejected(KeyIdMismatch))
           else
             var id := o.signerKeyId + ":" + IntString(env.certificateNumber(o));
             (s.(certs := WithCert(s.certs, id, wire)), Imported(id))
  {
  }
}
