/** Laws of importing: trust does not depend on order, and repeating an import changes nothing. */
module ImportLaws {
  import opened Bytes
  import opened Ids
  import opened MemoryStores
  import opened Operations
  import opened ServiceState
  import opened StoreInvariants
  import Cbor
  import Cose
  import SO = SignedObjects
  import St = Statements

  /* ------------------------------ trust resolution ------------------------------ */

  /** Same stores, except that the attestations of each target may be listed in another order. */
  ghost predicate SameUpToOrder(s: State, s': State)
  {
    && s'.certs == s.certs && s'.rev == s.rev
    && s'.trust.pinned == s.trust.pinned && s'.trust.cas == s.trust.cas && s'.trust.distrusted == s.trust.distrusted
    && forall id :: multiset(AttestationsOf(s'.trust, id)) == multiset(AttestationsOf(s.trust, id))
  }

  lemma {:induction false} PathMember(env: Env, s: State, id: TcertId)
    ensures HasTrustPath(env, s, id) <==> exists a :: a in AttestationsOf(s.trust, id) && TrustPath(env, s, a)
  {
    if HasTrustPath(env, s, id) {
      var i :| 0 <= i < |AttestationsOf(s.trust, id)| && TrustPath(env, s, AttestationsOf(s.trust, id)[i]);
      assert AttestationsOf(s.trust, id)[i] in AttestationsOf(s.trust, id);
    }
  }

  /** The resolved state does not depend on the order attestations arrived in. */
  lemma {:induction false} TrustIgnoresAttestationOrder(env: Env, s: State, s': State, id: TcertId)
    requires SameUpToOrder(s, s')
    ensures TrustOf(env, s', id) == TrustOf(env, s, id)
  {
    PathMember(env, s, id);
    PathMember(env, s', id);
    forall a ensures (a in AttestationsOf(s'.trust, id) && TrustPath(env, s', a))
      <==> (a in AttestationsOf(s.trust, id) && TrustPath(env, s, a)) {
      assert a in AttestationsOf(s.trust, id) <==> a in multiset(AttestationsOf(s.trust, id));
      assert a in AttestationsOf(s'.trust, id) <==> a in multiset(AttestationsOf(s'.trust, id));
      SamePath(env, s, s', a);
    }
  }

  /** Whether an attestation is a path depends on the certificates, the trust sets and the revocations only. */
  lemma {:induction false} SamePath(env: Env, s: State, s': State, a: Attestation)
    requires s'.certs == s.certs && s'.rev == s.rev
    requires s'.trust.pinned == s.trust.pinned && s'.trust.cas == s.trust.cas
    requires s'.trust.distrusted == s.trust.distrusted
    ensures TrustPath(env, s', a) <==> TrustPath(env, s, a)
  {
  }

  /** Another CA's attestation cannot take away a path that a CA has provided. */
  lemma {:induction false} OthersCannotRemovePath(env: Env, s: State, a: Attestation, b: Attestation)
    requires a in AttestationsOf(s.trust, a.target) && TrustPath(env, s, a)
    requires (b.target, b.caTcertId) != (a.target, a.caTcertId)
    ensures var s' := WithTrust(s, WithAttestation(s.trust, b));
      && a in AttestationsOf(s'.trust, a.target) && TrustPath(env, s', a)
      && (TrustOf(env, s, a.target) == Valid ==> TrustOf(env, s', a.target) == Valid)
  {
    var s' := WithTrust(s, WithAttestation(s.trust, b));
    UpsertedMembers(AttestationsOf(s.trust, b.target), b, (x: Attestation) => x.caTcertId == b.caTcertId);
    assert a in AttestationsOf(s'.trust, a.target);
    SamePath(env, s, s', a);
    PathMember(env, s', a.target);
  }

  /** The statement that `attest` signs, and that verifies under the CA's key. */
  predicate SignsAttestation(env: Env, ca: SO.SignedObject, a: Attestation)
  {
    var stmt := env.statement(a.statement);
    && stmt.Some? && stmt.value.action == St.Attest && stmt.value.target.TcertTarget?
    && TcertIdOf(stmt.value.target.keyId, stmt.value.target.certificateNumber) == a.target
    && stmt.value.target.tcertHash == Some(a.tcertHash) && stmt.value.signerKeyId == ca.signerKeyId
    && env.verifies(ca.algorithm, stmt.value.signed, env.publicKey(ca), [])
  }

  /**
   * A successful `attest` makes its target trusted exactly when the target is not distrusted and
   * either it already was, or the CA is a self-signed, unrevoked, not distrusted TCert whose key is
   * unrevoked and which had not withdrawn an attestation of this target before.
   */
  lemma {:induction false} AttestEarnsTrust(env: Env, s: State, p: Attesting)
    requires NewAttestation(env, s, p).Ok?
    requires SignsAttestation(env, ParsedCert(env, s, p.ca).value, NewAttestation(env, s, p).value)
    ensures var ca := ParsedCert(env, s, p.ca).value;
      TrustOf(env, AttestStep(env, s, p).state, p.target) == Valid
      <==> p.target !in s.trust.distrusted
           && (TrustOf(env, s, p.target) == Valid
               || (ca.kind == SO.Tcert && SelfSigned(env, ca) && p.ca !in s.trust.distrusted
                   && !TcertRevoked(s.rev, p.ca)
                   && ca.signerKeyId !in s.rev.keys && PairKey(p.target, p.ca) !in s.rev.attestations))
  {
    var a := NewAttestation(env, s, p).value;
    assert AttestStep(env, s, p).state == WithTrust(s, WithAttestation(s.trust, a));
    NewAttestationAdds(env, s, a);
    NewPath(env, s, p);
  }

  /** What makes the record of a successful `attest` a trust path. */
  lemma {:induction false} NewPath(env: Env, s: State, p: Attesting)
    requires NewAttestation(env, s, p).Ok?
    requires SignsAttestation(env, ParsedCert(env, s, p.ca).value, NewAttestation(env, s, p).value)
    ensures var ca := ParsedCert(env, s, p.ca).value;
      TrustPath(env, s, NewAttestation(env, s, p).value)
      <==> ca.kind == SO.Tcert && SelfSigned(env, ca) && p.ca !in s.trust.distrusted && !TcertRevoked(s.rev, p.ca)
           && ca.signerKeyId !in s.rev.keys && PairKey(p.target, p.ca) !in s.rev.attestations
  {
  }

  /** A first attestation by a CA adds its own path and keeps all others. */
  lemma {:induction false} NewAttestationAdds(env: Env, s: State, a: Attestation)
    requires !AttestedBy(s.trust, a.target, a.caTcertId)
    ensures HasTrustPath(env, WithTrust(s, WithAttestation(s.trust, a)), a.target)
      <==> HasTrustPath(env, s, a.target) || TrustPath(env, s, a)
  {
    var s' := WithTrust(s, WithAttestation(s.trust, a));
    var list, same := AttestationsOf(s.trust, a.target), (x: Attestation) => x.caTcertId == a.caTcertId;
    UpsertedMembers(list, a, same);
    assert AttestationsOf(s'.trust, a.target) == Upserted(list, a, same);
    PathMember(env, s, a.target);
    PathMember(env, s', a.target);
    forall b ensures TrustPath(env, s', b) <==> TrustPath(env, s, b) {
      SamePath(env, s, s', b);
    }
    forall b | b in list ensures !same(b) {
      var i :| 0 <= i < |list| && list[i] == b;
    }
  }

  /* --------------------------------- who signed it ------------------------------ */

  /** A held TCert of the key the statement names, under whose public key the statement verifies. */
  ghost predicate Candidate(env: Env, s: State, stmt: St.Statement, c: Cert)
  {
    && c in s.certs && |stmt.signerKeyId| < |c.id| && c.id[..|stmt.signerKeyId| + 1] == stmt.signerKeyId + ":"
    && exists o ::
         env.parse(c.wire) == Some(o) && o.kind == SO.Tcert
         && env.verifies(o.algorithm, stmt.signed, env.publicKey(o), [])
  }

  lemma {:induction false} CandidateMeaning(env: Env, s: State, stmt: St.Statement, c: Cert)
    ensures Candidate(env, s, stmt, c) <==> c in CertsOfKey(s.certs, stmt.signerKeyId) && CanSign(env, c, stmt)
  {
    OfKeyMembers(s.certs, stmt.signerKeyId, c);
  }

  lemma {:induction false} OfKeyMembers(certs: seq<Cert>, keyId: KeyId, c: Cert)
    ensures c in CertsOfKey(certs, keyId) <==> c in certs && StartsWith(c.id, keyId + ":")
  {
    if certs == [] {
    } else {
      OfKeyMembers(certs[1..], keyId, c);
      assert certs == [certs[0]] + certs[1..];
    }
  }

  lemma {:induction false} FirstSignerMeaning(env: Env, recs: seq<Cert>, stmt: St.Statement)
    ensures FirstSigner(env, recs, stmt).Some? <==> exists c :: c in recs && CanSign(env, c, stmt)
    ensures FirstSigner(env, recs, stmt).Some? ==> exists c ::
      c in recs && CanSign(env, c, stmt) && c.id == FirstSigner(env, recs, stmt).value
  {
    if recs == [] {
    } else {
      FirstSignerMeaning(env, recs[1..], stmt);
      assert recs == [recs[0]] + recs[1..];
    }
  }

  lemma {:induction false} LastCaSignerMeaning(env: Env, cas: set<TcertId>, recs: seq<Cert>, stmt: St.Statement)
    ensures LastCaSigner(env, cas, recs, stmt).Some? <==> exists c :: c in recs && CanSign(env, c, stmt) && c.id in cas
    ensures LastCaSigner(env, cas, recs, stmt).Some? ==>
      exists c :: c in recs && CanSign(env, c, stmt) && c.id in cas && c.id == LastCaSigner(env, cas, recs, stmt).value
  {
    if recs == [] {
    } else {
      var n := |recs| - 1;
      LastCaSignerMeaning(env, cas, recs[..n], stmt);
      assert recs == recs[..n] + [recs[n]];
    }
  }

  /**
   * A statement is attributed to a held TCert of its signer key that verifies it, whenever there is
   * one, and to a configured CA among those, whenever there is one.
   */
  lemma {:induction false} SignerMeaning(env: Env, s: State, stmt: St.Statement)
    ensures SignerOf(env, s, stmt).Some? <==> exists c :: Candidate(env, s, stmt, c)
    ensures SignerOf(env, s, stmt).Some? ==> exists c ::
      Candidate(env, s, stmt, c) && c.id == SignerOf(env, s, stmt).value
    ensures (exists c :: Candidate(env, s, stmt, c) && c.id in s.trust.cas) ==>
      SignerOf(env, s, stmt).Some? && SignerOf(env, s, stmt).value in s.trust.cas
  {
    var recs := CertsOfKey(s.certs, stmt.signerKeyId);
    forall c ensures Candidate(env, s, stmt, c) <==> c in recs && CanSign(env, c, stmt) {
      CandidateMeaning(env, s, stmt, c);
    }
    FirstSignerMeaning(env, recs, stmt);
    LastCaSignerMeaning(env, s.trust.cas, recs, stmt);
    if LastCaSigner(env, s.trust.cas, recs, stmt).Some? {
      var c :| c in recs && CanSign(env, c, stmt) && c.id in s.trust.cas
        && c.id == LastCaSigner(env, s.trust.cas, recs, stmt).value;
      assert Candidate(env, s, stmt, c);
    } else if FirstSigner(env, recs, stmt).Some? {
      var c :| c in recs && CanSign(env, c, stmt) && c.id == FirstSigner(env, recs, stmt).value;
      assert Candidate(env, s, stmt, c);
    }
  }

  /**
   * Nothing unsigned gets in: an import that is refused changes nothing, and one that is applied
   * verified under the public key of a TCert that was held before.
   */
  lemma {:induction false} OnlySignedStatementsApply(env: Env, s: State, wire: bytes)
    ensures var (after, out) := ImportStatement(env, s, wire);
      && !out.Imported?
      && (out.Rejected? ==> after == s)
      && (out.Applied? ==> env.statement(wire).Some? && exists c :: Candidate(env, s, env.statement(wire).value, c))
      && after.certs == s.certs && after.docs == s.docs
      && after.trust.pinned == s.trust.pinned && after.trust.cas == s.trust.cas
      && after.trust.distrusted == s.trust.distrusted
  {
    if env.statement(wire).Some? {
      SignerMeaning(env, s, env.statement(wire).value);
    }
  }

  /** An imported TCert is self-signed by the key its id names; a refused one changes nothing. */
  lemma {:induction false} OnlySelfSignedTcertsImport(env: Env, s: State, wire: bytes)
    ensures var (after, out) := ImportTcert(env, s, wire);
      && (out.Rejected? ==> after == s)
      && (out.Imported?
          <==> env.parse(wire).Some? && env.parse(wire).value.kind == SO.Tcert && SelfSigned(env, env.parse(wire).value)
                             && env.keyIdOf(env.parse(wire).value.algorithm, env.publicKey(env.parse(wire).value))
                               == env.parse(wire).value.signerKeyId)
      && (out.Imported? ==> GetCert(after.certs, out.tcertId) == Some(wire))
      && after.trust == s.trust && after.rev == s.rev && after.docs == s.docs
  {
    if TcertObjection(env, wire).None? {
      SavedIsFound(s.certs, ImportedTcertId(env, wire), wire);
    }
  }

  lemma {:induction false} SavedIsFound(certs: seq<Cert>, id: TcertId, wire: bytes)
    ensures GetCert(WithCert(certs, id, wire), id) == Some(wire)
  {
    if certs == [] || certs[0].id == id {
    } else {
      SavedIsFound(certs[1..], id, wire);
      assert WithCert(certs, id, wire)[1..] == WithCert(certs[1..], id, wire);
    }
  }

  /* ------------------------------- repeated import ------------------------------ */

  function WithoutHistory(r: RevocationState): RevocationState { r.(history := []) }

  function ForgetHistory(s: State): State { s.(rev := WithoutHistory(s.rev)) }

  /** The one kind of statement whose repetition accumulates: it names no revoker key. */
  predicate Accumulates(env: Env, s: State, wire: bytes)
  {
    var stmt := env.statement(wire);
    && stmt.Some? && SignerOf(env, s, stmt.value).Some?
    && stmt.value.action == St.RevokeTcert && stmt.value.target.TcertTarget? && stmt.value.signerKeyId == ""
  }

  lemma {:induction false} UpsertedTwice<T>(xs: seq<T>, x: T, same: T -> bool)
    requires same(x)
    ensures Upserted(Upserted(xs, x, same), x, same) == Upserted(xs, x, same)
  {
    if xs == [] || same(xs[0]) {
    } else {
      UpsertedTwice(xs[1..], x, same);
    }
  }

  lemma {:induction false} AttestationTwice(t: TrustState, a: Attestation)
    ensures WithAttestation(WithAttestation(t, a), a) == WithAttestation(t, a)
  {
    UpsertedTwice(AttestationsOf(t, a.target), a, (x: Attestation) => x.caTcertId == a.caTcertId);
  }

  lemma {:induction false} RevocationTwice(r: RevocationState, id: TcertId, e: RevocationEntry)
    ensures WithRevokedTcert(WithRevokedTcert(r, id, e), id, e) == WithRevokedTcert(r, id, e) <==> NamesRevoker(e)
  {
    var list, r1 := RevocationsOf(r, id), WithRevokedTcert(r, id, e);
    var r2 := WithRevokedTcert(r1, id, e);
    if NamesRevoker(e) {
      UpsertedTwice(list, e, (x: RevocationEntry) => x.byKeyId == e.byKeyId);
    } else {
      assert |r1.tcerts[id]| == |list| + 1 && |r2.tcerts[id]| == |list| + 2;
    }
  }

  lemma {:induction false} SignerUnchanged(env: Env, s: State, stmt: St.Statement, signer: TcertId, wire: bytes)
    ensures var s1 := ApplyStatement(env, s, stmt, signer, wire).0;
      && s1.certs == s.certs && s1.trust.cas == s.trust.cas && SignerOf(env, s1, stmt) == SignerOf(env, s, stmt)
  {
  }

  /** Importing a statement again at once changes nothing but the history, unless it accumulates. */
  lemma {:induction false} ReimportChangesNothing(env: Env, s: State, wire: bytes)
    ensures var s1 := ImportStatement(env, s, wire).0;
      ForgetHistory(ImportStatement(env, s1, wire).0) == ForgetHistory(s1) <==> !Accumulates(env, s, wire)
  {
    var stmt := env.statement(wire);
    if stmt.Some? && SignerOf(env, s, stmt.value).Some? {
      var signer := SignerOf(env, s, stmt.value).value;
      SignerUnchanged(env, s, stmt.value, signer, wire);
      ReapplyChangesNothing(env, s, stmt.value, signer, wire);
    }
  }

  lemma {:induction false} ReapplyChangesNothing(env: Env, s: State, stmt: St.Statement, signer: TcertId, wire: bytes)
    ensures var s1 := ApplyStatement(env, s, stmt, signer, wire).0;
      ForgetHistory(ApplyStatement(env, s1, stmt, signer, wire).0) == ForgetHistory(s1)
      <==> !(stmt.action == St.RevokeTcert && stmt.target.TcertTarget? && stmt.signerKeyId == "")
  {
    if stmt.action == St.Attest && stmt.target.TcertTarget? && ImportedHash(env, s, stmt.target).Ok? {
      AttestationTwice(s.trust, ImportedAttestation(stmt, signer, ImportedHash(env, s, stmt.target).value, wire));
    } else if stmt.action == St.RevokeTcert && stmt.target.TcertTarget? {
      var kind := if stmt.revocationType.Some? then stmt.revocationType.value else St.Retrospective;
      RevocationTwice(s.rev, TargetTcertId(stmt.target), ImportedRevocation(stmt, kind, signer, wire));
    }
  }

  function FirstOf<T>(xs: seq<T>, same: T -> bool): Option<T>
  {
    if xs == [] then None else if same(xs[0]) then Some(xs[0]) else FirstOf(xs[1..], same)
  }

  lemma {:induction false} UpsertedUnchanged<T>(xs: seq<T>, x: T, same: T -> bool)
    requires same(x)
    ensures Upserted(xs, x, same) == xs <==> FirstOf(xs, same) == Some(x)
  {
    if xs == [] {
    } else if same(xs[0]) {
      assert xs == [xs[0]] + xs[1..];
    } else {
      UpsertedUnchanged(xs[1..], x, same);
      assert Upserted(xs, x, same)[1..] == Upserted(xs[1..], x, same);
    }
  }

  /** What the stores already say is what the statement makes them say. */
  predicate Settled(env: Env, s: State, stmt: St.Statement, signer: TcertId, wire: bytes)
  {
    match stmt.action
    case Attest => stmt.target.TcertTarget? && ImportedHash(env, s, stmt.target).Ok? ==>
      var a := ImportedAttestation(stmt, signer, ImportedHash(env, s, stmt.target).value, wire);
      FirstOf(AttestationsOf(s.trust, a.target), (x: Attestation) => x.caTcertId == signer) == Some(a)
    case RevokeTcert =>
      var e := ImportedRevocation(stmt, if stmt.revocationType.Some? then stmt.revocationType.value
                                  else St.Retrospective, signer, wire);
      (match stmt.target
       case TcertTarget(_, _, _) => NamesRevoker(e)
         && FirstOf(RevocationsOf(s.rev, TargetTcertId(stmt.target)),
                    (x: RevocationEntry) => x.byKeyId == e.byKeyId) == Some(e)
       case KeyTarget(k) => k in s.rev.keys && s.rev.keys[k] == e
       case SdocTarget(_) => true)
    case RevokeAttestation =>
      stmt.target.TcertTarget? && AttestedBy(s.trust, TargetTcertId(stmt.target), signer) ==>
        var pair := PairKey(TargetTcertId(stmt.target), signer);
        pair in s.rev.attestations
        && s.rev.attestations[pair] == ImportedRevocation(stmt, St.Prospective, signer, wire)
    case BlockSdoc => stmt.target.SdocTarget? ==>
      stmt.target.sdocId in s.rev.blocked && s.rev.blocked[stmt.target.sdocId] == ImportedBlock(stmt, signer, wire)
    case UnblockSdoc => stmt.target.SdocTarget? ==> stmt.target.sdocId !in s.rev.blocked
    case AddTcert => true
  }

  /**
   * Importing a statement in any state, after whatever other operations, changes nothing but the history
   * exactly when the record it writes is the one that is there: refused and unattributed ones write none.
   */
  lemma {:induction false} ImportIsNoOpIff(env: Env, s: State, wire: bytes)
    ensures ForgetHistory(ImportStatement(env, s, wire).0) == ForgetHistory(s)
      <==> (env.statement(wire).Some? && SignerOf(env, s, env.statement(wire).value).Some? ==>
              Settled(env, s, env.statement(wire).value, SignerOf(env, s, env.statement(wire).value).value, wire))
  {
    var stmt := env.statement(wire);
    if stmt.Some? && SignerOf(env, s, stmt.value).Some? {
      ApplyIsNoOpIff(env, s, stmt.value, SignerOf(env, s, stmt.value).value, wire);
    }
  }

  lemma {:induction false} ApplyIsNoOpIff(env: Env, s: State, stmt: St.Statement, signer: TcertId, wire: bytes)
    ensures ForgetHistory(ApplyStatement(env, s, stmt, signer, wire).0) == ForgetHistory(s)
      <==> Settled(env, s, stmt, signer, wire)
  {
    if stmt.action == St.Attest && stmt.target.TcertTarget? && ImportedHash(env, s, stmt.target).Ok? {
      AttestationIsNoOpIff(s.trust, ImportedAttestation(stmt, signer, ImportedHash(env, s, stmt.target).value, wire));
    } else if stmt.action == St.RevokeTcert && stmt.target.TcertTarget? {
      var kind := if stmt.revocationType.Some? then stmt.revocationType.value else St.Retrospective;
      RevocationIsNoOpIff(s.rev, TargetTcertId(stmt.target), ImportedRevocation(stmt, kind, signer, wire));
    }
  }

  lemma {:induction false} AttestationIsNoOpIff(t: TrustState, a: Attestation)
    ensures WithAttestation(t, a) == t
      <==> FirstOf(AttestationsOf(t, a.target), (x: Attestation) => x.caTcertId == a.caTcertId) == Some(a)
  {
    var list, same := AttestationsOf(t, a.target), (x: Attestation) => x.caTcertId == a.caTcertId;
    UpsertedUnchanged(list, a, same);
    var t' := WithAttestation(t, a);
    assert t'.attestations[a.target] == Upserted(list, a, same);
    if FirstOf(list, same) == Some(a) {
      assert t'.attestations == t.attestations;
    }
  }

  lemma {:induction false} RevocationIsNoOpIff(r: RevocationState, id: TcertId, e: RevocationEntry)
    ensures WithoutHistory(WithRevokedTcert(r, id, e)) == WithoutHistory(r)
      <==> NamesRevoker(e)
           && FirstOf(RevocationsOf(r, id), (x: RevocationEntry) => x.byKeyId == e.byKeyId) == Some(e)
  {
    var list, same := RevocationsOf(r, id), (x: RevocationEntry) => x.byKeyId == e.byKeyId;
    var r' := WithRevokedTcert(r, id, e);
    if NamesRevoker(e) {
      UpsertedUnchanged(list, e, same);
      assert r'.tcerts[id] == Upserted(list, e, same);
      if FirstOf(list, same) == Some(e) {
        assert r'.tcerts == r.tcerts;
      }
    } else {
      assert |r'.tcerts[id]| == |list| + 1;
    }
  }

  /** The stores after a TCert of the empty key id was given to `addTcert`, which saves it before it fails. */
  lemma {:induction false} AnonymousTcertIsSaved(env: Env, tcert: bytes, p: Attesting)
    requires env.parse(tcert).Some? && env.parse(tcert).value.kind == SO.Tcert
    requires env.parse(tcert).value.signerKeyId == ""
    requires TcertIdOf("", env.certificateNumber(env.parse(tcert).value)) == p.target
    ensures var s := Apply(env, Empty(), AddTcert(Some(tcert), p));
      s == Empty().(certs := [Cert(p.target, tcert)]) && CertsOfKey(s.certs, "") == [Cert(p.target, tcert)]
  {
    assert StartsWith(p.target, "" + ":");
    assert [Cert(p.target, tcert)][1..] == [];
  }

  /**
   * Accumulation can be reached: `importTcert` refuses a TCert of the empty key id, but `addTcert` has
   * saved it when its attestation fails. Each import of a revocation signed by that TCert then adds
   * an entry.
   */
  lemma {:induction false} AccumulationIsReachable(env: Env, tcert: bytes, wire: bytes, p: Attesting)
    requires env.parse(tcert).Some? && env.parse(tcert).value.kind == SO.Tcert
    requires env.parse(tcert).value.signerKeyId == ""
    requires TcertIdOf("", env.certificateNumber(env.parse(tcert).value)) == p.target
    requires env.statement(wire).Some?
    requires var stmt := env.statement(wire).value;
      stmt.action == St.RevokeTcert && stmt.target.TcertTarget? && stmt.signerKeyId == ""
        && CanSign(env, Cert(p.target, tcert), stmt)
    ensures var add, again := AddTcert(Some(tcert), p), ImportStatementBytes(wire);
      var id := TargetTcertId(env.statement(wire).value.target);
      && Accumulates(env, Run(env, Empty(), [add]), wire)
      && |RevocationsOf(Run(env, Empty(), [add, again]).rev, id)| == 1
      && |RevocationsOf(Run(env, Empty(), [add, again, again]).rev, id)| == 2
  {
    var add, again, stmt := AddTcert(Some(tcert), p), ImportStatementBytes(wire), env.statement(wire).value;
    var s1 := Apply(env, Empty(), add);
    var s2 := Apply(env, s1, again);
    AnonymousTcertIsSaved(env, tcert, p);
    OneCandidateSigns(env, s1, Cert(p.target, tcert), stmt);
    AnonymousImport(env, s1, wire, stmt, p.target);
    AnonymousImport(env, s2, wire, stmt, p.target);
    assert [add][1..] == [] && [add, again][1..] == [again] && [again][1..] == [];
    assert [add, again, again][1..] == [again, again] && [again, again][1..] == [again];
    assert Run(env, s1, [again]) == Run(env, s2, []) && Run(env, s1, [again, again]) == Run(env, s2, [again]);
    assert Run(env, s2, [again]) == Run(env, Apply(env, s2, again), []);
  }

  lemma {:induction false} OneCandidateSigns(env: Env, s: State, c: Cert, stmt: St.Statement)
    requires CertsOfKey(s.certs, stmt.signerKeyId) == [c] && CanSign(env, c, stmt)
    ensures SignerOf(env, s, stmt) == Some(c.id)
  {
    var certs := CertsOfKey(s.certs, stmt.signerKeyId);
    assert certs[..0] == [];
    assert LastCaSigner(env, s.trust.cas, certs[..0], stmt).None?;
    assert FirstSigner(env, certs, stmt) == Some(c.id);
    assert certs[|certs| - 1] == c;
  }

  /** One import of an anonymous revocation adds one entry and leaves its signer the same. */
  lemma {:induction false} AnonymousImport(env: Env, s: State, wire: bytes, stmt: St.Statement, signer: TcertId)
    requires env.statement(wire) == Some(stmt) && SignerOf(env, s, stmt) == Some(signer)
    requires stmt.action == St.RevokeTcert && stmt.target.TcertTarget? && stmt.signerKeyId == ""
    ensures var after := Apply(env, s, ImportStatementBytes(wire));
      && |RevocationsOf(after.rev, TargetTcertId(stmt.target))|
        == |RevocationsOf(s.rev, TargetTcertId(stmt.target))| + 1
      && SignerOf(env, after, stmt) == Some(signer)
  {
    SignerUnchanged(env, s, stmt, signer, wire);
  }

  /** An environment in which everything is a TCert of the empty key id, or a statement of it. */
  function AnonymousWorld(): Env
  {
    var cose := Cose.CoseSign1([], -8, [], None, [], [], []);
    var tcert := SO.SignedObject(SO.Tcert, SO.Ed25519, "", [], [], cose);
    var revocation := St.Statement("", St.RevokeTcert, St.TcertTarget("bb", 1, None), 5, None, None, None, None, "",
                                   tcert);
    Env(w => Some(tcert), w => Some(revocation), o => Cbor.Null, o => 1, (alg, pub) => "", o => "", w => "",
        (alg, o, pub, aad) => true)
  }

  /** The instance: one run of three operations after which the TCert has two entries of the same statement. */
  lemma {:induction false} AccumulationInstance()
    ensures var add, again := AddTcert(Some([]), Attesting("", ":1", None, 0, NoKey)), ImportStatementBytes([0]);
      && Accumulates(AnonymousWorld(), Run(AnonymousWorld(), Empty(), [add]), [0])
      && |RevocationsOf(Run(AnonymousWorld(), Empty(), [add, again, again]).rev, "bb:1")| == 2
  {
    assert TcertIdOf("", 1) == ":1" && TcertIdOf("bb", 1) == "bb:1";
    AccumulationIsReachable(AnonymousWorld(), [], [0], Attesting("", ":1", None, 0, NoKey));
  }

  /* ------------------------- attestation and TCert commute ---------------------- */

  lemma {:induction false} AppendedCert(certs: seq<Cert>, id: TcertId, wire: bytes)
    requires GetCert(certs, id).None?
    ensures WithCert(certs, id, wire) == certs + [Cert(id, wire)]
    ensures forall k :: GetCert(WithCert(certs, id, wire), k) == if k == id then Some(wire) else GetCert(certs, k)
  {
    if certs == [] {
    } else {
      AppendedCert(certs[1..], id, wire);
      assert certs == [certs[0]] + certs[1..];
      forall k ensures GetCert(WithCert(certs, id, wire), k) == if k == id then Some(wire) else GetCert(certs, k) {
        assert WithCert(certs, id, wire)[1..] == WithCert(certs[1..], id, wire);
      }
    }
  }

  lemma {:induction false} AppendedCertsOfKey(certs: seq<Cert>, c: Cert, keyId: KeyId)
    ensures CertsOfKey(certs + [c], keyId)
      == CertsOfKey(certs, keyId) + (if StartsWith(c.id, keyId + ":") then [c] else [])
  {
    if certs == [] {
      assert certs + [c] == [c];
    } else {
      AppendedCertsOfKey(certs[1..], c, keyId);
      assert (certs + [c])[1..] == certs[1..] + [c];
    }
  }

  lemma {:induction false} AppendedSigner(env: Env, cas: set<TcertId>, recs: seq<Cert>, c: Cert, stmt: St.Statement)
    requires c.id !in cas && FirstSigner(env, recs, stmt).Some?
    ensures LastCaSigner(env, cas, recs + [c], stmt) == LastCaSigner(env, cas, recs, stmt)
    ensures FirstSigner(env, recs + [c], stmt) == FirstSigner(env, recs, stmt)
  {
    assert (recs + [c])[..|recs|] == recs;
    AppendedFirst(env, recs, c, stmt);
  }

  lemma {:induction false} AppendedFirst(env: Env, recs: seq<Cert>, c: Cert, stmt: St.Statement)
    requires FirstSigner(env, recs, stmt).Some?
    ensures FirstSigner(env, recs + [c], stmt) == FirstSigner(env, recs, stmt)
  {
    if CanSign(env, recs[0], stmt) {
    } else {
      AppendedFirst(env, recs[1..], c, stmt);
      assert (recs + [c])[1..] == recs[1..] + [c];
    }
  }

  lemma {:induction false} CaSignerIsFirst(env: Env, cas: set<TcertId>, recs: seq<Cert>, stmt: St.Statement)
    requires LastCaSigner(env, cas, recs, stmt).Some?
    ensures FirstSigner(env, recs, stmt).Some?
  {
    var n := |recs| - 1;
    assert recs == recs[..n] + [recs[n]];
    if CanSign(env, recs[n], stmt) {
      FirstExists(env, recs, n, stmt);
    } else {
      CaSignerIsFirst(env, cas, recs[..n], stmt);
      AppendedFirst(env, recs[..n], recs[n], stmt);
    }
  }

  lemma {:induction false} FirstExists(env: Env, recs: seq<Cert>, i: nat, stmt: St.Statement)
    requires i < |recs| && CanSign(env, recs[i], stmt)
    ensures FirstSigner(env, recs, stmt).Some?
  {
    if i == 0 {
    } else {
      FirstExists(env, recs[1..], i - 1, stmt);
    }
  }

  /** A new TCert that is not a CA does not change who a statement is attributed to. */
  lemma {:induction false} NewCertKeepsSigner(env: Env, s: State, stmt: St.Statement, id: TcertId, wire: bytes)
    requires SignerOf(env, s, stmt).Some? && GetCert(s.certs, id).None? && id !in s.trust.cas
    ensures SignerOf(env, s.(certs := WithCert(s.certs, id, wire)), stmt) == SignerOf(env, s, stmt)
  {
    AppendedCert(s.certs, id, wire);
    AppendedCertsOfKey(s.certs, Cert(id, wire), stmt.signerKeyId);
    var recs := CertsOfKey(s.certs, stmt.signerKeyId);
    if LastCaSigner(env, s.trust.cas, recs, stmt).Some? {
      CaSignerIsFirst(env, s.trust.cas, recs, stmt);
    }
    AppendedSigner(env, s.trust.cas, recs, Cert(id, wire), stmt);
    assert recs + [] == recs;
  }

  /** Two states that differ only in one attestation record, which is no trust path in either. */
  lemma {:induction false} DeadRecordIrrelevant(env: Env, s: State, a: Attestation, id: TcertId)
    requires !TrustPath(env, s, a) && !AttestedBy(s.trust, a.target, a.caTcertId)
    ensures TrustOf(env, WithTrust(s, WithAttestation(s.trust, a)), id) == TrustOf(env, s, id)
  {
    var s' := WithTrust(s, WithAttestation(s.trust, a));
    var list, same := AttestationsOf(s.trust, a.target), (x: Attestation) => x.caTcertId == a.caTcertId;
    UpsertedMembers(list, a, same);
    PathMember(env, s, id);
    PathMember(env, s', id);
    forall b ensures (b in AttestationsOf(s'.trust, id) && TrustPath(env, s', b))
      <==> (b in AttestationsOf(s.trust, id) && TrustPath(env, s, b)) {
      SamePath(env, s, s', b);
      if id == a.target && b in list {
        var i :| 0 <= i < |list| && list[i] == b;
        assert !same(b);
      }
    }
  }

  /** Saving a TCert changes what is found under its own id only. */
  lemma {:induction false} SavedCertFound(certs: seq<Cert>, id: TcertId, wire: bytes, k: TcertId)
    ensures GetCert(WithCert(certs, id, wire), k) == if k == id then Some(wire) else GetCert(certs, k)
  {
    if certs == [] {
    } else if certs[0].id == id {
      assert WithCert(certs, id, wire)[1..] == certs[1..];
    } else {
      SavedCertFound(certs[1..], id, wire, k);
      assert WithCert(certs, id, wire)[1..] == WithCert(certs[1..], id, wire);
    }
  }

  /** Whether the attestation would be refused before the TCert is imported and is the only path after it. */
  predicate OnlyAfterTcert(env: Env, s: State, stmt: St.Statement, signer: TcertId, wire: bytes, tcert: bytes,
                           id: TcertId)
    requires stmt.target.TcertTarget? && env.parse(tcert).Some?
  {
    var held, hash := GetCert(s.certs, id), env.tcertHash(env.parse(tcert).value);
    var after := s.(certs := WithCert(s.certs, id, tcert));
    && id == ImportedTcertId(env, tcert) == TargetTcertId(stmt.target)
    && stmt.target.tcertHash == Some(hash)
    && held.Some? && (env.parse(held.value).None? || env.tcertHash(env.parse(held.value).value) != hash)
    && TrustOf(env, after, id) == CannotVerify
    && TrustPath(env, after, ImportedAttestation(stmt, signer, hash, wire))
  }

  /**
   * An attestation and a TCert that leaves its signer the same can be imported in either order, with the
   * same resolved trust of every TCert, also when the content hash in the statement is missing or wrong;
   * the one exception is a TCert that replaces other bytes under its id which the attestation does not
   * bind: imported first, it lets the attestation in, and that is its only support.
   */
  lemma {:induction false} AttestationAndTcertCommute(env: Env, s: State, statement: bytes, tcert: bytes, id: TcertId)
    requires env.statement(statement).Some? && SignerOf(env, s, env.statement(statement).value).Some?
    requires TcertObjection(env, tcert).None?
    requires var stmt := env.statement(statement).value;
      && stmt.action == St.Attest && stmt.target.TcertTarget?
      && !AttestedBy(s.trust, TargetTcertId(stmt.target), SignerOf(env, s, stmt).value)
      && SignerOf(env, ImportTcert(env, s, tcert).0, stmt) == SignerOf(env, s, stmt)
    ensures var stmt := env.statement(statement).value;
      TrustOf(env, ImportTcert(env, ImportStatement(env, s, statement).0, tcert).0, id)
      == TrustOf(env, ImportStatement(env, ImportTcert(env, s, tcert).0, statement).0, id)
      <==> !OnlyAfterTcert(env, s, stmt, SignerOf(env, s, stmt).value, statement, tcert, id)
  {
    var stmt := env.statement(statement).value;
    var signer, target, t := SignerOf(env, s, stmt).value, TargetTcertId(stmt.target), ImportedTcertId(env, tcert);
    var after := s.(certs := WithCert(s.certs, t, tcert));
    SavedCertFound(s.certs, t, tcert, target);
    OrdersAsApplied(env, s, after, stmt, signer, statement, tcert);
    if t != target {
      UnrelatedTcert(env, s, after, stmt, signer, statement);
    } else if stmt.target.tcertHash == Some(env.tcertHash(env.parse(tcert).value)) {
      BoundTcert(env, s, after, stmt, signer, statement, tcert, id);
    } else {
      UnboundTcert(env, s, after, stmt, signer, statement, tcert, id);
    }
  }

  lemma {:induction false} UnrelatedTcert(env: Env, s: State, after: State, stmt: St.Statement, signer: TcertId,
                                          wire: bytes)
    requires stmt.action == St.Attest && stmt.target.TcertTarget? && after == s.(certs := after.certs)
    requires GetCert(after.certs, TargetTcertId(stmt.target)) == GetCert(s.certs, TargetTcertId(stmt.target))
    ensures ApplyStatement(env, s, stmt, signer, wire).0.(certs := after.certs)
      == ApplyStatement(env, after, stmt, signer, wire).0
  {
  }

  /** The two orders, as the statement being applied before or after the TCert is saved. */
  lemma {:induction false} OrdersAsApplied(env: Env, s: State, after: State, stmt: St.Statement, signer: TcertId,
                                           statement: bytes, tcert: bytes)
    requires env.statement(statement) == Some(stmt) && stmt.action == St.Attest && TcertObjection(env, tcert).None?
    requires after == ImportTcert(env, s, tcert).0
    requires SignerOf(env, s, stmt) == SignerOf(env, after, stmt) == Some(signer)
    ensures ImportTcert(env, ImportStatement(env, s, statement).0, tcert).0
         == ApplyStatement(env, s, stmt, signer, statement).0.(certs := after.certs)
    ensures ImportStatement(env, after, statement).0 == ApplyStatement(env, after, stmt, signer, statement).0
  {
  }

  /** The statement's attestation as stored, when it is stored. */
  lemma {:induction false} AppliedAttestation(env: Env, s: State, after: State, stmt: St.Statement, signer: TcertId,
                                              wire: bytes)
    requires stmt.action == St.Attest && stmt.target.TcertTarget? && after == s.(certs := after.certs)
    ensures var hash := ImportedHash(env, s, stmt.target);
      ApplyStatement(env, s, stmt, signer, wire).0.(certs := after.certs)
      == if hash.Ok? then
        WithTrust(after, WithAttestation(s.trust, ImportedAttestation(stmt, signer, hash.value, wire))) else after
  {
  }

  lemma {:induction false} BoundTcert(env: Env, s: State, after: State, stmt: St.Statement, signer: TcertId,
                                      wire: bytes, tcert: bytes, id: TcertId)
    requires stmt.action == St.Attest && stmt.target.TcertTarget? && env.statement(wire) == Some(stmt)
    requires env.parse(tcert).Some?
    requires ImportedTcertId(env, tcert) == TargetTcertId(stmt.target)
    requires after == s.(certs := WithCert(s.certs, TargetTcertId(stmt.target), tcert))
    requires GetCert(after.certs, TargetTcertId(stmt.target)) == Some(tcert)
    requires stmt.target.tcertHash == Some(env.tcertHash(env.parse(tcert).value))
    requires !AttestedBy(s.trust, TargetTcertId(stmt.target), signer)
    ensures TrustOf(env, ApplyStatement(env, s, stmt, signer, wire).0.(certs := after.certs), id)
         == TrustOf(env, ApplyStatement(env, after, stmt, signer, wire).0, id)
      <==> !OnlyAfterTcert(env, s, stmt, signer, wire, tcert, id)
  {
    var a := ImportedAttestation(stmt, signer, env.tcertHash(env.parse(tcert).value), wire);
    AppliedAttestation(env, s, after, stmt, signer, wire);
    AppliedAttestation(env, after, after, stmt, signer, wire);
    NewAttestationAdds(env, after, a);
    if id != a.target {
      OtherTrustStays(env, after, a, id);
    }
  }

  /** An attestation leaves the trust of other TCerts alone. */
  lemma {:induction false} OtherTrustStays(env: Env, s: State, a: Attestation, id: TcertId)
    requires id != a.target
    ensures TrustOf(env, WithTrust(s, WithAttestation(s.trust, a)), id) == TrustOf(env, s, id)
  {
    var s' := WithTrust(s, WithAttestation(s.trust, a));
    PathMember(env, s, id);
    PathMember(env, s', id);
    forall b ensures TrustPath(env, s', b) <==> TrustPath(env, s, b) {
      SamePath(env, s, s', b);
    }
  }

  lemma {:induction false} UnboundTcert(env: Env, s: State, after: State, stmt: St.Statement, signer: TcertId,
                                        wire: bytes, tcert: bytes, id: TcertId)
    requires stmt.action == St.Attest && stmt.target.TcertTarget? && env.statement(wire) == Some(stmt)
    requires env.parse(tcert).Some?
    requires after == s.(certs := WithCert(s.certs, TargetTcertId(stmt.target), tcert))
    requires GetCert(after.certs, TargetTcertId(stmt.target)) == Some(tcert)
    requires stmt.target.tcertHash != Some(env.tcertHash(env.parse(tcert).value))
    requires !AttestedBy(s.trust, TargetTcertId(stmt.target), signer)
    ensures TrustOf(env, ApplyStatement(env, s, stmt, signer, wire).0.(certs := after.certs), id)
      == TrustOf(env, after, id)
    ensures TrustOf(env, ApplyStatement(env, after, stmt, signer, wire).0, id) == TrustOf(env, after, id)
  {
    AppliedAttestation(env, s, after, stmt, signer, wire);
    AppliedAttestation(env, after, after, stmt, signer, wire);
    if ImportedHash(env, s, stmt.target).Ok? {
      DeadRecordIrrelevant(env, after,
                           ImportedAttestation(stmt, signer, ImportedHash(env, s, stmt.target).value, wire), id);
    }
    if ImportedHash(env, after, stmt.target).Ok? {
      DeadRecordIrrelevant(env, after,
                           ImportedAttestation(stmt, signer, ImportedHash(env, after, stmt.target).value, wire), id);
    }
  }

  /** A TCert whose id was not held and is no CA leaves the signer the same, so that the order never matters. */
  lemma {:induction false} NewTcertCommutes(env: Env, s: State, statement: bytes, tcert: bytes, id: TcertId)
    requires env.statement(statement).Some? && SignerOf(env, s, env.statement(statement).value).Some?
    requires var stmt := env.statement(statement).value;
      && stmt.action == St.Attest && stmt.target.TcertTarget?
      && !AttestedBy(s.trust, TargetTcertId(stmt.target), SignerOf(env, s, stmt).value)
    requires TcertObjection(env, tcert).None? ==>
      GetCert(s.certs, ImportedTcertId(env, tcert)).None? && ImportedTcertId(env, tcert) !in s.trust.cas
    ensures TrustOf(env, ImportTcert(env, ImportStatement(env, s, statement).0, tcert).0, id)
         == TrustOf(env, ImportStatement(env, ImportTcert(env, s, tcert).0, statement).0, id)
  {
    if TcertObjection(env, tcert).None? {
      NewCertKeepsSigner(env, s, env.statement(statement).value, ImportedTcertId(env, tcert), tcert);
      AttestationAndTcertCommute(env, s, statement, tcert, id);
    }
  }
}
