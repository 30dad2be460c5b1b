/** The services: methods over the shared stores, as the callers of the library use them. */
module Services {
  import opened Bytes
  import opened Ids
  import opened MemoryStores
  import opened ServiceState
  import Op = Operations
  import SO = SignedObjects
  import St = Statements

  /** `ServiceDeps`: the stores and external services every service is constructed with. */
  class ServiceDeps {
    const env: Env
    const certificateStore: InMemoryCertificateStore
    const documentStore: InMemoryDocumentStore
    const trustStore: InMemoryTrustStore
    const revocationStore: InMemoryRevocationStore

    constructor (env: Env)
      ensures this.env == env && State() == Op.Empty()
      ensures fresh(certificateStore) && fresh(documentStore) && fresh(trustStore) && fresh(revocationStore)
    {
      this.env := env;
      certificateStore := new InMemoryCertificateStore();
      documentStore := new InMemoryDocumentStore();
      trustStore := new InMemoryTrustStore();
      revocationStore := new InMemoryRevocationStore();
    }

    function State(): State
      reads certificateStore, documentStore, trustStore, revocationStore
    {
      ServiceState.State.State(certificateStore.certs, documentStore.docs, trustStore.State(), revocationStore.State())
    }
  }

  /** The first of the attestations that is a trust path. */
  ghost predicate FirstPath(env: Env, s: State, list: seq<Attestation>, a: Attestation)
  {
    exists i :: 0 <= i < |list| && list[i] == a && TrustPath(env, s, a) && forall j :: 0 <= j < i ==>
      !TrustPath(env, s, list[j])
  }

  /** What `resolveTrust` reports; `ca` is the attestation whose CA it names. */
  datatype TrustResolution = TrustResolution(state: ComponentState, pinned: bool, ca: Option<Attestation>)

  class TrustService {
    const deps: ServiceDeps

    constructor (deps: ServiceDeps)
      ensures this.deps == deps
    {
      this.deps := deps;
    }

    method Pin(id: TcertId) returns (r: Result<bytes>)
      modifies deps.trustStore
      ensures Op.Step(deps.State(), r) == Op.PinStep(old(deps.State()), id)
    {
      var wire := deps.certificateStore.Get(id);
      if wire.None? {
        return Err(NotFoundError);
      }
      deps.trustStore.AddPinned(id);
      return Ok([]);
    }

    method Unpin(id: TcertId)
      modifies deps.trustStore
      ensures deps.State() == Op.Apply(deps.env, old(deps.State()), Op.Unpin(id))
    {
      deps.trustStore.RemovePinned(id);
    }

    method AddCa(id: TcertId) returns (r: Result<bytes>)
      modifies deps.trustStore
      ensures Op.Step(deps.State(), r) == Op.AddCaStep(old(deps.State()), id)
    {
      var wire := deps.certificateStore.Get(id);
      if wire.None? {
        return Err(NotFoundError);
      }
      deps.trustStore.AddCa(id);
      return Ok([]);
    }

    method RemoveCa(id: TcertId)
      modifies deps.trustStore
      ensures deps.State() == Op.Apply(deps.env, old(deps.State()), Op.RemoveCa(id))
    {
      deps.trustStore.RemoveCa(id);
    }

    method Distrust(id: TcertId)
      modifies deps.trustStore
      ensures deps.State() == Op.Apply(deps.env, old(deps.State()), Op.Distrust(id))
    {
      deps.trustStore.AddDistrust(id);
    }

    method TrustAgain(id: TcertId)
      modifies deps.trustStore
      ensures deps.State() == Op.Apply(deps.env, old(deps.State()), Op.TrustAgain(id))
    {
      deps.trustStore.RemoveDistrust(id);
    }

    method Parsed(id: TcertId) returns (r: Result<SO.SignedObject>)
      ensures r == Op.ParsedCert(deps.env, deps.State(), id)
    {
      var wire := deps.certificateStore.Get(id);
      if wire.None? {
        return Err(NotFoundError);
      }
      var o := deps.env.parse(wire.value);
      return if o.None? then Err(ParseError) else Ok(o.value);
    }

    /** A CA attests a TCert, once. */
    method Attest(p: Op.Attesting) returns (r: Result<bytes>)
      modifies deps.trustStore
      ensures Op.Step(deps.State(), r) == Op.AttestStep(deps.env, old(deps.State()), p)
    {
      if p.ca !in deps.trustStore.cas {
        return Err(AuthorizationError);
      }
      var existing := deps.trustStore.GetAttestations(p.target);
      var duplicate := AnyMatch(existing, (a: Attestation) => a.caTcertId == p.ca);
      if duplicate {
        return Err(ValidationError);
      }
      var ca :- Parsed(p.ca);
      if p.signing.NoKey? {
        return Err(NotFoundError);
      }
      var parts :- SplitTcertId(p.target);
      var target :- Parsed(p.target);
      var tcertHash := deps.env.tcertHash(target);
      var about := St.TcertTarget(parts.0, parts.1, Some(tcertHash));
      var wire :- Op.Statement(p.signing,
                               Op.Draft(St.Attest, about, p.issuedAt, St.Options(None, None, p.claims, None)));
      deps.trustStore.AddAttestation(
        Attestation(p.target, ca.signerKeyId, p.ca, tcertHash, St.Dictionary(p.claims), p.issuedAt, wire));
      return Ok(wire);
    }

    /** Save the target TCert first when its bytes are given, then attest it. */
    method AddTcert(tcertBytes: Option<bytes>, p: Op.Attesting) returns (r: Result<bytes>)
      modifies deps.trustStore, deps.certificateStore
      ensures Op.Step(deps.State(), r) == Op.AddTcertStep(deps.env, old(deps.State()), tcertBytes, p)
    {
      if tcertBytes.Some? {
        var o := deps.env.parse(tcertBytes.value);
        if o.None? {
          return Err(ParseError);
        }
        if o.value.kind != SO.Tcert {
          return Err(ValidationError);
        }
        var id := TcertIdOf(o.value.signerKeyId, deps.env.certificateNumber(o.value));
        if id != p.target {
          return Err(ValidationError);
        }
        deps.certificateStore.Save(id, tcertBytes.value);
      }
      r := Attest(p);
    }

    /** The strongest trust state: distrust wins, then pinning, then the first valid attestation. */
    method ResolveTrust(id: TcertId) returns (t: TrustResolution)
      ensures t.state == TrustOf(deps.env, deps.State(), id)
      ensures t.pinned <==> id in deps.trustStore.pinned && id !in deps.trustStore.distrusted
      ensures t.ca.Some? <==> id !in deps.trustStore.distrusted && HasTrustPath(deps.env, deps.State(), id)
      ensures t.ca.Some? ==> FirstPath(deps.env, deps.State(), AttestationsOf(deps.State().trust, id), t.ca.value)
    {
      if id in deps.trustStore.distrusted {
        return TrustResolution(Invalid, false, None);
      }
      var attestations := deps.trustStore.GetAttestations(id);
      var ca: Option<Attestation> := None;
      for i := 0 to |attestations|
        invariant ca.None?
        invariant forall j :: 0 <= j < i ==> !TrustPath(deps.env, deps.State(), attestations[j])
      {
        var revoked := deps.revocationStore.IsRevokedAttestation(attestations[i].target, attestations[i].caTcertId);
        if !revoked {
          var valid := IsValidAttestation(attestations[i]);
          if valid {
            assert TrustPath(deps.env, deps.State(), attestations[i]);
            assert FirstPath(deps.env, deps.State(), attestations, attestations[i]);
            ca := Some(attestations[i]);
            break;
          }
        }
      }
      if id in deps.trustStore.pinned {
        return TrustResolution(Valid, true, ca);
      }
      return TrustResolution(if ca.Some? then Valid else CannotVerify, false, ca);
    }

    method IsTrustedCa(ca: TcertId) returns (ok: bool)
      ensures ok <==> TrustedCa(deps.State(), ca)
    {
      if ca in deps.trustStore.distrusted {
        return false;
      }
      var entry := deps.revocationStore.GetRevokedTcert(ca);
      if entry.Some? {
        return false;
      }
      return ca in deps.trustStore.pinned || ca in deps.trustStore.cas;
    }

    /** The record end to end: the CA, the statement, the content hash, and the signature. */
    method IsValidAttestation(a: Attestation) returns (ok: bool)
      ensures ok <==> ValidAttestation(deps.env, deps.State(), a)
    {
      var caBytes := deps.certificateStore.Get(a.caTcertId);
      if caBytes.None? {
        return false;
      }
      var ca := deps.env.parse(caBytes.value);
      if ca.None? || ca.value.kind != SO.Tcert {
        return false;
      }
      var pub := deps.env.publicKey(ca.value);
      if !deps.env.verifies(ca.value.algorithm, ca.value, pub, []) {
        return false;
      }
      var trusted := IsTrustedCa(a.caTcertId);
      if !trusted || a.caKeyId in deps.revocationStore.revokedKey {
        return false;
      }
      var stmt := deps.env.statement(a.statement);
      if stmt.None? || stmt.value.action != St.Attest || !stmt.value.target.TcertTarget? {
        return false;
      }
      var about := stmt.value.target;
      if TcertIdOf(about.keyId, about.certificateNumber) != a.target || stmt.value.signerKeyId != a.caKeyId {
        return false;
      }
      var targetBytes := deps.certificateStore.Get(a.target);
      if targetBytes.None? {
        return false;
      }
      var target := deps.env.parse(targetBytes.value);
      if target.None? || deps.env.tcertHash(target.value) != a.tcertHash || about.tcertHash != Some(a.tcertHash) {
        return false;
      }
      return deps.env.verifies(ca.value.algorithm, stmt.value.signed, pub, []);
    }
  }

  /** `Array.prototype.some`. */
  method AnyMatch<T>(xs: seq<T>, p: T -> bool) returns (found: bool)
    ensures found <==> exists i :: 0 <= i < |xs| && p(xs[i])
  {
    for i := 0 to |xs|
      invariant forall j :: 0 <= j < i ==> !p(xs[j])
    {
      if p(xs[i]) {
        return true;
      }
    }
    return false;
  }

  class RevocationService {
    const deps: ServiceDeps

    constructor (deps: ServiceDeps)
      ensures this.deps == deps
    {
      this.deps := deps;
    }

    /** A CA withdraws its attestation; the target itself is not revoked. */
    method RevokeAttestation(q: Op.Request) returns (r: Result<bytes>)
      modifies deps.revocationStore
      ensures Op.Step(deps.State(), r) == Op.RevokeAttestationStep(old(deps.State()), q)
    {
      var ca :- SplitTcertId(q.signer);
      var target :- SplitTcertId(q.subject);
      var attestations := deps.trustStore.GetAttestations(q.subject);
      var attested := AnyMatch(attestations, (a: Attestation) => a.caTcertId == q.signer);
      if !attested {
        return Err(AuthorizationError);
      }
      var about := St.TcertTarget(target.0, target.1, None);
      var options := St.Options(q.reason, Some(St.Prospective), None, None);
      var wire :- Op.Statement(q.signing, Op.Draft(St.RevokeAttestation, about, q.issuedAt, options));
      deps.revocationStore.AddRevokedAttestation(q.subject, q.signer,
        RevocationEntry(St.Prospective, q.issuedAt, q.reason, Some(ca.0), Some(q.signer), Some(wire)));
      return Ok(wire);
    }

    method RevokeTcert(q: Op.Request, kind: St.RevocationType) returns (r: Result<bytes>)
      modifies deps.revocationStore
      ensures Op.Step(deps.State(), r) == Op.RevokeTcertStep(deps.env, old(deps.State()), q, kind)
    {
      var target :- SplitTcertId(q.subject);
      var authorized := q.signer == target.0;
      if !authorized {
        authorized := IsAuthorizedCa(q.signer, q.subject);
      }
      if !authorized {
        return Err(AuthorizationError);
      }
      var about := St.TcertTarget(target.0, target.1, None);
      var options := St.Options(q.reason, Some(kind), None, None);
      var wire :- Op.Statement(q.signing, Op.Draft(St.RevokeTcert, about, q.issuedAt, options));
      deps.revocationStore.AddRevokedTcert(q.subject,
        RevocationEntry(kind, q.issuedAt, q.reason, Some(q.signer), None, Some(wire)));
      return Ok(wire);
    }

    method RevokeKey(q: Op.Request) returns (r: Result<bytes>)
      modifies deps.revocationStore
      ensures Op.Step(deps.State(), r) == Op.RevokeKeyStep(old(deps.State()), q)
    {
      if q.signer != q.subject {
        return Err(AuthorizationError);
      }
      var options := St.Options(q.reason, Some(St.Retrospective), None, None);
      var wire :- Op.Statement(q.signing, Op.Draft(St.RevokeTcert, St.KeyTarget(q.subject), q.issuedAt, options));
      deps.revocationStore.AddRevokedKey(q.subject,
        RevocationEntry(St.Retrospective, q.issuedAt, q.reason, Some(q.signer), None, Some(wire)));
      return Ok(wire);
    }

    method Authority(signer: KeyId, sdocId: string) returns (r: Result<bool>)
      ensures r == Op.BlockAuthority(deps.env, deps.State(), signer, sdocId)
    {
      var sdocBytes := deps.documentStore.Get(sdocId);
      if sdocBytes.None? {
        return Err(NotFoundError);
      }
      var o := deps.env.parse(sdocBytes.value);
      if o.None? {
        return Err(ParseError);
      }
      var n :- Op.TcertNumberOf(o.value);
      var authorized := signer == o.value.signerKeyId;
      if !authorized {
        authorized := IsAuthorizedCa(signer, TcertIdOf(o.value.signerKeyId, n));
      }
      return if authorized then Ok(true) else Err(AuthorizationError);
    }

    method BlockSdoc(q: Op.Request) returns (r: Result<bytes>)
      modifies deps.revocationStore
      ensures Op.Step(deps.State(), r) == Op.BlockStep(deps.env, old(deps.State()), q, true)
    {
      var authority :- Authority(q.signer, q.subject);
      var options := St.Options(q.reason, None, None, None);
      var wire :- Op.Statement(q.signing, Op.Draft(St.BlockSdoc, St.SdocTarget(q.subject), q.issuedAt, options));
      deps.revocationStore.AddBlockedSdoc(q.subject,
                                          BlockEntry(q.issuedAt, q.reason, Some(q.signer), None, Some(wire)));
      return Ok(wire);
    }

    method UnblockSdoc(q: Op.Request) returns (r: Result<bytes>)
      modifies deps.revocationStore
      ensures Op.Step(deps.State(), r) == Op.BlockStep(deps.env, old(deps.State()), q, false)
    {
      var authority :- Authority(q.signer, q.subject);
      var options := St.Options(q.reason, None, None, None);
      var wire :- Op.Statement(q.signing, Op.Draft(St.UnblockSdoc, St.SdocTarget(q.subject), q.issuedAt, options));
      deps.revocationStore.RemoveBlockedSdoc(q.subject,
                                             BlockEntry(q.issuedAt, q.reason, Some(q.signer), None, Some(wire)));
      return Ok(wire);
    }

    /** Key first, then TCert, then the block list. */
    method CheckRevocation(tcertId: TcertId, keyId: KeyId, issuedAt: int,
                           sdocId: string) returns (state: ComponentState)
      ensures state == RevocationCheck(deps.State().rev, tcertId, keyId, issuedAt, sdocId)
    {
      if keyId in deps.revocationStore.revokedKey {
        return Invalid;
      }
      var entry := deps.revocationStore.GetRevokedTcert(tcertId);
      if entry.Some? {
        if entry.value.kind.Retrospective? || issuedAt >= entry.value.issuedAt {
          return Invalid;
        }
        return Valid;
      }
      return if sdocId in deps.revocationStore.blockedSdoc then Invalid else Valid;
    }

    method IsAuthorizedCa(signer: KeyId, target: TcertId) returns (ok: bool)
      ensures ok <==> AuthorizedCa(deps.env, deps.State(), signer, target)
    {
      var attestations := deps.trustStore.GetAttestations(target);
      for i := 0 to |attestations|
        invariant forall j :: 0 <= j < i ==> !AuthorizingAttestation(deps.env, deps.State(), signer, attestations[j])
      {
        var a := attestations[i];
        if a.caKeyId != signer {
          continue;
        }
        var caBytes := deps.certificateStore.Get(a.caTcertId);
        if caBytes.None? || deps.env.parse(caBytes.value).None? {
          continue;
        }
        var entry := deps.revocationStore.GetRevokedTcert(a.caTcertId);
        if entry.Some? || signer in deps.revocationStore.revokedKey || a.caTcertId in deps.trustStore.distrusted {
          continue;
        }
        if a.caTcertId !in deps.trustStore.pinned && a.caTcertId !in deps.trustStore.cas {
          continue;
        }
        assert AuthorizingAttestation(deps.env, deps.State(), signer, attestations[i]);
        return true;
      }
      return false;
    }
  }

  /** What one more candidate changes about the two signers found so far. */
  lemma {:induction false} NextSigner(env: Env, cas: set<TcertId>, recs: seq<Cert>, i: nat, stmt: St.Statement)
    requires i < |recs|
    ensures LastCaSigner(env, cas, recs[..i + 1], stmt)
         == if CanSign(env, recs[i], stmt) && recs[i].id in cas then Some(recs[i].id)
           else LastCaSigner(env, cas, recs[..i], stmt)
    ensures FirstSigner(env, recs[..i + 1], stmt)
         == var before := FirstSigner(env, recs[..i], stmt);
            if before.None? && CanSign(env, recs[i], stmt) then Some(recs[i].id) else before
  {
    assert recs[..i + 1][..i] == recs[..i] && recs[..i + 1][i] == recs[i];
    FirstSignerAppend(env, recs[..i], recs[i], stmt);
    assert recs[..i] + [recs[i]] == recs[..i + 1];
  }

  lemma {:induction false} FirstSignerAppend(env: Env, recs: seq<Cert>, c: Cert, stmt: St.Statement)
    ensures FirstSigner(env, recs + [c], stmt)
         == var before := FirstSigner(env, recs, stmt);
            if before.None? && CanSign(env, c, stmt) then Some(c.id) else before
  {
    if recs == [] {
      assert recs + [c] == [c];
    } else {
      FirstSignerAppend(env, recs[1..], c, stmt);
      assert (recs + [c])[1..] == recs[1..] + [c];
    }
  }

  class OnlineService {
    const deps: ServiceDeps

    constructor (deps: ServiceDeps)
      ensures this.deps == deps
    {
      this.deps := deps;
    }

    /** Whether the statement verifies under the key of a local object that is a TCert. */
    method Verifies(rec: Cert, stmt: St.Statement) returns (ok: bool)
      ensures ok <==> CanSign(deps.env, rec, stmt)
    {
      var o := deps.env.parse(rec.wire);
      if o.None? || o.value.kind != SO.Tcert {
        return false;
      }
      var pub := deps.env.publicKey(o.value);
      return deps.env.verifies(o.value.algorithm, stmt.signed, pub, []);
    }

    /** The TCert whose key verifies the statement; a CA is preferred. */
    method FindSigner(stmt: St.Statement) returns (signer: Option<TcertId>)
      ensures signer == SignerOf(deps.env, deps.State(), stmt)
    {
      var recs := deps.certificateStore.FindByKeyId(stmt.signerKeyId);
      var caPreferred: Option<TcertId> := None;
      var fallback: Option<TcertId> := None;
      for i := 0 to |recs|
        invariant caPreferred == LastCaSigner(deps.env, deps.trustStore.cas, recs[..i], stmt)
        invariant fallback == FirstSigner(deps.env, recs[..i], stmt)
      {
        NextSigner(deps.env, deps.trustStore.cas, recs, i, stmt);
        var signs := Verifies(recs[i], stmt);
        if signs {
          if recs[i].id in deps.trustStore.cas {
            caPreferred := Some(recs[i].id);
          }
          if fallback.None? {
            fallback := Some(recs[i].id);
          }
        }
      }
      assert recs[..|recs|] == recs;
      return if caPreferred.Some? then caPreferred else fallback;
    }

    /** Verify a downloaded statement against the TCerts held, and apply it. */
    method ImportStatement(wire: bytes) returns (out: Outcome)
      modifies deps.trustStore, deps.revocationStore
      ensures (deps.State(), out) == ServiceState.ImportStatement(deps.env, old(deps.State()), wire)
    {
      var parsed := deps.env.statement(wire);
      if parsed.None? {
        return Rejected(Malformed);
      }
      var stmt := parsed.value;
      var found := FindSigner(stmt);
      if found.None? {
        return Rejected(NoSigner);
      }
      var signer, t := found.value, stmt.target;
      match stmt.action
      case Attest =>
        out := ImportAttestation(stmt, signer, wire);
      case RevokeTcert =>
        var kind := if stmt.revocationType.Some? then stmt.revocationType.value else St.Retrospective;
        var entry := RevocationEntry(kind, stmt.issuedAt, stmt.reason, Some(stmt.signerKeyId), Some(signer),
                                     Some(wire));
        match t {
          case TcertTarget(_, _, _) =>
            deps.revocationStore.AddRevokedTcert(TargetTcertId(t), entry);
            return Applied(St.RevokeTcert, TargetTcertId(t));
          case KeyTarget(k) =>
            deps.revocationStore.AddRevokedKey(k, entry);
            return Applied(St.RevokeTcert, k);
          case SdocTarget(_) =>
            return Rejected(UnsupportedTarget);
        }
      case RevokeAttestation =>
        if !t.TcertTarget? {
          return Rejected(UnsupportedTarget);
        }
        var attestations := deps.trustStore.GetAttestations(TargetTcertId(t));
        var attested := AnyMatch(attestations, (a: Attestation) => a.caTcertId == signer);
        if !attested {
          return Rejected(AttestationNotFound);
        }
        deps.revocationStore.AddRevokedAttestation(TargetTcertId(t), signer,
          RevocationEntry(St.Prospective, stmt.issuedAt, stmt.reason, Some(stmt.signerKeyId), Some(signer),
                          Some(wire)));
        return Applied(St.RevokeAttestation, TargetTcertId(t));
      case BlockSdoc =>
        if !t.SdocTarget? {
          return Rejected(UnsupportedTarget);
        }
        deps.revocationStore.AddBlockedSdoc(t.sdocId,
          BlockEntry(stmt.issuedAt, stmt.reason, Some(stmt.signerKeyId), Some(signer), Some(wire)));
        return Applied(St.BlockSdoc, t.sdocId);
      case UnblockSdoc =>
        if !t.SdocTarget? {
          return Rejected(UnsupportedTarget);
        }
        deps.revocationStore.RemoveBlockedSdoc(t.sdocId,
          BlockEntry(stmt.issuedAt, stmt.reason, Some(stmt.signerKeyId), Some(signer), Some(wire)));
        return Applied(St.UnblockSdoc, t.sdocId);
      case AddTcert =>
        return Rejected(UnsupportedAction);
    }

    /** The content hash is checked when the target is held, and deferred otherwise. */
    method ImportAttestation(stmt: St.Statement, signer: TcertId, wire: bytes) returns (out: Outcome)
      requires stmt.action == St.Attest
      modifies deps.trustStore
      ensures (deps.State(), out) == ApplyStatement(deps.env, old(deps.State()), stmt, signer, wire)
    {
      var t := stmt.target;
      if !t.TcertTarget? {
        return Rejected(UnsupportedTarget);
      }
      var id := TargetTcertId(t);
      var targetBytes := deps.certificateStore.Get(id);
      var tcertHash := if t.tcertHash.Some? then t.tcertHash.value else "";
      if targetBytes.Some? {
        var o := deps.env.parse(targetBytes.value);
        if o.None? {
          return Rejected(MalformedTarget);
        }
        var computed := deps.env.tcertHash(o.value);
        if t.tcertHash.Some? && t.tcertHash.value != computed {
          return Rejected(HashMismatch);
        }
        tcertHash := computed;
      }
      deps.trustStore.AddAttestation(Attestation(id, stmt.signerKeyId, signer, tcertHash, stmt.claims, stmt.issuedAt,
                                                 wire));
      return Applied(St.Attest, id);
    }

    /** Verify a downloaded TCert's own signature and key id, and keep it. */
    method ImportTcert(wire: bytes) returns (out: Outcome)
      modifies deps.certificateStore
      ensures (deps.State(), out) == ServiceState.ImportTcert(deps.env, old(deps.State()), wire)
    {
      var o := deps.env.parse(wire);
      if o.None? {
        return Rejected(Malformed);
      }
      if o.value.kind != SO.Tcert {
        return Rejected(NotATcert);
      }
      var id := TcertIdOf(o.value.signerKeyId, deps.env.certificateNumber(o.value));
      var pub := deps.env.publicKey(o.value);
      if !deps.env.verifies(o.value.algorithm, o.value, pub, []) {
        return Rejected(BadSelfSignature);
      }
      if deps.env.keyIdOf(o.value.algorithm, pub) != o.value.signerKeyId {
        return Rejected(KeyIdMismatch);
      }
      deps.certificateStore.Save(id, wire);
      return Imported(id);
    }
  }
}
