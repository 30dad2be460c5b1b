/** What every operation keeps: one attestation per (target, CA), one revocation per revoker. */
module StoreInvariants {
  import opened Bytes
  import opened Ids
  import opened Operations
  import opened ServiceState
  import St = Statements

  /* ----------------------------------- lists ------------------------------------ */

  ghost predicate Apart<T>(xs: seq<T>, apart: (T, T) -> bool)
  {
    forall i, j :: 0 <= i < j < |xs| ==> apart(xs[i], xs[j])
  }

  lemma {:induction false} UpsertedMembers<T>(xs: seq<T>, x: T, same: T -> bool)
    ensures x in Upserted(xs, x, same)
    ensures forall y :: y in xs && !same(y) ==> y in Upserted(xs, x, same)
    ensures forall y :: y in Upserted(xs, x, same) ==> y == x || y in xs
  {
    if xs == [] {
    } else {
      assert xs == [xs[0]] + xs[1..];
      if same(xs[0]) {
        forall y | y in xs && !same(y) ensures y in Upserted(xs, x, same) {
          assert y in xs[1..];
        }
      } else {
        UpsertedMembers(xs[1..], x, same);
      }
    }
  }

  /** Replacing the one match keeps the elements apart. */
  lemma {:induction false} UpsertedApart<T>(xs: seq<T>, x: T, same: T -> bool, apart: (T, T) -> bool)
    requires Apart(xs, apart)
    requires forall y :: y in xs && !same(y) ==> apart(y, x) && apart(x, y)
    requires forall y, z :: y in xs && z in xs && same(y) && apart(y, z) ==> !same(z)
    ensures Apart(Upserted(xs, x, same), apart)
  {
    if xs == [] {
    } else {
      var t := xs[1..];
      assert xs == [xs[0]] + t;
      TailApart(xs, apart);
      if same(xs[0]) {
        var r := Upserted(xs, x, same);
        forall i, j | 0 <= i < j < |r| ensures apart(r[i], r[j]) {
          assert r[j] == xs[j] && r[j] in xs && apart(xs[0], xs[j]) && (i > 0 ==> r[i] == xs[i]);
        }
      } else {
        UpsertedApart(t, x, same, apart);
        UpsertedMembers(t, x, same);
        forall y | y in Upserted(t, x, same) ensures apart(xs[0], y) {
          if y != x { HeadApart(xs, y, apart); }
        }
        ConsApart(xs[0], Upserted(t, x, same), apart);
      }
    }
  }

  lemma {:induction false} TailApart<T>(xs: seq<T>, apart: (T, T) -> bool)
    requires xs != [] && Apart(xs, apart)
    ensures Apart(xs[1..], apart)
  {
    var t := xs[1..];
    forall i, j | 0 <= i < j < |t| ensures apart(t[i], t[j]) { assert apart(xs[i + 1], xs[j + 1]); }
  }

  lemma {:induction false} ConsApart<T>(x: T, t: seq<T>, apart: (T, T) -> bool)
    requires Apart(t, apart) && forall y :: y in t ==> apart(x, y)
    ensures Apart([x] + t, apart)
  {
    var r := [x] + t;
    forall i, j | 0 <= i < j < |r| ensures apart(r[i], r[j]) {
      assert r[j] == t[j - 1] && r[j] in t && (i > 0 ==> r[i] == t[i - 1]);
    }
  }

  lemma {:induction false} HeadApart<T>(xs: seq<T>, y: T, apart: (T, T) -> bool)
    requires xs != [] && Apart(xs, apart) && y in xs[1..]
    ensures apart(xs[0], y)
  {
    var k :| 0 <= k < |xs[1..]| && xs[1..][k] == y;
    assert apart(xs[0], xs[k + 1]);
  }

  /* --------------------------------- invariants --------------------------------- */

  predicate OtherCa(a: Attestation, b: Attestation) { a.caTcertId != b.caTcertId }

  predicate OtherRevoker(a: RevocationEntry, b: RevocationEntry)
  {
    !(NamesRevoker(a) && NamesRevoker(b) && a.byKeyId == b.byKeyId)
  }

  predicate OtherId(a: Cert, b: Cert) { a.id != b.id }

  ghost predicate OneAttestationPerCa(t: TrustState)
  {
    forall id :: id in t.attestations ==>
      && Apart(t.attestations[id], OtherCa)
      && forall a :: a in t.attestations[id] ==> a.target == id
  }

  ghost predicate OneRevocationPerRevoker(r: RevocationState)
  {
    forall id :: id in r.tcerts ==> r.tcerts[id] != [] && Apart(r.tcerts[id], OtherRevoker)
  }

  ghost predicate Consistent(s: State)
  {
    Apart(s.certs, OtherId) && OneAttestationPerCa(s.trust) && OneRevocationPerRevoker(s.rev)
  }

  lemma {:induction false} AttestationKeepsOne(t: TrustState, a: Attestation)
    requires OneAttestationPerCa(t)
    ensures OneAttestationPerCa(WithAttestation(t, a))
  {
    var list, same := AttestationsOf(t, a.target), (x: Attestation) => x.caTcertId == a.caTcertId;
    UpsertedApart(list, a, same, OtherCa);
    UpsertedMembers(list, a, same);
    var t' := WithAttestation(t, a);
    assert t'.attestations == t.attestations[a.target := Upserted(list, a, same)];
    forall id | id in t'.attestations
      ensures Apart(t'.attestations[id], OtherCa) && forall b :: b in t'.attestations[id] ==> b.target == id
    {
      if id != a.target { assert id in t.attestations; }
    }
  }

  lemma {:induction false} RevocationKeepsOne(r: RevocationState, id: TcertId, e: RevocationEntry)
    requires OneRevocationPerRevoker(r)
    ensures OneRevocationPerRevoker(WithRevokedTcert(r, id, e))
  {
    var list, r' := RevocationsOf(r, id), WithRevokedTcert(r, id, e);
    var same := (x: RevocationEntry) => x.byKeyId == e.byKeyId;
    if NamesRevoker(e) {
      UpsertedApart(list, e, same, OtherRevoker);
      UpsertedMembers(list, e, same);
      assert r'.tcerts[id] == Upserted(list, e, same);
    } else {
      assert r'.tcerts[id] == list + [e];
    }
    assert r'.tcerts[id] != [] && Apart(r'.tcerts[id], OtherRevoker);
    forall k | k in r'.tcerts ensures r'.tcerts[k] != [] && Apart(r'.tcerts[k], OtherRevoker) {
      if k != id { assert k in r.tcerts && r'.tcerts[k] == r.tcerts[k]; }
    }
  }

  lemma {:induction false} CertKeepsOne(certs: seq<Cert>, id: TcertId, wire: bytes)
    requires Apart(certs, OtherId)
    ensures Apart(WithCert(certs, id, wire), OtherId)
  {
    UpsertedApart(certs, Cert(id, wire), (c: Cert) => c.id == id, OtherId);
  }

  /** An imported statement keeps the stores consistent. */
  lemma {:induction false} ImportKeeps(env: Env, s: State, wire: bytes)
    requires Consistent(s)
    ensures Consistent(ImportStatement(env, s, wire).0)
  {
    var stmt := env.statement(wire);
    if stmt.Some? && SignerOf(env, s, stmt.value).Some? {
      var st, signer := stmt.value, SignerOf(env, s, stmt.value).value;
      if st.action == St.Attest && st.target.TcertTarget? && ImportedHash(env, s, st.target).Ok? {
        AttestationKeepsOne(s.trust, ImportedAttestation(st, signer, ImportedHash(env, s, st.target).value, wire));
      } else if st.action == St.RevokeTcert && st.target.TcertTarget? {
        var kind := if st.revocationType.Some? then st.revocationType.value else St.Retrospective;
        RevocationKeepsOne(s.rev, TargetTcertId(st.target), ImportedRevocation(st, kind, signer, wire));
      }
    }
  }

  lemma {:induction false} AttestKeeps(env: Env, s: State, p: Attesting)
    requires Consistent(s)
    ensures Consistent(AttestStep(env, s, p).state)
  {
    var a := NewAttestation(env, s, p);
    if a.Ok? {
      AttestationKeepsOne(s.trust, a.value);
    }
  }

  lemma {:induction false} AddTcertKeeps(env: Env, s: State, tcertBytes: Option<bytes>, p: Attesting)
    requires Consistent(s)
    ensures Consistent(AddTcertStep(env, s, tcertBytes, p).state)
  {
    if tcertBytes.Some? && TcertMismatch(env, tcertBytes.value, p.target).None? {
      CertKeepsOne(s.certs, p.target, tcertBytes.value);
      AttestKeeps(env, s.(certs := WithCert(s.certs, p.target, tcertBytes.value)), p);
    } else {
      AttestKeeps(env, s, p);
    }
  }

  lemma {:induction false} ImportTcertKeeps(env: Env, s: State, wire: bytes)
    requires Consistent(s)
    ensures Consistent(ImportTcert(env, s, wire).0)
  {
    if TcertObjection(env, wire).None? {
      CertKeepsOne(s.certs, ImportedTcertId(env, wire), wire);
    }
  }

  lemma {:induction false} RevokeKeeps(env: Env, s: State, r: Request, kind: St.RevocationType)
    requires Consistent(s)
    ensures Consistent(RevokeTcertStep(env, s, r, kind).state)
  {
    var step := RevokeTcertStep(env, s, r, kind);
    if step.result.Ok? {
      RevocationKeepsOne(s.rev, r.subject,
                         RevocationEntry(kind, r.issuedAt, r.reason, Some(r.signer), None, Some(step.result.value)));
    }
  }

  /** Every operation keeps the stores consistent, whatever it is given. */
  lemma {:induction false} ApplyKeeps(env: Env, s: State, op: Op)
    requires Consistent(s)
    ensures Consistent(Apply(env, s, op))
  {
    match op
    case Attest(p) => AttestKeeps(env, s, p);
    case AddTcert(tcertBytes, p) => AddTcertKeeps(env, s, tcertBytes, p);
    case RevokeTcert(r, kind) => RevokeKeeps(env, s, r, kind);
    case ImportStatementBytes(wire) => ImportKeeps(env, s, wire);
    case ImportTcertBytes(wire) => ImportTcertKeeps(env, s, wire);
    case SaveTcert(id, wire) => CertKeepsOne(s.certs, id, wire);
    case _ => OthersKeepRecords(env, s, op);
  }

  /** The other operations change neither certificates nor attestations nor revocations of TCerts. */
  lemma {:induction false} OthersKeepRecords(env: Env, s: State, op: Op)
    requires !op.Attest? && !op.AddTcert? && !op.RevokeTcert? && !op.ImportStatementBytes? && !op.ImportTcertBytes?
    requires !op.SaveTcert?
    ensures var after := Apply(env, s, op);
      after.certs == s.certs && after.trust.attestations == s.trust.attestations && after.rev.tcerts == s.rev.tcerts
  {
  }

  lemma {:induction false} RunKeeps(env: Env, s: State, ops: seq<Op>)
    requires Consistent(s)
    ensures Consistent(Run(env, s, ops))
    decreases |ops|
  {
    if ops == [] {
    } else {
      ApplyKeeps(env, s, ops[0]);
      RunKeeps(env, Apply(env, s, ops[0]), ops[1..]);
    }
  }

  /**
   * In every reachable state a target has at most one attestation of each CA, a TCert at most
   * one revocation of each revoker key, and an id at most one certificate.
   */
  lemma {:induction false} ReachableIsConsistent(env: Env, ops: seq<Op>)
    ensures Consistent(Run(env, Empty(), ops))
  {
    RunKeeps(env, Empty(), ops);
  }
}
