/** Bundles: TCerts first, then statements by issuance time, then documents. */
module Bundles {
  import opened Bytes
  import opened Ids
  import opened ServiceState
  import opened Sorting
  import opened StoreInvariants
  import Authority
  import ImportLaws
  import Cose
  import Fields
  import SO = SignedObjects
  import St = Statements
  import Svc = Services
  import VerdictLaws
  import Verification

  datatype BundleObject = BundleObject(kind: SO.ObjectType, wire: bytes)

  function OfKind(objs: seq<BundleObject>, k: SO.ObjectType): seq<bytes>
  {
    if objs == [] then [] else (if objs[0].kind == k then [objs[0].wire] else []) + OfKind(objs[1..], k)
  }

  /** The time statements are ordered by; 0 when it cannot be read. */
  function SortTime(env: Env, wire: bytes): int
  {
    match env.parse(wire)
    case None => 0
    case Some(o) => match St.Get(o.data, St.ISSUED_AT) case None => 0 case Some(v) => if Cose.IsJsNumber(v) then v.i
      else 0
  }

  function Earlier(env: Env): (bytes, bytes) -> bool { (a, b) => SortTime(env, a) <= SortTime(env, b) }

  function ImportTcerts(env: Env, s: State, wires: seq<bytes>): State
  {
    if wires == [] then s
    else ServiceState.ImportTcert(env, ImportTcerts(env, s, wires[..|wires| - 1]), wires[|wires| - 1]).0
  }

  function ImportStatements(env: Env, s: State, wires: seq<bytes>): State
  {
    if wires == [] then s
    else ServiceState.ImportStatement(env, ImportStatements(env, s, wires[..|wires| - 1]), wires[|wires| - 1]).0
  }

  /** The stores after `processBundle`; verifying documents changes nothing. */
  function Processed(env: Env, s: State, objs: seq<BundleObject>): State
  {
    ImportStatements(env, ImportTcerts(env, s, OfKind(objs, SO.Tcert)), Sort(OfKind(objs, SO.Statement), Earlier(env)))
  }

  /** Different statements of the bundle were issued at different times. */
  ghost predicate DistinctTimes(env: Env, wires: seq<bytes>)
  {
    forall a, b :: a in wires && b in wires && SortTime(env, a) == SortTime(env, b) ==> a == b
  }

  lemma {:induction false} EarlierOrder(env: Env)
    ensures TotalPreorder(Earlier(env))
  {
  }

  /** The order in which a bundle lists its statements does not matter when their times are distinct. */
  lemma {:induction false} BundleOrderIrrelevant(env: Env, s: State, objs: seq<BundleObject>, objs': seq<BundleObject>)
    requires OfKind(objs, SO.Tcert) == OfKind(objs', SO.Tcert)
    requires multiset(OfKind(objs, SO.Statement)) == multiset(OfKind(objs', SO.Statement))
    requires DistinctTimes(env, OfKind(objs, SO.Statement))
    ensures Processed(env, s, objs) == Processed(env, s, objs')
  {
    EarlierOrder(env);
    SortIgnoresOrder(OfKind(objs, SO.Statement), OfKind(objs', SO.Statement), Earlier(env));
  }

  /* ------------------------------ the order of TCerts --------------------------- */

  predicate Accepted(env: Env, wire: bytes) { TcertObjection(env, wire).None? }

  /** Two TCerts that are imported under one id. */
  predicate SameId(env: Env, a: bytes, b: bytes)
  {
    Accepted(env, a) && Accepted(env, b) && ImportedTcertId(env, a) == ImportedTcertId(env, b)
  }

  /** Different accepted TCerts have different ids. */
  ghost predicate DistinctIds(env: Env, wires: seq<bytes>)
  {
    forall a, b :: a in wires && b in wires && SameId(env, a, b) ==> a == b
  }

  /** A certificate that the TCerts bring in. */
  ghost predicate Brought(env: Env, wires: seq<bytes>, c: Cert)
  {
    c.wire in wires && Accepted(env, c.wire) && c.id == ImportedTcertId(env, c.wire)
  }

  ghost predicate Replaced(env: Env, wires: seq<bytes>, id: TcertId)
  {
    exists w :: w in wires && Accepted(env, w) && ImportedTcertId(env, w) == id
  }

  lemma {:induction false} MoreBrought(env: Env, wires: seq<bytes>, init: seq<bytes>, last: bytes, c: Cert)
    requires wires == init + [last]
    ensures Brought(env, wires, c)
      <==> Brought(env, init, c) || (Accepted(env, last) && c == Cert(ImportedTcertId(env, last), last))
    ensures Replaced(env, wires, c.id)
      <==> Replaced(env, init, c.id) || (Accepted(env, last) && ImportedTcertId(env, last) == c.id)
  {
    if Replaced(env, init, c.id) {
      var w :| w in init && Accepted(env, w) && ImportedTcertId(env, w) == c.id;
      assert w in wires;
    }
    assert last in wires;
  }

  /** What is held after importing TCerts with distinct ids: these, and those that none of them replaces. */
  lemma {:induction false} HeldAfterTcerts(env: Env, s: State, wires: seq<bytes>, c: Cert)
    requires Apart(s.certs, OtherId) && DistinctIds(env, wires)
    ensures Apart(ImportTcerts(env, s, wires).certs, OtherId)
    ensures c in ImportTcerts(env, s, wires).certs
      <==> Brought(env, wires, c) || (c in s.certs && !Replaced(env, wires, c.id))
  {
    if wires == [] {
    } else {
      var init, last := wires[..|wires| - 1], wires[|wires| - 1];
      assert wires == init + [last];
      HeldAfterTcerts(env, s, init, c);
      HeldAfterOne(env, s.certs, ImportTcerts(env, s, init).certs, wires, init, last, c);
    }
  }

  lemma {:induction false} HeldAfterOne(env: Env, start: seq<Cert>, before: seq<Cert>, wires: seq<bytes>,
                                        init: seq<bytes>, last: bytes, c: Cert)
    requires wires == init + [last] && Apart(before, OtherId) && DistinctIds(env, wires)
    requires c in before <==> Brought(env, init, c) || (c in start && !Replaced(env, init, c.id))
    ensures var after := if Accepted(env, last) then WithCert(before, ImportedTcertId(env, last), last) else before;
      && Apart(after, OtherId)
      && (c in after <==> Brought(env, wires, c) || (c in start && !Replaced(env, wires, c.id)))
  {
    MoreBrought(env, wires, init, last, c);
    if Accepted(env, last) {
      CertKeepsOne(before, ImportedTcertId(env, last), last);
      SavedMember(before, ImportedTcertId(env, last), last, c);
      assert last in wires
        && (Brought(env, init, c) && c.id == ImportedTcertId(env, last) ==> SameId(env, c.wire, last));
    }
  }

  lemma {:induction false} SavedMember(certs: seq<Cert>, id: TcertId, wire: bytes, c: Cert)
    requires Apart(certs, OtherId)
    ensures c in WithCert(certs, id, wire) <==> c == Cert(id, wire) || (c in certs && c.id != id)
  {
    var same := (x: Cert) => x.id == id;
    UpsertedMembers(certs, Cert(id, wire), same);
    if c in WithCert(certs, id, wire) && c.id == id {
      CertKeepsOne(certs, id, wire);
      OnlyOneOfId(WithCert(certs, id, wire), c, Cert(id, wire));
    }
  }

  lemma {:induction false} OnlyOneOfId(certs: seq<Cert>, c: Cert, d: Cert)
    requires Apart(certs, OtherId) && c in certs && d in certs && c.id == d.id
    ensures c == d
  {
    var i :| 0 <= i < |certs| && certs[i] == c;
    var j :| 0 <= j < |certs| && certs[j] == d;
    var first, second := if i < j then i else j, if i < j then j else i;
    assert first < second ==> OtherId(certs[first], certs[second]);
  }

  /** The same stores, up to the order in which they hold their certificates. */
  ghost predicate Alike(s: State, t: State)
  {
    && t == s.(certs := t.certs) && Apart(s.certs, OtherId) && Apart(t.certs, OtherId)
    && forall c :: c in s.certs <==> c in t.certs
  }

  lemma {:induction false} HeldByMember(certs: seq<Cert>, id: TcertId)
    requires Apart(certs, OtherId)
    ensures forall w :: GetCert(certs, id) == Some(w) <==> Cert(id, w) in certs
  {
    if certs == [] {
    } else {
      TailApart(certs, OtherId);
      HeldByMember(certs[1..], id);
      assert certs == [certs[0]] + certs[1..];
      if certs[0].id == id {
        forall w | Cert(id, w) in certs ensures w == certs[0].wire {
          OnlyOneOfId(certs, certs[0], Cert(id, w));
        }
      }
    }
  }

  lemma {:induction false} AlikeHold(s: State, t: State, id: TcertId)
    requires Alike(s, t)
    ensures GetCert(s.certs, id) == GetCert(t.certs, id)
  {
    HeldByMember(s.certs, id);
    HeldByMember(t.certs, id);
    if GetCert(s.certs, id).Some? {
      assert Cert(id, GetCert(s.certs, id).value) in t.certs;
    }
  }

  /** A TCert that may be named as the signer: a CA if there is one among the candidates. */
  ghost predicate Preferred(env: Env, s: State, stmt: St.Statement, c: Cert)
  {
    && ImportLaws.Candidate(env, s, stmt, c)
    && (c.id in s.trust.cas || forall d :: ImportLaws.Candidate(env, s, stmt, d) ==> d.id !in s.trust.cas)
  }

  /** The statement has at most one such TCert. */
  ghost predicate NoRivals(env: Env, s: State, wire: bytes)
  {
    env.statement(wire).Some? ==> forall c, d ::
      Preferred(env, s, env.statement(wire).value, c) && Preferred(env, s, env.statement(wire).value, d) ==>
        c.id == d.id
  }

  lemma {:induction false} SignerIsPreferred(env: Env, s: State, stmt: St.Statement) returns (c: Cert)
    requires SignerOf(env, s, stmt).Some?
    ensures Preferred(env, s, stmt, c) && c.id == SignerOf(env, s, stmt).value
  {
    ImportLaws.SignerMeaning(env, s, stmt);
    c :| ImportLaws.Candidate(env, s, stmt, c) && c.id == SignerOf(env, s, stmt).value;
  }

  lemma {:induction false} SamePreferred(env: Env, s: State, t: State, stmt: St.Statement, c: Cert)
    requires Alike(s, t) && Preferred(env, s, stmt, c)
    ensures Preferred(env, t, stmt, c)
  {
    forall d ensures ImportLaws.Candidate(env, s, stmt, d) <==> ImportLaws.Candidate(env, t, stmt, d) {
      ImportLaws.OfKeyMembers(s.certs, stmt.signerKeyId, d);
      ImportLaws.OfKeyMembers(t.certs, stmt.signerKeyId, d);
    }
  }

  lemma {:induction false} AlikeSymmetric(s: State, t: State)
    requires Alike(s, t)
    ensures Alike(t, s)
  {
    assert s == t.(certs := s.certs);
  }

  lemma {:induction false} SameSigner(env: Env, s: State, t: State, wire: bytes)
    requires Alike(s, t) && NoRivals(env, s, wire) && env.statement(wire).Some?
    ensures SignerOf(env, s, env.statement(wire).value) == SignerOf(env, t, env.statement(wire).value)
  {
    var stmt := env.statement(wire).value;
    AlikeSymmetric(s, t);
    if SignerOf(env, s, stmt).Some? {
      var c := SignerIsPreferred(env, s, stmt);
      SamePreferred(env, s, t, stmt, c);
      ImportLaws.SignerMeaning(env, t, stmt);
    }
    if SignerOf(env, t, stmt).Some? {
      var d := SignerIsPreferred(env, t, stmt);
      SamePreferred(env, t, s, stmt, d);
      ImportLaws.SignerMeaning(env, s, stmt);
    }
  }

  lemma {:induction false} StatementAlike(env: Env, s: State, t: State, wire: bytes)
    requires Alike(s, t) && NoRivals(env, s, wire)
    ensures Alike(ServiceState.ImportStatement(env, s, wire).0, ServiceState.ImportStatement(env, t, wire).0)
  {
    var stmt := env.statement(wire);
    if stmt.Some? {
      SameSigner(env, s, t, wire);
      if SignerOf(env, s, stmt.value).Some? {
        if stmt.value.target.TcertTarget? {
          AlikeHold(s, t, TargetTcertId(stmt.value.target));
        }
        AppliedAlike(env, s, t, stmt.value, SignerOf(env, s, stmt.value).value, wire);
      }
    }
  }

  lemma {:induction false} AppliedAlike(env: Env, s: State, t: State, stmt: St.Statement, signer: TcertId, wire: bytes)
    requires Alike(s, t)
    requires stmt.target.TcertTarget? ==>
      GetCert(s.certs, TargetTcertId(stmt.target)) == GetCert(t.certs, TargetTcertId(stmt.target))
    ensures Alike(ApplyStatement(env, s, stmt, signer, wire).0, ApplyStatement(env, t, stmt, signer, wire).0)
  {
  }

  /** Candidates depend on the certificates and the CA list only. */
  lemma {:induction false} RivalsStay(env: Env, s: State, t: State, wire: bytes)
    requires NoRivals(env, s, wire) && t.certs == s.certs && t.trust.cas == s.trust.cas
    ensures NoRivals(env, t, wire)
  {
    if env.statement(wire).Some? {
      var stmt := env.statement(wire).value;
      assert forall c :: ImportLaws.Candidate(env, t, stmt, c) <==> ImportLaws.Candidate(env, s, stmt, c);
      assert forall c :: Preferred(env, t, stmt, c) ==> Preferred(env, s, stmt, c);
    }
  }

  lemma {:induction false} StatementsAlike(env: Env, s: State, t: State, wires: seq<bytes>)
    requires Alike(s, t) && forall w :: w in wires ==> NoRivals(env, s, w)
    ensures Alike(ImportStatements(env, s, wires), ImportStatements(env, t, wires))
  {
    if wires == [] {
    } else {
      var init, last := wires[..|wires| - 1], wires[|wires| - 1];
      StatementsAlike(env, s, t, init);
      StatementsKeepSigners(env, s, init);
      RivalsStay(env, s, ImportStatements(env, s, init), last);
      StatementAlike(env, ImportStatements(env, s, init), ImportStatements(env, t, init), last);
    }
  }

  lemma {:induction false} TcertsAlike(env: Env, s: State, wires: seq<bytes>, wires': seq<bytes>)
    requires Apart(s.certs, OtherId) && DistinctIds(env, wires) && forall w :: w in wires <==> w in wires'
    ensures Alike(ImportTcerts(env, s, wires), ImportTcerts(env, s, wires'))
  {
    assert DistinctIds(env, wires');
    forall c ensures c in ImportTcerts(env, s, wires).certs <==> c in ImportTcerts(env, s, wires').certs {
      HeldAfterTcerts(env, s, wires, c);
      HeldAfterTcerts(env, s, wires', c);
    }
    HeldAfterTcerts(env, s, wires, Cert("", []));
    HeldAfterTcerts(env, s, wires', Cert("", []));
    TcertsKeepRevocations(env, s, wires);
    TcertsKeepRevocations(env, s, wires');
  }

  /**
   * The order in which a bundle lists its objects does not matter, up to the order of the stored
   * certificates, when its TCerts have distinct ids, its statements distinct times, and no statement
   * has two TCerts that could be named as its signer.
   */
  lemma {:induction false} TcertOrderIrrelevant(env: Env, s: State, objs: seq<BundleObject>, objs': seq<BundleObject>)
    requires Consistent(s)
    requires multiset(OfKind(objs, SO.Tcert)) == multiset(OfKind(objs', SO.Tcert))
    requires multiset(OfKind(objs, SO.Statement)) == multiset(OfKind(objs', SO.Statement))
    requires DistinctIds(env, OfKind(objs, SO.Tcert)) && DistinctTimes(env, OfKind(objs, SO.Statement))
    requires forall w :: w in OfKind(objs, SO.Statement) ==>
      NoRivals(env, ImportTcerts(env, s, OfKind(objs, SO.Tcert)), w)
    ensures Alike(Processed(env, s, objs), Processed(env, s, objs'))
  {
    var tcerts, tcerts' := OfKind(objs, SO.Tcert), OfKind(objs', SO.Tcert);
    forall w ensures w in tcerts <==> w in tcerts' {
      assert w in tcerts <==> w in multiset(tcerts);
      assert w in tcerts' <==> w in multiset(tcerts');
    }
    TcertsAlike(env, s, tcerts, tcerts');
    EarlierOrder(env);
    SortIgnoresOrder(OfKind(objs, SO.Statement), OfKind(objs', SO.Statement), Earlier(env));
    var sorted := Sort(OfKind(objs, SO.Statement), Earlier(env));
    SortMembers(OfKind(objs, SO.Statement), Earlier(env));
    StatementsAlike(env, ImportTcerts(env, s, tcerts), ImportTcerts(env, s, tcerts'), sorted);
  }

  /* ------------------------------- blocked documents ---------------------------- */

  /** An accepted statement that blocks or unblocks the document. */
  predicate Decides(env: Env, s: State, wire: bytes, sdocId: string)
  {
    var stmt := env.statement(wire);
    && stmt.Some? && SignerOf(env, s, stmt.value).Some?
    && stmt.value.action in {St.BlockSdoc, St.UnblockSdoc} && stmt.value.target == St.SdocTarget(sdocId)
  }

  predicate Blocks(env: Env, wire: bytes)
  {
    env.statement(wire).Some? && env.statement(wire).value.action == St.BlockSdoc
  }

  function LastDeciding(env: Env, s: State, wires: seq<bytes>, sdocId: string): Option<bytes>
  {
    if wires == [] then None
    else if Decides(env, s, wires[|wires| - 1], sdocId) then Some(wires[|wires| - 1])
    else LastDeciding(env, s, wires[..|wires| - 1], sdocId)
  }

  /** Statements change neither the certificates nor the CA list, so who signed what stays settled. */
  lemma {:induction false} StatementsKeepSigners(env: Env, s: State, wires: seq<bytes>)
    ensures var end := ImportStatements(env, s, wires);
      end.certs == s.certs && end.trust.cas == s.trust.cas && end.docs == s.docs
      && end.trust.pinned == s.trust.pinned && end.trust.distrusted == s.trust.distrusted
  {
    if wires == [] {
    } else {
      StatementsKeepSigners(env, s, wires[..|wires| - 1]);
    }
  }

  lemma {:induction false} LastDecides(env: Env, s: State, wires: seq<bytes>, sdocId: string)
    ensures sdocId in ImportStatements(env, s, wires).rev.blocked
      <==> match LastDeciding(env, s, wires, sdocId)
           case None => sdocId in s.rev.blocked
           case Some(w) => Blocks(env, w)
  {
    if wires == [] {
    } else {
      var init, last := wires[..|wires| - 1], wires[|wires| - 1];
      LastDecides(env, s, init, sdocId);
      StatementsKeepSigners(env, s, init);
      OneDecides(env, ImportStatements(env, s, init), last, sdocId);
    }
  }

  lemma {:induction false} OneDecides(env: Env, s: State, wire: bytes, sdocId: string)
    ensures sdocId in ServiceState.ImportStatement(env, s, wire).0.rev.blocked
      <==> if Decides(env, s, wire, sdocId) then Blocks(env, wire) else sdocId in s.rev.blocked
  {
    var stmt := env.statement(wire);
    if stmt.Some? && SignerOf(env, s, stmt.value).Some? {
      AppliedDecides(env, s, stmt.value, SignerOf(env, s, stmt.value).value, wire, sdocId);
    }
  }

  lemma {:induction false} AppliedDecides(env: Env, s: State, stmt: St.Statement, signer: TcertId, wire: bytes,
                                          sdocId: string)
    ensures sdocId in ApplyStatement(env, s, stmt, signer, wire).0.rev.blocked
      <==> if stmt.action in {St.BlockSdoc, St.UnblockSdoc} && stmt.target == St.SdocTarget(sdocId)
           then stmt.action == St.BlockSdoc else sdocId in s.rev.blocked
  {
  }

  /** The deciding statement with the greatest time. */
  ghost predicate LatestDeciding(env: Env, s: State, wires: seq<bytes>, sdocId: string, w: bytes)
  {
    && w in wires && Decides(env, s, w, sdocId)
    && forall v :: v in wires && Decides(env, s, v, sdocId) ==> SortTime(env, v) <= SortTime(env, w)
  }

  lemma {:induction false} LastIsLatest(env: Env, s: State, wires: seq<bytes>, sdocId: string)
    requires Sorted(wires, Earlier(env))
    ensures match LastDeciding(env, s, wires, sdocId)
      case None => forall v :: v in wires ==> !Decides(env, s, v, sdocId)
      case Some(w) => LatestDeciding(env, s, wires, sdocId, w)
  {
    if wires == [] {
    } else {
      var n := |wires| - 1;
      var init := wires[..n];
      assert wires == init + [wires[n]];
      if Decides(env, s, wires[n], sdocId) {
        forall v | v in wires ensures SortTime(env, v) <= SortTime(env, wires[n]) {
          var i :| 0 <= i < |wires| && wires[i] == v;
          assert i == n || Earlier(env)(wires[i], wires[n]);
        }
      } else {
        forall i, j | 0 <= i < j < |init| ensures Earlier(env)(init[i], init[j]) {
          assert Earlier(env)(wires[i], wires[j]);
        }
        LastIsLatest(env, s, init, sdocId);
      }
    }
  }

  /**
   * After a bundle, a document is blocked if and only if the accepted block or unblock statement
   * with the greatest issuance time blocks it; without any, its status is what it was.
   */
  lemma {:induction false} LatestStatementDecides(env: Env, s: State, objs: seq<BundleObject>, sdocId: string)
    requires DistinctTimes(env, OfKind(objs, SO.Statement))
    ensures var wires := OfKind(objs, SO.Statement);
      var ready := ImportTcerts(env, s, OfKind(objs, SO.Tcert));
      if exists w :: w in wires && Decides(env, ready, w, sdocId)
      then sdocId in Processed(env, s, objs).rev.blocked
           <==> exists w :: LatestDeciding(env, ready, wires, sdocId, w) && Blocks(env, w)
      else sdocId in Processed(env, s, objs).rev.blocked <==> sdocId in ready.rev.blocked
  {
    var wires := OfKind(objs, SO.Statement);
    var ready := ImportTcerts(env, s, OfKind(objs, SO.Tcert));
    var sorted := Sort(wires, Earlier(env));
    EarlierOrder(env);
    SortSorts(wires, Earlier(env));
    SortMembers(wires, Earlier(env));
    LastIsLatest(env, ready, sorted, sdocId);
    LastDecides(env, ready, sorted, sdocId);
    var last := LastDeciding(env, ready, sorted, sdocId);
    if last.Some? {
      assert LatestDeciding(env, ready, wires, sdocId, last.value);
      forall w | LatestDeciding(env, ready, wires, sdocId, w) ensures w == last.value {
        assert SortTime(env, w) == SortTime(env, last.value);
      }
    }
  }

  lemma {:induction false} TcertsKeepRevocations(env: Env, s: State, wires: seq<bytes>)
    ensures var end := ImportTcerts(env, s, wires); end.rev == s.rev && end.trust == s.trust && end.docs == s.docs
  {
    if wires == [] {
    } else {
      TcertsKeepRevocations(env, s, wires[..|wires| - 1]);
    }
  }

  /** With the protocol's own parsers, statements are ordered by the issuance time they were signed with. */
  lemma {:induction false} SortTimeIsIssuedAt(env: Env, wire: bytes)
    requires St.ParseStatement(wire).Ok? && SO.ParseSignedObject(wire).Ok?
    requires env.parse(wire) == Some(SO.ParseSignedObject(wire).value)
    ensures SortTime(env, wire) == St.ParseStatement(wire).value.issuedAt
  {
  }

  /* ----------------------------------- the loop --------------------------------- */

  function Objects(k: SO.ObjectType, wires: seq<bytes>): seq<BundleObject>
  {
    seq(|wires|, i requires 0 <= i < |wires| => BundleObject(k, wires[i]))
  }

  function BeforeDocuments(env: Env, objs: seq<BundleObject>): seq<BundleObject>
  {
    Objects(SO.Tcert, OfKind(objs, SO.Tcert)) + Objects(SO.Statement, Sort(OfKind(objs, SO.Statement), Earlier(env)))
  }

  /** The order in which the objects of a bundle are handled. */
  function Ordered(env: Env, objs: seq<BundleObject>): seq<BundleObject>
  {
    BeforeDocuments(env, objs) + Objects(SO.Sdoc, OfKind(objs, SO.Sdoc))
  }

  /**
   * What that order is: TCerts first and documents last, each in the order of the bundle, and between them
   * its statements, the earlier ones first and those of one time in the order of the bundle.
   */
  lemma {:induction false} OrderedMeaning(env: Env, objs: seq<BundleObject>, y: bytes)
    ensures var o, le := Ordered(env, objs), Earlier(env);
      && OfKind(o, SO.Tcert) == OfKind(objs, SO.Tcert) && OfKind(o, SO.Sdoc) == OfKind(objs, SO.Sdoc)
      && OfKind(o, SO.Attachment) == []
      && multiset(OfKind(o, SO.Statement)) == multiset(OfKind(objs, SO.Statement))
      && Sorted(OfKind(o, SO.Statement), le)
      && Filter(OfKind(o, SO.Statement), TiesWith(y, le)) == Filter(OfKind(objs, SO.Statement), TiesWith(y, le))
      && forall i, j :: 0 <= i < j < |o| ==> Rank(o[i].kind) <= Rank(o[j].kind)
  {
    StatementsInOrder(env, OfKind(objs, SO.Statement), y);
    var sorted := Sort(OfKind(objs, SO.Statement), Earlier(env));
    KindsOf(OfKind(objs, SO.Tcert), sorted, OfKind(objs, SO.Sdoc));
    RankedByKind(OfKind(objs, SO.Tcert), sorted, OfKind(objs, SO.Sdoc));
  }

  lemma {:induction false} StatementsInOrder(env: Env, wires: seq<bytes>, y: bytes)
    ensures var sorted, le := Sort(wires, Earlier(env)), Earlier(env);
      && multiset(sorted) == multiset(wires) && Sorted(sorted, le)
      && Filter(sorted, TiesWith(y, le)) == Filter(wires, TiesWith(y, le))
  {
    EarlierOrder(env);
    SortPermutes(wires, Earlier(env));
    SortSorts(wires, Earlier(env));
    SortIsStable(wires, Earlier(env), y);
  }

  lemma {:induction false} RankedByKind(tcerts: seq<bytes>, statements: seq<bytes>, docs: seq<bytes>)
    ensures var o := Objects(SO.Tcert, tcerts) + Objects(SO.Statement, statements) + Objects(SO.Sdoc, docs);
      forall i, j :: 0 <= i < j < |o| ==> Rank(o[i].kind) <= Rank(o[j].kind)
  {
  }

  function Rank(k: SO.ObjectType): int { match k case Tcert => 0 case Statement => 1 case _ => 2 }

  lemma {:induction false} KindsOf(tcerts: seq<bytes>, statements: seq<bytes>, docs: seq<bytes>)
    ensures var o := Objects(SO.Tcert, tcerts) + Objects(SO.Statement, statements) + Objects(SO.Sdoc, docs);
      && OfKind(o, SO.Tcert) == tcerts && OfKind(o, SO.Statement) == statements && OfKind(o, SO.Sdoc) == docs
      && OfKind(o, SO.Attachment) == []
  {
    var a, b, c := Objects(SO.Tcert, tcerts), Objects(SO.Statement, statements), Objects(SO.Sdoc, docs);
    forall k: SO.ObjectType ensures OfKind(a + b + c, k) == (if k == SO.Tcert then tcerts else [])
      + (if k == SO.Statement then statements else []) + (if k == SO.Sdoc then docs else [])
    {
      OfKindAppend(a + b, c, k);
      OfKindAppend(a, b, k);
      OneKind(SO.Tcert, tcerts, k);
      OneKind(SO.Statement, statements, k);
      OneKind(SO.Sdoc, docs, k);
    }
  }

  lemma {:induction false} OfKindAppend(a: seq<BundleObject>, b: seq<BundleObject>, k: SO.ObjectType)
    ensures OfKind(a + b, k) == OfKind(a, k) + OfKind(b, k)
  {
    if a == [] {
      assert a + b == b;
    } else {
      OfKindAppend(a[1..], b, k);
      Joined(a + b, a[0], a[1..], b, k);
      FirstOfKind(a, a[0], a[1..], k);
    }
  }

  lemma {:induction false} Joined(all: seq<BundleObject>, o: BundleObject, a: seq<BundleObject>, b: seq<BundleObject>,
                                  k: SO.ObjectType)
    requires all == [o] + a + b && OfKind(a + b, k) == OfKind(a, k) + OfKind(b, k)
    ensures OfKind(all, k) == (if o.kind == k then [o.wire] else []) + OfKind(a, k) + OfKind(b, k)
  {
    FirstOfKind(all, o, a + b, k);
  }

  lemma {:induction false} FirstOfKind(objs: seq<BundleObject>, o: BundleObject, rest: seq<BundleObject>,
                                       k: SO.ObjectType)
    requires objs == [o] + rest
    ensures OfKind(objs, k) == (if o.kind == k then [o.wire] else []) + OfKind(rest, k)
  {
    assert objs[1..] == rest;
  }

  lemma {:induction false} OneKind(k: SO.ObjectType, wires: seq<bytes>, other: SO.ObjectType)
    ensures OfKind(Objects(k, wires), other) == if other == k then wires else []
  {
    if wires == [] {
    } else {
      OneKind(k, wires[1..], other);
      assert Objects(k, wires)[1..] == Objects(k, wires[1..]);
    }
  }

  function Handled(env: Env, s: State, o: BundleObject): State
  {
    match o.kind
    case Tcert => ServiceState.ImportTcert(env, s, o.wire).0
    case Statement => ServiceState.ImportStatement(env, s, o.wire).0
    case _ => s
  }

  /** Handling objects one after the other. */
  function Fold<S, O>(f: (S, O) -> S, s: S, os: seq<O>): S
  {
    if os == [] then s else f(Fold(f, s, os[..|os| - 1]), os[|os| - 1])
  }

  /** What is shown for each of them, in the state it meets. */
  function Trace<S, O, I>(f: (S, O) -> S, show: (S, O) -> I, s: S, os: seq<O>): (items: seq<I>)
    ensures |items| == |os|
  {
    if os == [] then []
    else
      var n := |os| - 1;
      Trace(f, show, s, os[..n]) + [show(Fold(f, s, os[..n]), os[n])]
  }

  function Handler(env: Env): (State, BundleObject) -> State { (t: State, o: BundleObject) => Handled(env, t, o) }

  function AllHandled(env: Env, s: State, objs: seq<BundleObject>): State { Fold(Handler(env), s, objs) }

  datatype Item = Item(kind: SO.ObjectType, ok: bool)

  /** A device: what verifying needs besides the stores; `ask` answers the questions about one document. */
  datatype Device = Device(fe: Fields.FieldEnv, now: int, ask: bytes -> nat -> Option<string>, ctx: Fields.Context)

  /** What is shown for an object that is handled in state `s`. */
  function ItemFor(env: Env, d: Device, s: State, o: BundleObject): Item
  {
    match o.kind
    case Tcert => Item(o.kind, ServiceState.ImportTcert(env, s, o.wire).1.Imported?)
    case Statement => Item(o.kind, ServiceState.ImportStatement(env, s, o.wire).1.Applied?)
    case _ =>
      var r := Verification.Report(Verification.Verifier(env, d.fe, s, d.now, d.ask(o.wire), d.ctx), o.wire);
      Item(o.kind, r.Ok? && r.value.overall == Valid)
  }

  function Shower(env: Env, d: Device): (State, BundleObject) -> Item
  {
    (t: State, o: BundleObject) => ItemFor(env, d, t, o)
  }

  function ItemsFor(env: Env, d: Device, s: State, objs: seq<BundleObject>): seq<Item>
  {
    Trace(Handler(env), Shower(env, d), s, objs)
  }

  /**
   * What `ok` means: a TCert is self-signed and names the key id of its own key; a statement is signed under a
   * held TCert of the key it names; a document is acceptable.
   */
  lemma {:induction false} ItemMeaning(env: Env, d: Device, s: State, o: BundleObject)
    ensures ItemFor(env, d, s, o).kind == o.kind
    ensures o.kind == SO.Tcert ==>
      (ItemFor(env, d, s, o).ok
       <==> exists t :: && env.parse(o.wire) == Some(t) && t.kind == SO.Tcert && Authority.SignedUnder(env, t, t)
                        && env.keyIdOf(t.algorithm, env.publicKey(t)) == t.signerKeyId)
    ensures o.kind == SO.Statement && ItemFor(env, d, s, o).ok ==>
      env.statement(o.wire).Some? && exists c :: ImportLaws.Candidate(env, s, env.statement(o.wire).value, c)
    ensures o.kind in {SO.Sdoc, SO.Attachment} ==>
      (ItemFor(env, d, s, o).ok
       <==> VerdictLaws.Acceptable(Verification.Verifier(env, d.fe, s, d.now, d.ask(o.wire), d.ctx), o.wire))
  {
    match o.kind
    case Tcert =>
      Authority.ImportTcertMeaning(env, s, o.wire);
      if ItemFor(env, d, s, o).ok {
        var t := env.parse(o.wire).value;
        assert Authority.SignedUnder(env, t, t);
      }
    case Statement => Authority.UnsignedIsRefused(env, s, o.wire);
    case _ =>
      VerdictLaws.VerdictIsExact(Verification.Verifier(env, d.fe, s, d.now, d.ask(o.wire), d.ctx), o.wire);
  }

  /** The statement is about something its action applies to, and nothing held contradicts it. */
  ghost predicate Applicable(env: Env, s: State, stmt: St.Statement, signer: TcertId)
  {
    match stmt.target
    case TcertTarget(k, n, hash) =>
      var id := k + ":" + IntString(n);
      || stmt.action == St.RevokeTcert
      || (stmt.action == St.RevokeAttestation
          && exists a :: a in AttestationsOf(s.trust, id) && a.caTcertId == signer)
      || (stmt.action == St.Attest
          && (GetCert(s.certs, id).Some? ==>
                exists t :: Authority.HeldAs(env, s, id, t) && (hash.None? || hash.value == env.tcertHash(t))))
    case KeyTarget(_) => stmt.action == St.RevokeTcert
    case SdocTarget(_) => stmt.action in {St.BlockSdoc, St.UnblockSdoc}
  }

  /** And of the statements that are attributed, those that apply. */
  lemma {:induction false} StatementItemMeaning(env: Env, d: Device, s: State, wire: bytes, stmt: St.Statement,
                                                signer: TcertId)
    requires env.statement(wire) == Some(stmt) && SignerOf(env, s, stmt) == Some(signer)
    ensures ItemFor(env, d, s, BundleObject(SO.Statement, wire)).ok <==> Applicable(env, s, stmt, signer)
  {
    if stmt.action in {St.RevokeTcert, St.RevokeAttestation} {
      Authority.ImportedRevocationMeaning(env, s, wire, stmt, signer);
    } else if stmt.action == St.Attest && stmt.target.TcertTarget? {
      var id := stmt.target.keyId + ":" + IntString(stmt.target.certificateNumber);
      Authority.ImportedAttestMeaning(env, s, wire, stmt, signer, stmt.target.keyId, stmt.target.certificateNumber,
                                      stmt.target.tcertHash);
      if GetCert(s.certs, id).Some? && env.parse(GetCert(s.certs, id).value).Some? {
        assert Authority.HeldAs(env, s, id, env.parse(GetCert(s.certs, id).value).value);
      }
    } else {
      Authority.ImportedBlockMeaning(env, s, wire, stmt, signer);
    }
  }

  class BundleProcessor {
    const online: Svc.OnlineService
    const verification: Verification.VerificationService

    predicate Wired() { verification.Wired() && verification.deps == online.deps }

    constructor (online: Svc.OnlineService, verification: Verification.VerificationService)
      ensures this.online == online && this.verification == verification
    {
      this.online := online;
      this.verification := verification;
    }

    method HandleObject(o: BundleObject, d: Device) returns (item: Item)
      requires Wired() && d.fe == verification.fields
      modifies online.deps.trustStore, online.deps.revocationStore, online.deps.certificateStore
      ensures online.deps.State() == Handled(online.deps.env, old(online.deps.State()), o)
      ensures item == ItemFor(online.deps.env, d, old(online.deps.State()), o)
    {
      match o.kind
      case Tcert =>
        var out := online.ImportTcert(o.wire);
        return Item(o.kind, out.Imported?);
      case Statement =>
        var out := online.ImportStatement(o.wire);
        return Item(o.kind, out.Applied?);
      case _ =>
        var r := verification.Verify(o.wire, d.now, d.ask(o.wire), d.ctx);
        return Item(o.kind, r.Ok? && r.value.overall == Valid);
    }

    /** `objects.filter((obj) => obj.type === k)`. */
    method Select(objs: seq<BundleObject>, k: SO.ObjectType) returns (selected: seq<BundleObject>)
      ensures selected == Objects(k, OfKind(objs, k))
    {
      selected := [];
      for i := 0 to |objs|
        invariant selected == Objects(k, OfKind(objs[..i], k))
      {
        OneMoreOfKind(objs, k, i);
        if objs[i].kind == k {
          selected := selected + [objs[i]];
        }
      }
      assert objs[..|objs|] == objs;
    }

    /** TCerts, then the statements in the order of their times, then documents. */
    method Arrange(objs: seq<BundleObject>) returns (ordered: seq<BundleObject>)
      ensures ordered == Ordered(online.deps.env, objs)
    {
      var env := online.deps.env;
      var tcerts := Select(objs, SO.Tcert);
      var statements := Select(objs, SO.Statement);
      SortObjects(env, OfKind(objs, SO.Statement));
      statements := Sort(statements, EarlierObject(env));
      var documents := Select(objs, SO.Sdoc);
      return tcerts + statements + documents;
    }

    /** `processBundle`. */
    method ProcessBundle(objs: seq<BundleObject>, d: Device) returns (items: seq<Item>)
      requires Wired() && d.fe == verification.fields
      modifies online.deps.trustStore, online.deps.revocationStore, online.deps.certificateStore
      ensures online.deps.State() == Processed(online.deps.env, old(online.deps.State()), objs)
      ensures items == ItemsFor(online.deps.env, d, old(online.deps.State()), Ordered(online.deps.env, objs))
    {
      ghost var start := online.deps.State();
      var ordered := Arrange(objs);
      items := [];
      for i := 0 to |ordered|
        invariant online.deps.State() == AllHandled(online.deps.env, start, ordered[..i])
        invariant items == ItemsFor(online.deps.env, d, start, ordered[..i])
      {
        assert ordered[..i + 1][..i] == ordered[..i] && ordered[..i + 1][i] == ordered[i];
        var item := HandleObject(ordered[i], d);
        items := items + [item];
      }
      assert ordered[..|ordered|] == ordered;
      OrderedIsProcessed(online.deps.env, start, objs);
    }
  }

  function EarlierObject(env: Env): (BundleObject, BundleObject) -> bool
  {
    (a: BundleObject, b: BundleObject) => SortTime(env, a.wire) <= SortTime(env, b.wire)
  }

  lemma {:induction false} OneMoreOfKind(objs: seq<BundleObject>, k: SO.ObjectType, i: nat)
    requires i < |objs|
    ensures Objects(k, OfKind(objs[..i + 1], k))
         == Objects(k, OfKind(objs[..i], k)) + (if objs[i].kind == k then [objs[i]] else [])
  {
    assert objs[..i + 1] == objs[..i] + [objs[i]];
    OfKindAppend(objs[..i], [objs[i]], k);
    assert [objs[i]][1..] == [];
  }

  /** Sorting objects by their times is sorting their bytes. */
  lemma {:induction false} SortObjects(env: Env, wires: seq<bytes>)
    ensures Sort(Objects(SO.Statement, wires), EarlierObject(env)) == Objects(SO.Statement, Sort(wires, Earlier(env)))
  {
    if wires == [] {
    } else {
      SortObjects(env, wires[1..]);
      assert Objects(SO.Statement, wires)[1..] == Objects(SO.Statement, wires[1..]);
      InsertObject(env, wires[0], Sort(wires[1..], Earlier(env)));
    }
  }

  lemma {:induction false} InsertObject(env: Env, w: bytes, wires: seq<bytes>)
    ensures Insert(BundleObject(SO.Statement, w), Objects(SO.Statement, wires), EarlierObject(env))
         == Objects(SO.Statement, Insert(w, wires, Earlier(env)))
  {
    if wires == [] || Earlier(env)(w, wires[0]) {
      assert Objects(SO.Statement, [w] + wires) == [BundleObject(SO.Statement, w)] + Objects(SO.Statement, wires);
    } else {
      InsertObject(env, w, wires[1..]);
      assert Objects(SO.Statement, wires)[1..] == Objects(SO.Statement, wires[1..]);
      assert Objects(SO.Statement, [wires[0]] + Insert(w, wires[1..], Earlier(env)))
          == [BundleObject(SO.Statement, wires[0])] + Objects(SO.Statement, Insert(w, wires[1..], Earlier(env)));
    }
  }

  lemma {:induction false} FoldAppend<S, O>(f: (S, O) -> S, s: S, a: seq<O>, b: seq<O>)
    ensures Fold(f, s, a + b) == Fold(f, Fold(f, s, a), b)
    decreases |b|
  {
    if b == [] {
      assert a + b == a;
    } else {
      var n := |b| - 1;
      assert (a + b)[..|a + b| - 1] == a + b[..n];
      FoldAppend(f, s, a, b[..n]);
    }
  }

  /** Objects that change nothing leave the state alone. */
  lemma {:induction false} FoldIdle<S(!new), O>(f: (S, O) -> S, s: S, os: seq<O>)
    requires forall t, i :: 0 <= i < |os| ==> f(t, os[i]) == t
    ensures Fold(f, s, os) == s
    decreases |os|
  {
    if os == [] {
    } else {
      var n := |os| - 1;
      assert forall t, i :: 0 <= i < n ==> f(t, os[..n][i]) == t;
      FoldIdle(f, s, os[..n]);
    }
  }

  lemma {:induction false} TraceAt<S, O, I>(f: (S, O) -> S, show: (S, O) -> I, s: S, os: seq<O>, i: nat)
    requires i < |os|
    ensures Trace(f, show, s, os)[i] == show(Fold(f, s, os[..i]), os[i])
    decreases |os|
  {
    var n := |os| - 1;
    if i >= n {
    } else {
      TraceAt(f, show, s, os[..n], i);
      assert os[..n][..i] == os[..i];
    }
  }

  /** Objects at the end that change nothing are all shown in the final state. */
  lemma {:induction false} TailItem<S(!new), O, I>(f: (S, O) -> S, show: (S, O) -> I, s: S, first: seq<O>, tail: seq<O>,
                                                   j: nat)
    requires j < |tail| && forall t, i :: 0 <= i < |tail| ==> f(t, tail[i]) == t
    ensures Trace(f, show, s, first + tail)[|first| + j] == show(Fold(f, s, first + tail), tail[j])
  {
    var all := first + tail;
    TraceAt(f, show, s, all, |first| + j);
    assert all[..|first| + j] == first + tail[..j];
    FoldAppend(f, s, first, tail);
    FoldAppend(f, s, first, tail[..j]);
    assert forall t, i :: 0 <= i < j ==> f(t, tail[..j][i]) == t;
    FoldIdle(f, Fold(f, s, first), tail);
    FoldIdle(f, Fold(f, s, first), tail[..j]);
  }

  lemma {:induction false} TcertsHandled(env: Env, s: State, wires: seq<bytes>)
    ensures AllHandled(env, s, Objects(SO.Tcert, wires)) == ImportTcerts(env, s, wires)
  {
    if wires == [] {
    } else {
      var n := |wires| - 1;
      assert Objects(SO.Tcert, wires)[..n] == Objects(SO.Tcert, wires[..n]);
      TcertsHandled(env, s, wires[..n]);
    }
  }

  lemma {:induction false} StatementsHandled(env: Env, s: State, wires: seq<bytes>)
    ensures AllHandled(env, s, Objects(SO.Statement, wires)) == ImportStatements(env, s, wires)
  {
    if wires == [] {
    } else {
      var n := |wires| - 1;
      assert Objects(SO.Statement, wires)[..n] == Objects(SO.Statement, wires[..n]);
      StatementsHandled(env, s, wires[..n]);
    }
  }

  lemma {:induction false} DocumentsChangeNothing(env: Env, wires: seq<bytes>)
    ensures forall t, i :: 0 <= i < |wires| ==> Handler(env)(t, Objects(SO.Sdoc, wires)[i]) == t
  {
  }

  /** Handling the ordered objects one by one gives the stores `Processed` describes. */
  lemma {:induction false} OrderedIsProcessed(env: Env, s: State, objs: seq<BundleObject>)
    ensures AllHandled(env, s, Ordered(env, objs)) == Processed(env, s, objs)
  {
    var tcerts := Objects(SO.Tcert, OfKind(objs, SO.Tcert));
    var statements := Objects(SO.Statement, Sort(OfKind(objs, SO.Statement), Earlier(env)));
    var documents := Objects(SO.Sdoc, OfKind(objs, SO.Sdoc));
    FoldAppend(Handler(env), s, tcerts + statements, documents);
    FoldAppend(Handler(env), s, tcerts, statements);
    TcertsHandled(env, s, OfKind(objs, SO.Tcert));
    StatementsHandled(env, AllHandled(env, s, tcerts), Sort(OfKind(objs, SO.Statement), Earlier(env)));
    DocumentsChangeNothing(env, OfKind(objs, SO.Sdoc));
    FoldIdle(Handler(env), AllHandled(env, s, tcerts + statements), documents);
  }

  /** Every document of a bundle is judged with all TCerts and statements of the bundle taken into account. */
  lemma {:induction false} DocumentsSeeTheWholeBundle(env: Env, d: Device, s: State, objs: seq<BundleObject>, j: nat,
                                                      items: seq<Item>, docs: seq<bytes>, end: State)
    requires items == ItemsFor(env, d, s, Ordered(env, objs)) && docs == OfKind(objs, SO.Sdoc)
    requires end == Processed(env, s, objs)
    requires j < |docs|
    ensures |items| >= |docs| && items[|items| - |docs| + j] == ItemFor(env, d, end, BundleObject(SO.Sdoc, docs[j]))
  {
    var first := BeforeDocuments(env, objs);
    assert Ordered(env, objs) == first + Objects(SO.Sdoc, docs);
    OrderedIsProcessed(env, s, objs);
    DocumentItem(env, Shower(env, d), s, first, docs, j, items, end);
    ShownIs(env, d, end, BundleObject(SO.Sdoc, docs[j]));
  }

  lemma {:induction false} ShownIs(env: Env, d: Device, s: State, o: BundleObject)
    ensures Shower(env, d)(s, o) == ItemFor(env, d, s, o)
  {
  }

  lemma {:induction false} DocumentItem(env: Env, show: (State, BundleObject) -> Item, s: State,
                                        first: seq<BundleObject>, docs: seq<bytes>, j: nat, items: seq<Item>,
                                        end: State)
    requires j < |docs| && Fold(Handler(env), s, first + Objects(SO.Sdoc, docs)) == end
    requires items == Trace(Handler(env), show, s, first + Objects(SO.Sdoc, docs))
    ensures |items| == |first| + |docs|
    ensures items[|items| - |docs| + j] == show(end, BundleObject(SO.Sdoc, docs[j]))
  {
    var tail := Objects(SO.Sdoc, docs);
    DocumentsChangeNothing(env, docs);
    TailItem(Handler(env), show, s, first, tail, j);
    assert tail[j] == BundleObject(SO.Sdoc, docs[j]);
  }
}
