/** The external services made concrete: the protocol's own parsers, a hash, and an ideal signature ledger. */
module Protocol {
  import opened Bytes
  import opened Cbor
  import opened Ids
  import opened SecretBinding
  import opened ServiceState
  import Authority
  import Bundles
  import ImportLaws
  import opened IssueThenVerify
  import Cose
  import SO = SignedObjects
  import St = Statements

  const ID_BYTES := 16

  function Truncated(b: bytes): bytes { if |b| <= ID_BYTES then b else b[..ID_BYTES] }

  /** The hash a TCert declares, SHA-256 unless it names another known one. */
  function HashName(o: SO.SignedObject): string
  {
    match St.Get(o.data, "hashAlgorithm")
    case Some(Tstr(t)) => if t in ["SHA-256", "SHA-384", "SHA3-512"] then t else "SHA-256"
    case _ => "SHA-256"
  }

  function OrNull(v: Option<Value>): Value { if v.Some? then v.value else Null }

  predicate Recorded(ledger: set<Made>, o: SO.SignedObject, pub: Value, aad: bytes)
  {
    var m := Cose.SigMessage(o.cose, aad);
    m.Ok? && Made(pub, m.value, o.cose.signature) in ledger
  }

  /** The services of a device whose signatures are exactly those in the ledger. */
  function Env(hash: (string, bytes) -> bytes, keyBytes: (SO.Algorithm, Value) -> bytes,
               ledger: set<Made>): ServiceState.Env
  {
    ServiceState.Env.Env(
      (w: bytes) => (match SO.ParseSignedObject(w) case Ok(o) => Some(o) case Err(_) => None),
      (w: bytes) => (match St.ParseStatement(w) case Ok(x) => Some(x) case Err(_) => None),
      (o: SO.SignedObject) => OrNull(St.Get(o.data, "publicKey")),
      (o: SO.SignedObject) => (match St.Get(o.data, "certificateNumber") case Some(Int(n)) => n case _ => 0),
      (alg: SO.Algorithm, pub: Value) => ToHex(Truncated(hash("SHA-256", keyBytes(alg, pub)))),
      (o: SO.SignedObject) => ToHex(hash(HashName(o), o.cose.payload)),
      (w: bytes) => ToHex(Truncated(hash("SHA-256", w))),
      (alg: SO.Algorithm, o: SO.SignedObject, pub: Value, aad: bytes) => Recorded(ledger, o, pub, aad))
  }

  /** These services satisfy the laws the theorems about issuing and verifying ask for. */
  lemma {:induction false} EnvIsIdeal(hash: (string, bytes) -> bytes, keyBytes: (SO.Algorithm, Value) -> bytes,
                                      ledger: set<Made>)
    ensures Ideal(Env(hash, keyBytes, ledger), ledger) && ReadsProtocol(Env(hash, keyBytes, ledger))
  {
  }

  /**
   * What the identifiers and hashes are: the first sixteen bytes of the SHA-256 of a key or a document, and
   * the whole hash of a TCert's signed payload under the algorithm that the TCert names, if it is known.
   */
  lemma {:induction false} ServicesMeaning(hash: (string, bytes) -> bytes, keyBytes: (SO.Algorithm, Value) -> bytes,
                                           ledger: set<Made>, w: bytes, alg: SO.Algorithm, pub: Value,
                                           o: SO.SignedObject, name: string)
    requires |hash("SHA-256", w)| == |hash("SHA-256", keyBytes(alg, pub))| == 32
    ensures var env := Env(hash, keyBytes, ledger);
      && env.sdocId(w) == ToHex(hash("SHA-256", w)[..16])
      && env.keyIdOf(alg, pub) == ToHex(hash("SHA-256", keyBytes(alg, pub))[..16])
      && |env.sdocId(w)| == |env.keyIdOf(alg, pub)| == 32
      && (name in {"SHA-256", "SHA-384", "SHA3-512"} && St.Get(o.data, "hashAlgorithm") == Some(Tstr(name)) ==>
            env.tcertHash(o) == ToHex(hash(name, o.cose.payload)))
      && ((forall n :: n in {"SHA-256", "SHA-384", "SHA3-512"} ==>
            St.Get(o.data, "hashAlgorithm") != Some(Tstr(n))) ==>
            env.tcertHash(o) == ToHex(hash("SHA-256", o.cose.payload)))
      && (forall x :: St.Get(o.data, "publicKey") == Some(x) ==> env.publicKey(o) == x)
      && (forall n :: St.Get(o.data, "certificateNumber") == Some(Int(n)) ==> env.certificateNumber(o) == n)
  {
    KnownHashes(o, name);
  }

  lemma {:induction false} KnownHashes(o: SO.SignedObject, name: string)
    ensures name in {"SHA-256", "SHA-384", "SHA3-512"} && St.Get(o.data, "hashAlgorithm") == Some(Tstr(name)) ==>
      HashName(o) == name
    ensures (forall n ::
              n in {"SHA-256", "SHA-384", "SHA3-512"} ==> St.Get(o.data, "hashAlgorithm") != Some(Tstr(n))) ==>
      HashName(o) == "SHA-256"
  {
    var a, b, c := "SHA-256", "SHA-384", "SHA3-512";
    var known := [a, b, c];
    assert known[0] == a && known[1] == b && known[2] == c;
    if St.Get(o.data, "hashAlgorithm").Some? && St.Get(o.data, "hashAlgorithm").value.Tstr? {
      assert St.Get(o.data, "hashAlgorithm").value.s in known
        <==> St.Get(o.data, "hashAlgorithm").value.s in {a, b, c};
    }
  }

  /**
   * An applied statement carries a signature that was made: on exactly the bytes a verifier rebuilds from
   * it without authenticated data, with the key that a held TCert of the key it names contains.
   */
  lemma {:induction false} AppliedWasSigned(hash: (string, bytes) -> bytes, keyBytes: (SO.Algorithm, Value) -> bytes,
                                            ledger: set<Made>, s: State, wire: bytes)
    requires ImportStatement(Env(hash, keyBytes, ledger), s, wire).1.Applied?
    ensures St.ParseStatement(wire).Ok?
    ensures var stmt := St.ParseStatement(wire).value;
      exists c, o ::
        && c in s.certs && |stmt.signerKeyId| < |c.id| && c.id[..|stmt.signerKeyId| + 1] == stmt.signerKeyId + ":"
        && SO.ParseSignedObject(c.wire) == Ok(o) && o.kind == SO.Tcert
        && Cose.SigMessage(stmt.signed.cose, []).Ok?
        && Made(OrNull(St.Get(o.data, "publicKey")), Cose.SigMessage(stmt.signed.cose, []).value,
                stmt.signed.cose.signature) in ledger
  {
    var env := Env(hash, keyBytes, ledger);
    Authority.UnsignedIsRefused(env, s, wire);
    var stmt := St.ParseStatement(wire).value;
    var c :| ImportLaws.Candidate(env, s, stmt, c);
    var o :| env.parse(c.wire) == Some(o) && o.kind == SO.Tcert && Authority.SignedUnder(env, o, stmt.signed);
    assert env.publicKey(o) == OrNull(St.Get(o.data, "publicKey"));
    assert Recorded(ledger, stmt.signed, env.publicKey(o), []);
  }

  /** With a hash that never collides, TCerts of one hash function share a content hash only with equal payloads. */
  lemma {:induction false} ContentHashBinds(hash: (string, bytes) -> bytes, keyBytes: (SO.Algorithm, Value) -> bytes,
                                            ledger: set<Made>, a: SO.SignedObject, b: SO.SignedObject)
    requires St.Get(a.data, "hashAlgorithm") == St.Get(b.data, "hashAlgorithm")
    requires forall name, x, y :: hash(name, x) == hash(name, y) ==> x == y
    ensures var env := Env(hash, keyBytes, ledger);
      env.tcertHash(a) == env.tcertHash(b) <==> a.cose.payload == b.cose.payload
  {
    HexRoundTrip(hash(HashName(a), a.cose.payload));
    HexRoundTrip(hash(HashName(b), b.cose.payload));
  }

  /** A statement that parses is a signed object that parses, signed by the key it names, and sorted by its own time. */
  lemma {:induction false} StatementsAreObjects(hash: (string, bytes) -> bytes,
                                                keyBytes: (SO.Algorithm, Value) -> bytes, ledger: set<Made>,
                                                wire: bytes)
    requires Env(hash, keyBytes, ledger).statement(wire).Some?
    ensures var env := Env(hash, keyBytes, ledger);
      var stmt := env.statement(wire).value;
      && env.parse(wire) == Some(stmt.signed) && stmt.signed.kind == SO.Statement
      && stmt.signerKeyId == stmt.signed.signerKeyId == ToHex(stmt.signed.cose.kid)
      && Bundles.SortTime(env, wire) == stmt.issuedAt
  {
    St.StatementSigned(wire);
    Bundles.SortTimeIsIssuedAt(Env(hash, keyBytes, ledger), wire);
  }
}
