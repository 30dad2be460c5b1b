/** Statements: the signed authority actions, their targets and their data maps. */
module Statements {
  import opened Bytes
  import opened CborHeads
  import opened Cbor
  import opened CborDecoder
  import opened Cose
  import opened Ids
  import opened JsDecoder
  import SO = SignedObjects

  datatype Target =
    | TcertTarget(keyId: KeyId, certificateNumber: int, tcertHash: Option<string>)
    | KeyTarget(keyId: KeyId)
    | SdocTarget(sdocId: string)

  datatype Action = Attest | AddTcert | RevokeAttestation | RevokeTcert | BlockSdoc | UnblockSdoc
  datatype RevocationType = Prospective | Retrospective

  function ActionName(a: Action): string
  {
    match a
    case Attest => "attest"
    case AddTcert => "addTcert"
    case RevokeAttestation => "revokeAttestation"
    case RevokeTcert => "revokeTcert"
    case BlockSdoc => "blockSdoc"
    case UnblockSdoc => "unblockSdoc"
  }

  /** `isAction`, as a lookup. */
  function ActionOf(t: string): Option<Action>
  {
    if t == ActionName(Attest) then Some(Attest)
    else if t == ActionName(AddTcert) then Some(AddTcert)
    else if t == ActionName(RevokeAttestation) then Some(RevokeAttestation)
    else if t == ActionName(RevokeTcert) then Some(RevokeTcert)
    else if t == ActionName(BlockSdoc) then Some(BlockSdoc)
    else if t == ActionName(UnblockSdoc) then Some(UnblockSdoc)
    else None
  }

  function RevocationName(r: RevocationType): string
  {
    match r case Prospective => "prospective" case Retrospective => "retrospective"
  }

  function RevocationOf(t: string): Option<RevocationType>
  {
    if t == RevocationName(Prospective) then Some(Prospective)
    else if t == RevocationName(Retrospective) then Some(Retrospective)
    else None
  }

  lemma {:induction false} NamesReadBack(a: Action, r: RevocationType)
    ensures ActionOf(ActionName(a)) == Some(a)
    ensures RevocationOf(RevocationName(r)) == Some(r)
  {
    assert |"attest"| == 6 && |"addTcert"| == 8 && |"revokeAttestation"| == 17;
    assert |"revokeTcert"| == 11 && |"blockSdoc"| == 9 && |"unblockSdoc"| == 11;
    assert "revokeTcert"[0] == 'r' && "unblockSdoc"[0] == 'u';
    assert |"prospective"| == 11 && |"retrospective"| == 13;
  }

  /* ----------------------------------- records ---------------------------------- */

  const KIND := "kind"
  const KEY_ID := "keyId"
  const NUMBER := "certificateNumber"
  const HASH := "tcertHash"
  const SDOC_ID := "sdocId"
  const STATEMENT_ID := "statementId"
  const ACTION := "action"
  const TARGET := "target"
  const ISSUED_AT := "issuedAt"
  const REASON := "reason"
  const REVOCATION := "revocationType"
  const CLAIMS := "claims"
  const VALIDITY := "validity"

  const TARGET_FIELDS := [KIND, KEY_ID, NUMBER, HASH, SDOC_ID]
  const STATEMENT_FIELDS := [STATEMENT_ID, ACTION, TARGET, ISSUED_AT, REASON, REVOCATION, CLAIMS, VALIDITY]

  /** A record literal: the given properties in order, absent values left out. */
  function Build(names: seq<string>, vals: seq<Option<Value>>): seq<Entry>
    requires |names| == |vals|
  {
    if names == [] then []
    else (if vals[0].Some? then [Entry(Tstr(names[0]), vals[0].value)] else []) + Build(names[1..], vals[1..])
  }

  function Get(es: seq<Entry>, name: string): Option<Value> { Lookup(es, Tstr(name)) }

  /** A record: a dictionary with text keys whose values are in the profile. */
  ghost predicate Record(es: seq<Entry>) { SO.TextKeys(es) && ProfileEntries(es) }

  /** Distinct and short property names. */
  ghost predicate DistinctNames(names: seq<string>)
  {
    && (forall i, j :: 0 <= i < j < |names| ==> names[i] != names[j])
    && (forall i :: 0 <= i < |names| ==> |names[i]| <= 32)
  }

  lemma {:induction false} BuildMissing(names: seq<string>, vals: seq<Option<Value>>, n: string)
    requires |names| == |vals| && n !in names
    ensures Get(Build(names, vals), n).None?
    ensures forall i :: 0 <= i < |Build(names, vals)| ==> Build(names, vals)[i].key != Tstr(n)
  {
    if names == [] {
    } else {
      BuildMissing(names[1..], vals[1..], n);
      LookupMissing(Build(names, vals), Tstr(n));
    }
  }

  lemma {:induction false} BuildRecord(names: seq<string>, vals: seq<Option<Value>>)
    requires |names| == |vals| && DistinctNames(names)
    requires forall i :: 0 <= i < |vals| && vals[i].Some? ==> Profile(vals[i].value)
    ensures Record(Build(names, vals)) && |Build(names, vals)| <= |names|
  {
    if names == [] {
    } else {
      var rest := Build(names[1..], vals[1..]);
      BuildRecord(names[1..], vals[1..]);
      assert names[0] !in names[1..];
      BuildMissing(names[1..], vals[1..], names[0]);
      if vals[0].Some? {
        ConsRecord(Entry(Tstr(names[0]), vals[0].value), rest);
      } else {
        assert [] + rest == rest;
      }
    }
  }

  lemma {:induction false} ConsRecord(e: Entry, rest: seq<Entry>)
    requires e.key.Tstr? && |e.key.s| <= 32 && Profile(e.val) && Record(rest)
    requires forall i :: 0 <= i < |rest| ==> rest[i].key != e.key
    ensures Record([e] + rest)
  {
    var es := [e] + rest;
    forall i | 0 <= i < |es|
      ensures es[i].key.Tstr? && Encodable(es[i].key) && Encodable(es[i].val) && IsKey(es[i].key) && Profile(es[i].val)
    {
      if i > 0 { assert es[i] == rest[i - 1]; }
    }
    forall i, j | 0 <= i < j < |es| ensures KeyClass(es[i].key) != KeyClass(es[j].key) {
      assert es[j] == rest[j - 1];
      if i > 0 { assert es[i] == rest[i - 1]; }
    }
  }

  lemma {:induction false} BuildGet(names: seq<string>, vals: seq<Option<Value>>, i: nat)
    requires |names| == |vals| && DistinctNames(names) && i < |names|
    ensures Get(Build(names, vals), names[i]) == vals[i]
  {
    var rest := Build(names[1..], vals[1..]);
    if i == 0 {
      assert names[0] !in names[1..];
      BuildMissing(names[1..], vals[1..], names[0]);
      if vals[0].None? { assert Build(names, vals) == rest; }
    } else {
      BuildGet(names[1..], vals[1..], i - 1);
      if vals[0].Some? {
        var e := Entry(Tstr(names[0]), vals[0].value);
        assert ([e] + rest)[1..] == rest;
      } else {
        assert Build(names, vals) == rest;
      }
    }
  }

  /** Every property of a record reads back, also after transport, when integers are lowered. */
  lemma {:induction false} BuildReadsBack(names: seq<string>, vals: seq<Option<Value>>)
    requires |names| == |vals| && DistinctNames(names)
    requires forall i :: 0 <= i < |vals| && vals[i].Some? ==> Profile(vals[i].value)
    requires |names| <= MAX_ARG
    ensures var es := Build(names, vals);
      && Profile(Map(es)) && SO.TextKeys(es) && SO.TextKeys(JsImage(Map(es)).entries)
      && (forall i :: 0 <= i < |names| ==> Get(es, names[i]) == vals[i])
      && (forall i :: 0 <= i < |names| ==> Get(JsImage(Map(es)).entries, names[i]) == ImageOption(vals[i]))
  {
    var es := Build(names, vals);
    BuildRecord(names, vals);
    SO.ImageTextKeys(es);
    forall i | 0 <= i < |names|
      ensures Get(es, names[i]) == vals[i] && Get(JsImage(Map(es)).entries, names[i]) == ImageOption(vals[i])
    {
      BuildGet(names, vals, i);
      LookupImage(es, Tstr(names[i]));
    }
  }

  /** The values of a safe dictionary are safe. */
  lemma {:induction false} SafeField(es: seq<Entry>, name: string)
    requires JsSafe(Map(es)) && Get(es, name).Some?
    ensures JsSafe(Get(es, name).value)
  {
    var i := LookupWitness(es, Tstr(name));
  }

  lemma {:induction false} TargetNames()
    ensures DistinctNames(TARGET_FIELDS)
  {
    assert KEY_ID[0] == 'k' && SDOC_ID[0] == 's' && KIND[0] == 'k';
    assert |KIND| == 4 && |KEY_ID| == 5 && |NUMBER| == 17 && |HASH| == 9 && |SDOC_ID| == 6;
  }

  lemma {:induction false} StatementNames()
    ensures DistinctNames(STATEMENT_FIELDS)
  {
    assert ACTION[0] == 'a' && TARGET[0] == 't' && REASON[0] == 'r' && CLAIMS[0] == 'c';
    assert |STATEMENT_ID| == 11 && |ACTION| == 6 && |TARGET| == 6 && |ISSUED_AT| == 8 && |REASON| == 6;
    assert |REVOCATION| == 14 && |CLAIMS| == 6 && |VALIDITY| == 8 && ISSUED_AT[0] == 'i' && VALIDITY[0] == 'v';
  }

  /* ----------------------------------- targets ---------------------------------- */

  function TargetKind(t: Target): string
  {
    match t
    case TcertTarget(_, _, _) => "tcert"
    case KeyTarget(_) => "key"
    case SdocTarget(_) => "sdoc"
  }

  /** The properties of a target, in the order of `TARGET_FIELDS`; `id` is its decoded identifier. */
  function TargetValues(t: Target, id: bytes): (vals: seq<Option<Value>>)
    ensures |vals| == 5
  {
    var kind := Some(Tstr(TargetKind(t)));
    match t
    case TcertTarget(_, n, hash) =>
      [kind, Some(Bstr(id)), Some(Int(n)), if hash.Some? && hash.value != [] then Some(Tstr(hash.value))
       else None, None]
    case KeyTarget(_) => [kind, Some(Bstr(id)), None, None, None]
    case SdocTarget(_) => [kind, None, None, None, Some(Bstr(id))]
  }

  function TargetId(t: Target): string
  {
    match t case TcertTarget(keyId, _, _) => keyId case KeyTarget(keyId) => keyId case SdocTarget(sdocId) => sdocId
  }

  /** `encodeTarget`; an empty content hash is left out like a missing one. */
  function EncodeTarget(t: Target): Result<seq<Entry>>
  {
    var id :- FromHex(TargetId(t));
    Ok(Build(TARGET_FIELDS, TargetValues(t, id)))
  }

  /** `decodeTarget` on a decoded map. */
  function DecodeTarget(raw: seq<Entry>): Result<Target>
  {
    if !SO.TextKeys(raw) then Err(ParseError)
    else TargetFrom(Get(raw, KIND), Get(raw, KEY_ID), Get(raw, NUMBER), Get(raw, HASH), Get(raw, SDOC_ID))
  }

  function TargetFrom(kind: Option<Value>, keyId: Option<Value>, n: Option<Value>, hash: Option<Value>,
                      sdocId: Option<Value>)
    : Result<Target>
  {
    if kind == Some(Tstr("tcert")) && keyId.Some? && keyId.value.Bstr? && n.Some? && IsJsNumber(n.value) then
      Ok(TcertTarget(ToHex(keyId.value.bs), n.value.i,
                     if hash.Some? && hash.value.Tstr? && hash.value.s != [] then Some(hash.value.s) else None))
    else if kind == Some(Tstr("key")) && keyId.Some? && keyId.value.Bstr? then Ok(KeyTarget(ToHex(keyId.value.bs)))
    else if kind == Some(Tstr("sdoc")) && sdocId.Some? && sdocId.value.Bstr? then Ok(SdocTarget(ToHex(sdocId.value.bs)))
    else Err(ParseError)
  }

  /** Identifiers as the libraries produce them: the hex form of some bytes. */
  ghost predicate IsHexId(s: string) { exists b: bytes :: |b| <= MAX_ARG && s == ToHex(b) }

  ghost predicate WellFormedTarget(t: Target)
  {
    match t
    case TcertTarget(keyId, n, hash) =>
      IsHexId(keyId) && IsJsNumber(Int(n)) && (hash.Some? ==> hash.value != [] && Encodable(Tstr(hash.value)))
    case KeyTarget(keyId) => IsHexId(keyId)
    case SdocTarget(sdocId) => IsHexId(sdocId)
  }

  lemma {:induction false} HexIdBytes(s: string) returns (b: bytes)
    requires IsHexId(s)
    ensures FromHex(s) == Ok(b) && ToHex(b) == s && |b| <= MAX_ARG
  {
    b :| |b| <= MAX_ARG && s == ToHex(b);
    HexRoundTrip(b);
  }

  /** A target as it is after transport: the certificate number is lowered. */
  function LoweredTarget(t: Target): Target
  {
    match t
    case TcertTarget(keyId, n, hash) => TcertTarget(keyId, Lowered(n), hash)
    case _ => t
  }

  predicate SafeTarget(t: Target) { t.TcertTarget? ==> SafeInt(t.certificateNumber) }

  lemma {:induction false} TargetValuesRead(t: Target, id: bytes)
    requires WellFormedTarget(t) && ToHex(id) == TargetId(t)
    ensures var v := TargetValues(t, id);
      TargetFrom(ImageOption(v[0]), ImageOption(v[1]), ImageOption(v[2]), ImageOption(v[3]), ImageOption(v[4]))
      == Ok(LoweredTarget(t))
  {
    assert "tcert"[0] == 't' && "key"[0] == 'k' && "sdoc"[0] == 's';
  }

  lemma {:induction false} TargetValuesProfile(t: Target, id: bytes)
    requires WellFormedTarget(t) && |id| <= MAX_ARG
    ensures var v := TargetValues(t, id); forall i :: 0 <= i < |v| && v[i].Some? ==> Profile(v[i].value)
  {
    assert |TargetKind(t)| <= 5;
  }

  /**
   * A target survives encoding, transport and decoding, with its certificate number lowered, and
   * hence unchanged exactly when that number is safe.
   */
  lemma {:induction false} TargetRoundTrip(t: Target)
    requires WellFormedTarget(t)
    ensures EncodeTarget(t).Ok? && Profile(Map(EncodeTarget(t).value))
    ensures var data := Map(EncodeTarget(t).value);
      && (JsShaped(data) ==> JsCbor(Enc(data)) == Ok(JsImage(data)))
      && DecodeTarget(JsImage(data).entries) == Ok(LoweredTarget(t))
      && (DecodeTarget(JsImage(data).entries) == Ok(t) <==> SafeTarget(t))
  {
    var id := HexIdBytes(TargetId(t));
    TargetNames();
    TargetValuesProfile(t, id);
    TargetValuesRead(t, id);
    TargetReadsBack(TARGET_FIELDS, TargetValues(t, id));
    JsCborIff(Map(EncodeTarget(t).value));
  }

  lemma {:induction false} TargetReadsBack(names: seq<string>, vals: seq<Option<Value>>)
    requires names == TARGET_FIELDS && DistinctNames(names) && |names| == |vals| == 5
    requires forall i :: 0 <= i < |vals| && vals[i].Some? ==> Profile(vals[i].value)
    ensures Profile(Map(Build(names, vals)))
    ensures DecodeTarget(JsImage(Map(Build(names, vals))).entries)
         == TargetFrom(ImageOption(vals[0]), ImageOption(vals[1]), ImageOption(vals[2]), ImageOption(vals[3]),
                       ImageOption(vals[4]))
  {
    BuildReadsBack(names, vals);
    TargetFieldsRead(names, vals, JsImage(Map(Build(names, vals))).entries);
  }

  lemma {:induction false} TargetFieldsRead(names: seq<string>, vals: seq<Option<Value>>, raw: seq<Entry>)
    requires names == TARGET_FIELDS && |vals| == 5 && SO.TextKeys(raw)
    requires forall i :: 0 <= i < |names| ==> Get(raw, names[i]) == ImageOption(vals[i])
    ensures DecodeTarget(raw)
         == TargetFrom(ImageOption(vals[0]), ImageOption(vals[1]), ImageOption(vals[2]), ImageOption(vals[3]),
                       ImageOption(vals[4]))
  {
    assert Get(raw, names[0]) == ImageOption(vals[0]) && Get(raw, names[1]) == ImageOption(vals[1]);
    assert Get(raw, names[2]) == ImageOption(vals[2]) && Get(raw, names[3]) == ImageOption(vals[3]);
    assert Get(raw, names[4]) == ImageOption(vals[4]);
  }

  /** Safe target data has a safe certificate number. */
  lemma {:induction false} SafeTargetData(t: Target)
    requires EncodeTarget(t).Ok? && JsSafe(Map(EncodeTarget(t).value))
    ensures SafeTarget(t)
  {
    if t.TcertTarget? {
      var vals := TargetValues(t, FromHex(TargetId(t)).value);
      TargetNames();
      BuildGet(TARGET_FIELDS, vals, 2);
      SafeField(Build(TARGET_FIELDS, vals), NUMBER);
    }
  }

  /* ---------------------------------- statements -------------------------------- */

  datatype Options = Options(
    reason: Option<string>,
    revocationType: Option<RevocationType>,
    claims: Option<seq<Entry>>,
    validity: Option<seq<Entry>>)

  function Dictionary(es: Option<seq<Entry>>): Option<Value> { if es.Some? then Some(Map(es.value)) else None }

  /** The properties of a statement, in the order of `STATEMENT_FIELDS`. */
  function StatementValues(id: bytes, a: Action, target: seq<Entry>, issuedAt: int,
                           o: Options): (vals: seq<Option<Value>>)
    ensures |vals| == 8
  {
    [Some(Bstr(id)), Some(Tstr(ActionName(a))), Some(Map(target)), Some(Int(issuedAt)),
     TextOption(o.reason),
     if o.revocationType.Some? then Some(Tstr(RevocationName(o.revocationType.value))) else None,
     Dictionary(o.claims), Dictionary(o.validity)]
  }

  /** The data map `buildStatement` signs. */
  function StatementData(id: bytes, a: Action, target: seq<Entry>, issuedAt: int, o: Options): seq<Entry>
  {
    Build(STATEMENT_FIELDS, StatementValues(id, a, target, issuedAt, o))
  }

  /** `buildStatement`, which parses what it built; `id` is the random statement id. */
  function BuildStatement(id: bytes, a: Action, t: Target, issuedAt: int, o: Options,
                          alg: SO.Algorithm, keyId: KeyId, sign: bytes -> bytes): Result<Signed>
  {
    var target :- EncodeTarget(t);
    var built :- SO.BuildSignedObject(SO.Statement, StatementData(id, a, target, issuedAt, o), alg, keyId, sign, [],
                                      None);
    var parsed :- SO.ParseSignedObject(built.wire);
    Ok(built)
  }

  datatype Statement = Statement(
    statementId: string,
    action: Action,
    target: Target,
    issuedAt: int,
    reason: Option<string>,
    revocationType: Option<RevocationType>,
    claims: Option<Value>,
    validity: Option<Value>,
    signerKeyId: KeyId,
    signed: SO.SignedObject)

  /** `parseStatement`. */
  function ParseStatement(wire: bytes): Result<Statement>
  {
    var parsed :- SO.ParseSignedObject(wire);
    if parsed.kind != SO.Statement then Err(ParseError) else StatementOf(parsed)
  }

  function StatementOf(parsed: SO.SignedObject): Result<Statement>
  {
    var d := parsed.data;
    StatementFrom(Get(d, STATEMENT_ID), Get(d, ACTION), Get(d, TARGET), Get(d, ISSUED_AT), Get(d, REASON),
                  Get(d, REVOCATION), Get(d, CLAIMS), Get(d, VALIDITY), parsed)
  }

  function StatementFrom(id: Option<Value>, action: Option<Value>, target: Option<Value>, issuedAt: Option<Value>,
                         reason: Option<Value>, revocation: Option<Value>, claims: Option<Value>,
                         validity: Option<Value>, parsed: SO.SignedObject)
    : Result<Statement>
  {
    if !(action.Some? && action.value.Tstr? && ActionOf(action.value.s).Some?) then Err(ParseError)
    else if !(target.Some? && target.value.Map?) then Err(ParseError)
    else
      var t :- DecodeTarget(target.value.entries);
      if !(issuedAt.Some? && IsJsNumber(issuedAt.value)) then Err(ParseError)
      else if revocation.Some?
        && !(revocation.value.Tstr? && RevocationOf(revocation.value.s).Some?) then Err(ParseError)
      else if !(id.Some? && id.value.Bstr?) then Err(TypeError)
      else Ok(Statement(
        ToHex(id.value.bs), ActionOf(action.value.s).value, t, issuedAt.value.i,
        if reason.Some? && reason.value.Tstr? then Some(reason.value.s) else None,
        if revocation.Some? then RevocationOf(revocation.value.s) else None,
        claims, validity, parsed.signerKeyId, parsed))
  }

  /** Statement fields read after transport. */
  function FromImages(v: seq<Option<Value>>, parsed: SO.SignedObject): Result<Statement>
    requires |v| == 8
  {
    StatementFrom(ImageOption(v[0]), ImageOption(v[1]), ImageOption(v[2]), ImageOption(v[3]),
                  ImageOption(v[4]), ImageOption(v[5]), ImageOption(v[6]), ImageOption(v[7]), parsed)
  }

  /** The statement as it was described, read from a signed object. */
  function Described(id: bytes, a: Action, t: Target, issuedAt: int, o: Options, signed: SO.SignedObject): Statement
  {
    Statement(ToHex(id), a, t, issuedAt, o.reason, o.revocationType,
              CanonOption(Dictionary(o.claims)), CanonOption(Dictionary(o.validity)), signed.signerKeyId, signed)
  }

  /** The statement as it arrives: certificate number, time, claims and validity with their integers lowered. */
  function Delivered(id: bytes, a: Action, t: Target, issuedAt: int, o: Options, signed: SO.SignedObject): Statement
  {
    Statement(ToHex(id), a, LoweredTarget(t), Lowered(issuedAt), o.reason, o.revocationType,
              ImageOption(Dictionary(o.claims)), ImageOption(Dictionary(o.validity)), signed.signerKeyId, signed)
  }

  ghost predicate WellFormedOptions(o: Options)
  {
    && (o.reason.Some? ==> Encodable(Tstr(o.reason.value)))
    && (o.claims.Some? ==> Profile(Map(o.claims.value)))
    && (o.validity.Some? ==> Profile(Map(o.validity.value)))
  }

  lemma {:induction false} StatementValuesShape(id: bytes, a: Action, target: seq<Entry>, issuedAt: int, o: Options)
    requires |id| <= MAX_ARG && Profile(Map(target)) && IsJsNumber(Int(issuedAt)) && WellFormedOptions(o)
    ensures StatementShape(StatementValues(id, a, target, issuedAt, o))
  {
    var revocation := if o.revocationType.Some? then Some(RevocationName(o.revocationType.value)) else None;
    ShapeOfValues(id, ActionName(a), target, issuedAt, o.reason, revocation, o.claims, o.validity);
  }

  function TextOption(t: Option<string>): Option<Value> { if t.Some? then Some(Tstr(t.value)) else None }

  lemma {:induction false} ShapeOfValues(id: bytes, action: string, target: seq<Entry>, issuedAt: int,
                                         reason: Option<string>, revocation: Option<string>, claims: Option<seq<Entry>>,
                                         validity: Option<seq<Entry>>)
    requires |id| <= MAX_ARG && |action| <= 32 && Profile(Map(target)) && IsJsNumber(Int(issuedAt))
    requires (reason.Some? ==> Encodable(Tstr(reason.value))) && (revocation.Some? ==> |revocation.value| <= 32)
    requires (claims.Some? ==> Profile(Map(claims.value))) && (validity.Some? ==> Profile(Map(validity.value)))
    ensures StatementShape([Some(Bstr(id)), Some(Tstr(action)), Some(Map(target)), Some(Int(issuedAt)),
                            TextOption(reason), TextOption(revocation), Dictionary(claims), Dictionary(validity)])
  {
  }

  ghost predicate StatementShape(v: seq<Option<Value>>)
  {
    && |v| == 8
    && (forall i :: 0 <= i < |v| && v[i].Some? ==> Profile(v[i].value))
    && v[0].Some? && v[0].value.Bstr? && v[1].Some? && v[1].value.Tstr? && v[2].Some? && v[2].value.Map?
    && v[3].Some? && IsJsNumber(v[3].value) && (v[4].Some? ==> v[4].value.Tstr?)
    && (v[5].Some? ==> v[5].value.Tstr?) && (v[6].Some? ==> v[6].value.Map?) && (v[7].Some? ==> v[7].value.Map?)
  }

  lemma {:induction false} StatementConforms(d: seq<Entry>, names: seq<string>, v: seq<Option<Value>>)
    requires names == STATEMENT_FIELDS && StatementShape(v)
    requires forall i :: 0 <= i < |names| ==> Get(d, names[i]) == v[i]
    ensures SO.Conforms(SO.Statement, d)
  {
    assert Get(d, names[0]) == v[0] && Get(d, names[1]) == v[1] && Get(d, names[2]) == v[2] && Get(d, names[3]) == v[3];
    assert Get(d, names[4]) == v[4] && Get(d, names[5]) == v[5] && Get(d, names[6]) == v[6] && Get(d, names[7]) == v[7];
  }

  lemma {:induction false} StatementFieldsRead(parsed: SO.SignedObject, names: seq<string>, v: seq<Option<Value>>)
    requires names == STATEMENT_FIELDS && |v| == 8
    requires forall i :: 0 <= i < |names| ==> Get(parsed.data, names[i]) == ImageOption(v[i])
    ensures StatementOf(parsed) == FromImages(v, parsed)
  {
    var d := parsed.data;
    assert Get(d, names[0]) == ImageOption(v[0]) && Get(d, names[1]) == ImageOption(v[1]);
    assert Get(d, names[2]) == ImageOption(v[2]) && Get(d, names[3]) == ImageOption(v[3]);
    assert Get(d, names[4]) == ImageOption(v[4]) && Get(d, names[5]) == ImageOption(v[5]);
    assert Get(d, names[6]) == ImageOption(v[6]) && Get(d, names[7]) == ImageOption(v[7]);
  }

  /** The values of a statement are read as it is delivered. */
  lemma {:induction false} StatementValuesRead(id: bytes, a: Action, t: Target, target: seq<Entry>, issuedAt: int,
                                               o: Options, parsed: SO.SignedObject)
    requires DecodeTarget(JsImage(Map(target)).entries) == Ok(LoweredTarget(t)) && IsJsNumber(Int(issuedAt))
    ensures FromImages(StatementValues(id, a, target, issuedAt, o), parsed)
      == Ok(Delivered(id, a, t, issuedAt, o, parsed))
  {
    var r := if o.revocationType.Some? then o.revocationType.value else Prospective;
    NamesReadBack(a, r);
    var v := StatementValues(id, a, target, issuedAt, o);
    PartsRead(v, id, ActionName(a), RevocationName(r), a, t, target, issuedAt, o, parsed);
  }

  lemma {:induction false} PartsRead(v: seq<Option<Value>>, id: bytes, action: string, revocation: string, a: Action,
                                     t: Target, target: seq<Entry>, issuedAt: int, o: Options, parsed: SO.SignedObject)
    requires |v| == 8 && v[0] == Some(Bstr(id)) && v[1] == Some(Tstr(action)) && v[2] == Some(Map(target))
    requires v[3] == Some(Int(issuedAt)) && v[4] == TextOption(o.reason)
    requires v[5] == if o.revocationType.Some? then Some(Tstr(revocation)) else None
    requires v[6] == Dictionary(o.claims) && v[7] == Dictionary(o.validity)
    requires ActionOf(action) == Some(a) && (o.revocationType.Some? ==> RevocationOf(revocation) == o.revocationType)
    requires DecodeTarget(JsImage(Map(target)).entries) == Ok(LoweredTarget(t)) && IsJsNumber(Int(issuedAt))
    ensures FromImages(v, parsed) == Ok(Delivered(id, a, t, issuedAt, o, parsed))
  {
    LoweredMeaning(issuedAt);
  }

  lemma {:induction false} StatementDataLaws(names: seq<string>, v: seq<Option<Value>>)
    requires names == STATEMENT_FIELDS && StatementShape(v)
    ensures Profile(Map(Build(names, v))) && SO.TextKeys(Build(names, v)) && SO.Conforms(SO.Statement, Build(names, v))
    ensures forall i :: 0 <= i < |names| ==> Get(JsImage(Map(Build(names, v))).entries, names[i]) == ImageOption(v[i])
  {
    StatementNames();
    BuildReadsBack(names, v);
    StatementConforms(Build(names, v), names, v);
  }

  /** A statement that parses is read from the signed object it carries. */
  lemma {:induction false} StatementSigned(wire: bytes)
    requires ParseStatement(wire).Ok?
    ensures SO.ParseSignedObject(wire) == Ok(ParseStatement(wire).value.signed)
  {
  }

  lemma {:induction false} SignedStatementParses(v: seq<Option<Value>>, d: seq<Entry>, alg: SO.Algorithm, kid: bytes,
                                                 sign: bytes -> bytes)
    requires StatementShape(v) && d == Build(STATEMENT_FIELDS, v) && SafeArg(|kid|)
    requires SO.BuildSignedObject(SO.Statement, d, alg, ToHex(kid), sign, [], None).Ok?
    ensures var built := SO.BuildSignedObject(SO.Statement, d, alg, ToHex(kid), sign, [], None).value;
      && SigMessage(built.cose, []) == Ok(built.message)
      && (SO.Carried(built.cose, d) && JsShaped(Map(d)) ==>
            ParseStatement(built.wire) == FromImages(v, SO.AsDelivered(SO.Statement, d, alg, kid, built.cose)))
      && (SO.ParseSignedObject(built.wire) == Ok(SO.AsBuilt(SO.Statement, d, alg, kid, built.cose))
          <==> SO.Carried(built.cose, d) && JsSafe(Map(d)))
  {
    StatementDataLaws(STATEMENT_FIELDS, v);
    SO.ParseInvertsBuild(SO.Statement, d, alg, kid, sign, [], None);
    var built := SO.BuildSignedObject(SO.Statement, d, alg, ToHex(kid), sign, [], None).value;
    StatementFieldsRead(SO.AsDelivered(SO.Statement, d, alg, kid, built.cose), STATEMENT_FIELDS, v);
  }

  /** Building is signing the statement's data about the encoded target. */
  lemma {:induction false} BuiltFromTarget(id: bytes, a: Action, t: Target, target: seq<Entry>, issuedAt: int,
                                           o: Options, alg: SO.Algorithm, keyId: KeyId, sign: bytes -> bytes)
    requires EncodeTarget(t) == Ok(target)
    requires BuildStatement(id, a, t, issuedAt, o, alg, keyId, sign).Ok?
    ensures BuildStatement(id, a, t, issuedAt, o, alg, keyId, sign)
         == SO.BuildSignedObject(SO.Statement, StatementData(id, a, target, issuedAt, o), alg, keyId, sign, [], None)
  {
  }

  /** With safe data a statement is delivered as it was described. */
  lemma {:induction false} SafeDataIsDelivered(id: bytes, a: Action, t: Target, target: seq<Entry>, issuedAt: int,
                                               o: Options, signed: SO.SignedObject)
    requires EncodeTarget(t) == Ok(target) && JsSafe(Map(StatementData(id, a, target, issuedAt, o)))
    ensures Delivered(id, a, t, issuedAt, o, signed) == Described(id, a, t, issuedAt, o, signed)
  {
    var v := StatementValues(id, a, target, issuedAt, o);
    SafeValueOf(v, 2);
    SafeTargetData(t);
    SafeValueOf(v, 3);
    if o.claims.Some? {
      SafeValueOf(v, 6);
      SafeImage(Map(o.claims.value));
    }
    if o.validity.Some? {
      SafeValueOf(v, 7);
      SafeImage(Map(o.validity.value));
    }
  }

  lemma {:induction false} SafeValueOf(v: seq<Option<Value>>, i: nat)
    requires |v| == 8 && i < 8 && v[i].Some? && JsSafe(Map(Build(STATEMENT_FIELDS, v)))
    ensures JsSafe(v[i].value)
  {
    StatementNames();
    BuildGet(STATEMENT_FIELDS, v, i);
    SafeField(Build(STATEMENT_FIELDS, v), STATEMENT_FIELDS[i]);
  }

  /**
   * Parsing a built statement gives back its id, action, target, time, options and signer if and only
   * if its data and lengths are safe. With safe lengths it is delivered with its integers lowered, so
   * that its time survives exactly when it is safe. The message that was signed is rebuilt in any case.
   */
  lemma {:induction false} StatementRoundTrip(id: bytes, a: Action, t: Target, issuedAt: int, o: Options,
                                              alg: SO.Algorithm, kid: bytes, sign: bytes -> bytes)
    requires |id| <= MAX_ARG && WellFormedTarget(t) && IsJsNumber(Int(issuedAt)) && WellFormedOptions(o)
    requires SafeArg(|kid|) && BuildStatement(id, a, t, issuedAt, o, alg, ToHex(kid), sign).Ok?
    ensures EncodeTarget(t).Ok? && Encodable(Map(StatementData(id, a, EncodeTarget(t).value, issuedAt, o)))
    ensures var built := BuildStatement(id, a, t, issuedAt, o, alg, ToHex(kid), sign).value;
      var d := StatementData(id, a, EncodeTarget(t).value, issuedAt, o);
      var parsed := ParseStatement(built.wire);
      && SigMessage(built.cose, []) == Ok(built.message)
      && (parsed == Ok(Described(id, a, t, issuedAt, o, SO.AsBuilt(SO.Statement, d, alg, kid, built.cose)))
          <==> SO.Carried(built.cose, d) && JsSafe(Map(d)))
      && (SO.Carried(built.cose, d) && JsShaped(Map(d)) ==>
            && parsed == Ok(Delivered(id, a, t, issuedAt, o, SO.AsDelivered(SO.Statement, d, alg, kid, built.cose)))
            && (parsed.value.issuedAt == issuedAt <==> SafeInt(issuedAt)))
  {
    TargetRoundTrip(t);
    var target := EncodeTarget(t).value;
    BuiltFromTarget(id, a, t, target, issuedAt, o, alg, ToHex(kid), sign);
    SignedDataReadsBack(id, a, t, target, issuedAt, o, alg, kid, sign);
    LoweredMeaning(issuedAt);
  }

  lemma {:induction false} SignedDataReadsBack(id: bytes, a: Action, t: Target, target: seq<Entry>, issuedAt: int,
                                               o: Options, alg: SO.Algorithm, kid: bytes, sign: bytes -> bytes)
    requires |id| <= MAX_ARG && IsJsNumber(Int(issuedAt)) && WellFormedOptions(o) && SafeArg(|kid|)
    requires EncodeTarget(t) == Ok(target) && Profile(Map(target))
    requires DecodeTarget(JsImage(Map(target)).entries) == Ok(LoweredTarget(t))
    requires SO.BuildSignedObject(SO.Statement, StatementData(id, a, target, issuedAt, o), alg, ToHex(kid), sign, [],
                                  None).Ok?
    ensures var d := StatementData(id, a, target, issuedAt, o);
      var built := SO.BuildSignedObject(SO.Statement, d, alg, ToHex(kid), sign, [], None).value;
      var parsed := ParseStatement(built.wire);
      && SigMessage(built.cose, []) == Ok(built.message)
      && (parsed == Ok(Described(id, a, t, issuedAt, o, SO.AsBuilt(SO.Statement, d, alg, kid, built.cose)))
          <==> SO.Carried(built.cose, d) && JsSafe(Map(d)))
      && (SO.Carried(built.cose, d) && JsShaped(Map(d)) ==>
            parsed == Ok(Delivered(id, a, t, issuedAt, o, SO.AsDelivered(SO.Statement, d, alg, kid, built.cose))))
  {
    var d := StatementData(id, a, target, issuedAt, o);
    var built := SO.BuildSignedObject(SO.Statement, d, alg, ToHex(kid), sign, [], None).value;
    StatementValuesShape(id, a, target, issuedAt, o);
    SignedStatementParses(StatementValues(id, a, target, issuedAt, o), d, alg, kid, sign);
    StatementValuesRead(id, a, t, target, issuedAt, o, SO.AsDelivered(SO.Statement, d, alg, kid, built.cose));
    if ParseStatement(built.wire).Ok? {
      StatementSigned(built.wire);
    }
    if JsSafe(Map(d)) {
      SafeImage(Map(d));
      SafeDataIsDelivered(id, a, t, target, issuedAt, o, SO.AsBuilt(SO.Statement, d, alg, kid, built.cose));
    }
  }
}
