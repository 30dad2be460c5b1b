/**
 * What the parsers accept, and as what: for every input, an object or a statement is read from it if and
 * only if its parts are where the protocol puts them, under their names and numbers.
 */
module Parsing {
  import opened Bytes
  import opened Cbor
  import opened Cose
  import opened Ids
  import opened JsDecoder
  import SO = SignedObjects
  import St = Statements

  /* ----------------------------------- messages --------------------------------- */

  /** The protected headers hold a number under 1, bytes under 4, and under -70001 nothing or 1 to 255. */
  ghost predicate AreHeaders(es: seq<Entry>, alg: int, kid: bytes, n: Option<int>)
  {
    && Lookup(es, Int(1)) == Some(Int(alg)) && -0x1F_FFFF_FFFF_FFFF <= alg <= 0x1F_FFFF_FFFF_FFFF
    && Lookup(es, Int(4)) == Some(Bstr(kid))
    && Lookup(es, Int(-70001)) == (if n.Some? then Some(Int(n.value)) else None)
    && (n.Some? ==> 1 <= n.value <= 255)
  }

  /** The message is an array of four byte strings, the first one a map of headers. */
  ghost predicate IsMessage(wire: bytes, c: CoseSign1)
  {
    && JsCbor(wire) == Ok(Array([Bstr(c.protectedBytes), Bstr(c.unprotectedBytes), Bstr(c.payload), Bstr(c.signature)]))
    && JsCbor(c.protectedBytes).Ok? && JsCbor(c.protectedBytes).value.Map?
    && AreHeaders(JsCbor(c.protectedBytes).value.entries, c.alg, c.kid, c.tcertNumber)
  }

  lemma {:induction false} HeadersMeaning(es: seq<Entry>, alg: int, kid: bytes, n: Option<int>)
    ensures HeadersOf(es) == Ok(Headers(alg, kid, n)) <==> AreHeaders(es, alg, kid, n)
  {
  }

  lemma {:induction false} MessageMeaning(wire: bytes, c: CoseSign1)
    ensures DecodeCoseSign1(wire) == Ok(c) <==> IsMessage(wire, c)
  {
    if JsCbor(wire).Ok? && JsCbor(wire).value.Array? && |JsCbor(wire).value.items| == 4 {
      PartsMeaning(JsCbor(wire).value.items, c);
    }
  }

  lemma {:induction false} PartsMeaning(xs: seq<Value>, c: CoseSign1)
    requires |xs| == 4
    ensures (CoseOf(xs) == Ok(c))
      <==> && xs == [Bstr(c.protectedBytes), Bstr(c.unprotectedBytes), Bstr(c.payload), Bstr(c.signature)]
           && JsCbor(c.protectedBytes).Ok? && JsCbor(c.protectedBytes).value.Map?
           && AreHeaders(JsCbor(c.protectedBytes).value.entries, c.alg, c.kid, c.tcertNumber)
  {
    assert xs == [xs[0], xs[1], xs[2], xs[3]];
    if JsCbor(c.protectedBytes).Ok? && JsCbor(c.protectedBytes).value.Map? {
      HeadersMeaning(JsCbor(c.protectedBytes).value.entries, c.alg, c.kid, c.tcertNumber);
    }
  }

  /* ------------------------------------ objects --------------------------------- */

  predicate Text(v: Option<Value>) { v.Some? && v.value.Tstr? }

  predicate Blob(v: Option<Value>) { v.Some? && v.value.Bstr? }

  predicate Dict(v: Option<Value>) { v.Some? && v.value.Map? }

  predicate List(v: Option<Value>) { v.Some? && v.value.Array? }

  predicate Number(v: Option<Value>)
  {
    v.Some? && v.value.Int? && -0x1F_FFFF_FFFF_FFFF <= v.value.i <= 0x1F_FFFF_FFFF_FFFF
  }

  predicate IsTcertData(d: seq<Entry>)
  {
    && Blob(St.Get(d, "keyId")) && Number(St.Get(d, "certificateNumber")) && Text(St.Get(d, "algorithm"))
    && Dict(St.Get(d, "publicKey")) && Dict(St.Get(d, "identity"))
    && (St.Get(d, "schema").None? || List(St.Get(d, "schema")))
    && (St.Get(d, "hashAlgorithm").None? || Text(St.Get(d, "hashAlgorithm")))
    && (St.Get(d, "validity").None? || Dict(St.Get(d, "validity")))
    && (St.Get(d, "metadata").None? || Dict(St.Get(d, "metadata")))
    && (St.Get(d, "onlineEndpoint").None? || Text(St.Get(d, "onlineEndpoint")))
  }

  predicate IsSdocData(d: seq<Entry>) { Number(St.Get(d, "issuedAt")) && List(St.Get(d, "fields")) }

  predicate IsStatementData(d: seq<Entry>)
  {
    && Blob(St.Get(d, "statementId")) && Text(St.Get(d, "action")) && Dict(St.Get(d, "target"))
    && Number(St.Get(d, "issuedAt"))
    && (St.Get(d, "validity").None? || Dict(St.Get(d, "validity")))
    && (St.Get(d, "reason").None? || Text(St.Get(d, "reason")))
    && (St.Get(d, "revocationType").None? || Text(St.Get(d, "revocationType")))
    && (St.Get(d, "claims").None? || Dict(St.Get(d, "claims")))
  }

  predicate IsAttachmentData(d: seq<Entry>)
  {
    && Text(St.Get(d, "id")) && Text(St.Get(d, "contentType")) && Text(St.Get(d, "contentHash"))
    && Blob(St.Get(d, "content")) && Number(St.Get(d, "issuedAt"))
  }

  lemma {:induction false} TcertDataConforms(d: seq<Entry>)
    requires IsTcertData(d)
    ensures SO.Conforms(SO.Tcert, d)
  {
    assert |SO.DataSchema(SO.Tcert)| == 10;
  }

  lemma {:induction false} ConformingTcertData(d: seq<Entry>)
    requires SO.Conforms(SO.Tcert, d)
    ensures IsTcertData(d)
  {
    var fs := SO.DataSchema(SO.Tcert);
    assert |fs| == 10;
    assert SO.FieldConforms(d, fs[0]) && SO.FieldConforms(d, fs[1]) && SO.FieldConforms(d, fs[2]);
    assert SO.FieldConforms(d, fs[3]) && SO.FieldConforms(d, fs[4]) && SO.FieldConforms(d, fs[5]);
    assert SO.FieldConforms(d, fs[6]) && SO.FieldConforms(d, fs[7]) && SO.FieldConforms(d, fs[8]);
    assert SO.FieldConforms(d, fs[9]);
  }

  lemma {:induction false} SdocDataMeaning(d: seq<Entry>)
    ensures SO.Conforms(SO.Sdoc, d) <==> IsSdocData(d)
  {
    var fs := SO.DataSchema(SO.Sdoc);
    if SO.Conforms(SO.Sdoc, d) {
      assert SO.FieldConforms(d, fs[0]) && SO.FieldConforms(d, fs[1]);
    }
  }

  lemma {:induction false} StatementDataConforms(d: seq<Entry>)
    requires IsStatementData(d)
    ensures SO.Conforms(SO.Statement, d)
  {
    assert |SO.DataSchema(SO.Statement)| == 8;
  }

  lemma {:induction false} ConformingStatementData(d: seq<Entry>)
    requires SO.Conforms(SO.Statement, d)
    ensures IsStatementData(d)
  {
    var fs := SO.DataSchema(SO.Statement);
    assert |fs| == 8;
    assert SO.FieldConforms(d, fs[0]) && SO.FieldConforms(d, fs[1]) && SO.FieldConforms(d, fs[2]);
    assert SO.FieldConforms(d, fs[3]) && SO.FieldConforms(d, fs[4]) && SO.FieldConforms(d, fs[5]);
    assert SO.FieldConforms(d, fs[6]) && SO.FieldConforms(d, fs[7]);
  }

  lemma {:induction false} AttachmentDataMeaning(d: seq<Entry>)
    ensures SO.Conforms(SO.Attachment, d) <==> IsAttachmentData(d)
  {
    var fs := SO.DataSchema(SO.Attachment);
    assert |fs| == 5;
    if SO.Conforms(SO.Attachment, d) {
      assert SO.FieldConforms(d, fs[0]) && SO.FieldConforms(d, fs[1]) && SO.FieldConforms(d, fs[2]);
      assert SO.FieldConforms(d, fs[3]) && SO.FieldConforms(d, fs[4]);
    }
  }

  predicate IsDataOf(k: SO.ObjectType, d: seq<Entry>)
  {
    && (forall i :: 0 <= i < |d| ==> d[i].key.Tstr?)
    && match k
       case Tcert => IsTcertData(d)
       case Sdoc => IsSdocData(d)
       case Statement => IsStatementData(d)
       case Attachment => IsAttachmentData(d)
  }

  /** The payload is the version 1, the name of a type, and bytes that hold data of this type. */
  ghost predicate IsObject(wire: bytes, o: SO.SignedObject)
  {
    && IsMessage(wire, o.cose)
    && JsCbor(o.cose.payload) == Ok(Array([Int(1), Tstr(NameOf(o.kind)), Bstr(o.dataBytes)]))
    && o.cose.alg == (if o.algorithm == SO.Ed25519 then -8 else -7)
    && o.signerKeyId == ToHex(o.cose.kid)
    && JsCbor(o.dataBytes) == Ok(Map(o.data)) && IsDataOf(o.kind, o.data)
  }

  function NameOf(k: SO.ObjectType): string
  {
    match k
    case Tcert => "tcert"
    case Sdoc => "sdoc"
    case Statement => "statement"
    case Attachment => "attachment"
  }

  lemma {:induction false} DataMeaning(k: SO.ObjectType, d: seq<Entry>)
    ensures SO.TextKeys(d) && SO.Conforms(k, d) <==> IsDataOf(k, d)
  {
    match k {
      case Tcert =>
        if SO.Conforms(k, d) { ConformingTcertData(d); } else if IsTcertData(d) { TcertDataConforms(d); }
      case Sdoc => SdocDataMeaning(d);
      case Statement =>
        if SO.Conforms(k, d) { ConformingStatementData(d); } else if IsStatementData(d) { StatementDataConforms(d); }
      case Attachment => AttachmentDataMeaning(d);
    }
  }

  lemma {:induction false} TypeNamesMeaning(t: string, k: SO.ObjectType)
    ensures SO.TypeOfName(t) == Some(k) <==> t == NameOf(k)
  {
    assert "tcert"[0] == 't' && "sdoc"[0] == 's' && |"sdoc"| == 4 && |"statement"| == 9 && "attachment"[0] == 'a';
  }

  /** An input parses as an object if and only if it is this object's message. */
  lemma {:induction false} ObjectMeaning(wire: bytes, o: SO.SignedObject)
    ensures SO.ParseSignedObject(wire) == Ok(o) <==> IsObject(wire, o)
  {
    MessageMeaning(wire, o.cose);
    if IsMessage(wire, o.cose) {
      var inner := JsCbor(o.cose.payload);
      if inner.Ok? && inner.value.Array? && |inner.value.items| == 3 {
        EnvelopeMeaning(o.cose, inner.value.items, o);
      }
    } else if SO.ParseSignedObject(wire) == Ok(o) {
      OpenedFrom(wire, o);
    }
  }

  lemma {:induction false} OpenedFrom(wire: bytes, o: SO.SignedObject)
    requires SO.ParseSignedObject(wire) == Ok(o)
    ensures DecodeCoseSign1(wire) == Ok(o.cose)
  {
  }

  lemma {:induction false} EnvelopeMeaning(c: CoseSign1, xs: seq<Value>, o: SO.SignedObject)
    requires |xs| == 3 && c == o.cose
    ensures (SO.OpenEnvelope(c, xs) == Ok(o))
      <==> && xs == [Int(1), Tstr(NameOf(o.kind)), Bstr(o.dataBytes)]
           && c.alg == (if o.algorithm == SO.Ed25519 then -8 else -7)
           && o.signerKeyId == ToHex(c.kid)
           && JsCbor(o.dataBytes) == Ok(Map(o.data)) && IsDataOf(o.kind, o.data)
  {
    assert xs == [xs[0], xs[1], xs[2]];
    if xs[1].Tstr? { TypeNamesMeaning(xs[1].s, o.kind); }
    DataMeaning(o.kind, o.data);
  }

  /* ---------------------------------- statements -------------------------------- */

  /** The kind of a target decides which of its properties count; an empty hash counts as none. */
  ghost predicate IsTarget(raw: seq<Entry>, t: St.Target)
  {
    && (forall i :: 0 <= i < |raw| ==> raw[i].key.Tstr?)
    && match t
       case TcertTarget(keyId, n, hash) =>
         && St.Get(raw, "kind") == Some(Tstr("tcert"))
         && Blob(St.Get(raw, "keyId")) && keyId == ToHex(St.Get(raw, "keyId").value.bs)
         && St.Get(raw, "certificateNumber") == Some(Int(n)) && Number(St.Get(raw, "certificateNumber"))
         && hash == (if Text(St.Get(raw, "tcertHash")) && St.Get(raw, "tcertHash").value.s != "" then
                       Some(St.Get(raw, "tcertHash").value.s)
                     else None)
       case KeyTarget(keyId) =>
         && St.Get(raw, "kind") == Some(Tstr("key"))
         && Blob(St.Get(raw, "keyId")) && keyId == ToHex(St.Get(raw, "keyId").value.bs)
       case SdocTarget(sdocId) =>
         && St.Get(raw, "kind") == Some(Tstr("sdoc"))
         && Blob(St.Get(raw, "sdocId")) && sdocId == ToHex(St.Get(raw, "sdocId").value.bs)
  }

  lemma {:induction false} TargetMeaning(raw: seq<Entry>, t: St.Target)
    ensures St.DecodeTarget(raw) == Ok(t) <==> IsTarget(raw, t)
  {
    assert "tcert"[0] == 't' && "key"[0] == 'k' && "sdoc"[0] == 's';
  }

  function WordOf(a: St.Action): string
  {
    match a
    case Attest => "attest"
    case AddTcert => "addTcert"
    case RevokeAttestation => "revokeAttestation"
    case RevokeTcert => "revokeTcert"
    case BlockSdoc => "blockSdoc"
    case UnblockSdoc => "unblockSdoc"
  }

  function RevocationWord(r: St.RevocationType): string
  {
    match r case Prospective => "prospective" case Retrospective => "retrospective"
  }

  lemma {:induction false} ActionMeaning(t: string, a: St.Action)
    ensures St.ActionOf(t) == Some(a) <==> t == WordOf(a)
  {
    St.NamesReadBack(a, St.Prospective);
  }

  lemma {:induction false} RevocationMeaning(t: string, r: St.RevocationType)
    ensures St.RevocationOf(t) == Some(r) <==> t == RevocationWord(r)
  {
    St.NamesReadBack(St.Attest, r);
  }

  /** A statement is an object of its type; who signed it is read from its headers. */
  ghost predicate IsStatement(wire: bytes, st: St.Statement)
  {
    && IsObject(wire, st.signed) && st.signed.kind == SO.Statement && st.signerKeyId == ToHex(st.signed.cose.kid)
    && var d := st.signed.data;
      && Blob(St.Get(d, "statementId")) && st.statementId == ToHex(St.Get(d, "statementId").value.bs)
      && St.Get(d, "action") == Some(Tstr(WordOf(st.action)))
      && Dict(St.Get(d, "target")) && IsTarget(St.Get(d, "target").value.entries, st.target)
      && St.Get(d, "issuedAt") == Some(Int(st.issuedAt))
      && St.Get(d, "reason") == (if st.reason.Some? then Some(Tstr(st.reason.value)) else None)
      && St.Get(d, "revocationType")
         == (if st.revocationType.Some? then Some(Tstr(RevocationWord(st.revocationType.value))) else None)
      && St.Get(d, "claims") == st.claims && St.Get(d, "validity") == st.validity
  }

  /** An input parses as a statement if and only if it is this statement. */
  lemma {:induction false} StatementMeaning(wire: bytes, st: St.Statement)
    ensures St.ParseStatement(wire) == Ok(st) <==> IsStatement(wire, st)
  {
    ObjectMeaning(wire, st.signed);
    if IsObject(wire, st.signed) && st.signed.kind == SO.Statement {
      StatementPartsMeaning(st);
    }
  }

  lemma {:induction false} StatementPartsMeaning(st: St.Statement)
    requires st.signed.kind == SO.Statement && IsDataOf(SO.Statement, st.signed.data)
    ensures (St.StatementOf(st.signed) == Ok(st))
      <==> && st.signerKeyId == st.signed.signerKeyId
           && var d := st.signed.data;
             && Blob(St.Get(d, "statementId")) && st.statementId == ToHex(St.Get(d, "statementId").value.bs)
             && St.Get(d, "action") == Some(Tstr(WordOf(st.action)))
             && Dict(St.Get(d, "target")) && IsTarget(St.Get(d, "target").value.entries, st.target)
             && St.Get(d, "issuedAt") == Some(Int(st.issuedAt))
             && St.Get(d, "reason") == (if st.reason.Some? then Some(Tstr(st.reason.value)) else None)
             && St.Get(d, "revocationType")
                == (if st.revocationType.Some? then Some(Tstr(RevocationWord(st.revocationType.value))) else None)
             && St.Get(d, "claims") == st.claims && St.Get(d, "validity") == st.validity
  {
    var d := st.signed.data;
    ActionMeaning(St.Get(d, "action").value.s, st.action);
    TargetMeaning(St.Get(d, "target").value.entries, st.target);
    if St.Get(d, "revocationType").Some? && st.revocationType.Some? {
      RevocationMeaning(St.Get(d, "revocationType").value.s, st.revocationType.value);
    }
  }
}
