/** Stripped values are bound by the signature: only the values that were signed verify. */
module SecretBinding {
  import opened Bytes
  import opened Cbor
  import opened CborDecoder
  import opened CborLaws
  import opened Fields
  import opened ServiceState
  import opened Signing
  import opened Sorting
  import opened Verification
  import opened VerdictLaws
  import Cose
  import SO = SignedObjects

  /* ------------------------------- secrets as a map ----------------------------- */

  /** Text keys, text values, every key once. */
  ghost predicate TextMap(es: seq<Entry>)
  {
    (forall i :: 0 <= i < |es| ==> es[i].key.Tstr? && es[i].val.Tstr?) && DistinctKeys(es)
  }

  /** The same finite map. */
  ghost predicate SameSecrets(es: seq<Entry>, fs: seq<Entry>)
  {
    forall k :: Cose.Lookup(es, k) == Cose.Lookup(fs, k)
  }

  lemma {:induction false} UpsertText(es: seq<Entry>, k: string, t: string)
    requires TextMap(es)
    ensures TextMap(Upsert(es, Tstr(k), Tstr(t)))
    ensures forall i :: 0 <= i < |Upsert(es, Tstr(k), Tstr(t))| ==>
      Upsert(es, Tstr(k), Tstr(t))[i].key == Tstr(k) || exists j ::
        0 <= j < |es| && es[j].key == Upsert(es, Tstr(k), Tstr(t))[i].key
    ensures forall q ::
      Cose.Lookup(Upsert(es, Tstr(k), Tstr(t)), q) == if q == Tstr(k) then Some(Tstr(t)) else Cose.Lookup(es, q)
  {
    var r := Upsert(es, Tstr(k), Tstr(t));
    if es == [] || es[0].key == Tstr(k) {
    } else {
      var rest := es[1..];
      assert DistinctKeys(rest) by {
        forall i, j | 0 <= i < j < |rest| ensures KeyClass(rest[i].key) != KeyClass(rest[j].key) {
          assert rest[i] == es[i + 1] && rest[j] == es[j + 1];
        }
      }
      UpsertText(rest, k, t);
      var r' := Upsert(rest, Tstr(k), Tstr(t));
      assert r == [es[0]] + r';
      forall i | 0 <= i < |r'| ensures r'[i].key != es[0].key {
        if r'[i].key != Tstr(k) {
          var j :| 0 <= j < |rest| && rest[j].key == r'[i].key;
          assert KeyClass(es[0].key) != KeyClass(es[j + 1].key);
        }
      }
      forall i | 0 <= i < |r| ensures r[i].key == Tstr(k) || exists j :: 0 <= j < |es| && es[j].key == r[i].key {
        if i > 0 && r[i].key != Tstr(k) {
          var j :| 0 <= j < |rest| && rest[j].key == r'[i - 1].key;
          assert es[j + 1].key == r[i].key;
        }
      }
    }
  }

  /** Field `i` sets a property of the secrets. */
  predicate Sets(schema: seq<FieldSchema>, text: nat -> Option<string>, i: nat)
    requires i < |schema|
  {
    IsStripped(schema[i]) && schema[i].name != PROTO_NAME && text(i).Some?
  }

  lemma {:induction false} SecretMapIsText(schema: seq<FieldSchema>, text: nat -> Option<string>, n: nat)
    requires n <= |schema|
    ensures TextMap(SecretMap(schema, text, n))
  {
    if n == 0 {
    } else {
      SecretMapIsText(schema, text, n - 1);
      if Sets(schema, text, n - 1) {
        UpsertText(SecretMap(schema, text, n - 1), schema[n - 1].name, text(n - 1).value);
      }
    }
  }

  lemma {:induction false} TextMapIsProfile(es: seq<Entry>)
    requires TextMap(es) && Encodable(Map(es))
    ensures Profile(Map(es))
  {
  }

  /** Entries of one map are entries of the other, so the two are rearrangements of each other. */
  lemma {:induction false} SameSecretsPermute(es: seq<Entry>, fs: seq<Entry>)
    requires TextMap(es) && TextMap(fs) && SameSecrets(es, fs)
    ensures multiset(es) == multiset(fs)
  {
    DistinctEntries(es);
    DistinctEntries(fs);
    forall e ensures e in es <==> e in fs {
      if e in es {
        SharedEntry(es, fs, e);
      }
      if e in fs {
        SharedEntry(fs, es, e);
      }
    }
    SameMembersPermute(es, fs);
  }

  lemma {:induction false} SharedEntry(es: seq<Entry>, fs: seq<Entry>, e: Entry)
    requires TextMap(es) && SameSecrets(es, fs) && e in es
    ensures e in fs
  {
    var i :| 0 <= i < |es| && es[i] == e;
    Cose.LookupFound(es, i);
    assert Cose.Lookup(fs, e.key) == Some(e.val);
    var j := Cose.LookupWitness(fs, e.key);
  }

  lemma {:induction false} SharedKey(fs: seq<Entry>, es: seq<Entry>, j: nat)
    requires j < |fs| && Equiv(Map(es), Map(fs))
    ensures Cose.Lookup(es, fs[j].key).Some?
  {
    assert HasKey(es, fs[j].key);
    Cose.LookupMissing(es, fs[j].key);
  }

  lemma {:induction false} EquivSameSecrets(es: seq<Entry>, fs: seq<Entry>)
    requires TextMap(es) && TextMap(fs) && Equiv(Map(es), Map(fs))
    ensures SameSecrets(es, fs)
  {
    forall k ensures Cose.Lookup(es, k) == Cose.Lookup(fs, k) {
      Cose.LookupMissing(es, k);
      Cose.LookupMissing(fs, k);
      if Cose.Lookup(es, k).Some? {
        var i := Cose.LookupWitness(es, k);
        assert HasKey(fs, es[i].key);
        var j :| 0 <= j < |fs| && fs[j].key == k;
        Cose.LookupFound(fs, j);
        assert Equiv(es[i].val, fs[j].val);
      } else if Cose.Lookup(fs, k).Some? {
        var j := Cose.LookupWitness(fs, k);
        SharedKey(fs, es, j);
      }
    }
  }

  lemma {:induction false} MapEncodingNotEmpty(es: seq<Entry>)
    requires Encodable(Map(es))
    ensures Enc(Map(es)) != []
  {
  }

  /** Two sets of secrets have the same external AAD exactly when they are the same map; no secrets differ from any. */
  lemma {:induction false} AadDecides(es: seq<Entry>, fs: seq<Entry>)
    requires TextMap(es) && TextMap(fs) && Aad(es).Ok?
    ensures Aad(fs) == Aad(es) <==> SameSecrets(es, fs)
  {
    if SameSecrets(es, fs) {
      SameSecretsPermute(es, fs);
      assert |multiset(es)| == |es| && |multiset(fs)| == |fs|;
      if es != [] {
        TextMapIsProfile(es);
        MapOrderIrrelevant(es, fs);
      }
    } else if Aad(fs) == Aad(es) {
      if es == [] || fs == [] {
        if es != [] { MapEncodingNotEmpty(es); }
        if fs != [] { MapEncodingNotEmpty(fs); }
      } else {
        TextMapIsProfile(es);
        TextMapIsProfile(fs);
        EncodingDecidesEquality(Map(es), Map(fs));
        EquivSameSecrets(es, fs);
      }
    }
  }

  /* -------------------------------- ideal signatures ---------------------------- */

  /** One signature that was made: the key, the message, and the signature bytes. */
  datatype Made = Made(pub: Value, message: bytes, signature: bytes)

  /** No signature value stands for two messages under one key. */
  ghost predicate OneMessageEach(ledger: set<Made>)
  {
    forall a, b :: a in ledger && b in ledger && a.pub == b.pub && a.signature == b.signature ==> a.message == b.message
  }

  /** An ideal provider: a message verifies if and only if the signature was made for it with this key. */
  ghost predicate Ideal(env: Env, ledger: set<Made>)
  {
    forall alg, o: SO.SignedObject, pub, aad ::
      env.verifies(alg, o, pub, aad)
      <==> Cose.SigMessage(o.cose, aad).Ok? && Made(pub, Cose.SigMessage(o.cose, aad).value, o.cose.signature) in ledger
  }

  lemma {:induction false} SameMessageSameAad(cose: Cose.CoseSign1, a: bytes, b: bytes)
    requires Cose.SigMessage(cose, a).Ok? && Cose.SigMessage(cose, a) == Cose.SigMessage(cose, b)
    ensures a == b
  {
    Cose.SigStructureInjective(cose.protectedBytes, a, cose.payload, cose.protectedBytes, b, cose.payload);
  }

  /** An issued message verifies with some external AAD exactly when it is the one it was signed with. */
  lemma {:induction false} OnlySignedAadVerifies(env: Env, ledger: set<Made>, o: SO.SignedObject, pub: Value,
                                                 signed: bytes, entered: bytes)
    requires Ideal(env, ledger) && OneMessageEach(ledger)
    requires Cose.SigMessage(o.cose, signed).Ok?
    requires Made(pub, Cose.SigMessage(o.cose, signed).value, o.cose.signature) in ledger
    ensures env.verifies(o.algorithm, o, pub, entered) <==> entered == signed
  {
    if env.verifies(o.algorithm, o, pub, entered) {
      SameMessageSameAad(o.cose, signed, entered);
    }
  }

  /** What `issueSdoc` signed is the message a verifier rebuilds from the same secrets. */
  lemma {:induction false} SignedMessage(iss: Issuer, slots: seq<Slot>, issuedAt: int, key: Option<bytes -> bytes>)
    requires |slots| == |iss.schema| && SignSlots(iss, slots, issuedAt, key).Ok?
    ensures var issued := SignSlots(iss, slots, issuedAt, key).value;
      && issued.secrets == SecretMap(iss.schema, SlotText(slots), |iss.schema|)
      && Aad(issued.secrets).Ok?
      && Cose.SigMessage(issued.cose, Aad(issued.secrets).value) == Ok(issued.message)
  {
    var secrets := SecretMap(iss.schema, SlotText(slots), |slots|);
    BuiltMessage(SdocData(issuedAt, StoredValues(slots)), iss.algorithm, iss.keyId, key.value, Aad(secrets).value,
                 Some(iss.number));
  }

  /** The signed message is the Sig_structure over the message's own headers and payload. */
  lemma {:induction false} BuiltMessage(data: seq<Entry>, alg: SO.Algorithm, keyId: string, sign: bytes -> bytes,
                                        aad: bytes, n: Option<int>)
    requires SO.BuildSignedObject(SO.Sdoc, data, alg, keyId, sign, aad, n).Ok?
    ensures var built := SO.BuildSignedObject(SO.Sdoc, data, alg, keyId, sign, aad, n).value;
      Cose.SigMessage(built.cose, aad) == Ok(built.message)
  {
  }

  /**
   * Secret binding: with ideal signatures, the signature check of an issued document succeeds with
   * re-entered secrets if and only if they are, as a map, the secrets it was issued with.
   */
  lemma {:induction false} SignatureBindsSecrets(v: Verifier, ledger: set<Made>, iss: Issuer, slots: seq<Slot>,
                                                 issuedAt: int, key: Option<bytes -> bytes>, doc: SO.SignedObject,
                                                 t: SO.SignedObject)
    requires |slots| == |iss.schema| && SignSlots(iss, slots, issuedAt, key).Ok?
    requires Ideal(v.env, ledger) && OneMessageEach(ledger)
    requires var issued := SignSlots(iss, slots, issuedAt, key).value;
      doc.cose == issued.cose && Made(v.env.publicKey(t), issued.message, issued.cose.signature) in ledger
    ensures SignatureHolds(v, doc, t, iss.schema)
      <==> SameSecrets(SignSlots(iss, slots, issuedAt, key).value.secrets, SecretMap(iss.schema, v.ask, |iss.schema|))
  {
    var issued := SignSlots(iss, slots, issuedAt, key).value;
    var entered := SecretMap(iss.schema, v.ask, |iss.schema|);
    SignedMessage(iss, slots, issuedAt, key);
    SecretMapIsText(iss.schema, SlotText(slots), |iss.schema|);
    SecretMapIsText(iss.schema, v.ask, |iss.schema|);
    AadDecides(issued.secrets, entered);
    if Aad(entered).Ok? {
      OnlySignedAadVerifies(v.env, ledger, doc, v.env.publicKey(t), Aad(issued.secrets).value, Aad(entered).value);
    }
  }

  /* ------------------------------ field by field -------------------------------- */

  /** A secret that the signature can bind: signed but not stored, under a name that makes a property. */
  predicate IsSecret(f: FieldSchema) { IsStripped(f) && f.name != PROTO_NAME }

  /** The text of the last of the first `n` fields that is stripped, has this name, and has a text. */
  function LastText(schema: seq<FieldSchema>, text: nat -> Option<string>, name: string, n: nat): Option<string>
    requires n <= |schema|
  {
    if n == 0 then None
    else if IsStripped(schema[n - 1]) && schema[n - 1].name == name && text(n - 1).Some? then text(n - 1)
    else LastText(schema, text, name, n - 1)
  }

  function AsText(t: Option<string>): Option<Value>
  {
    match t case None => None case Some(s) => Some(Tstr(s))
  }

  lemma {:induction false} SecretLookup(schema: seq<FieldSchema>, text: nat -> Option<string>, n: nat, name: string)
    requires n <= |schema|
    ensures Cose.Lookup(SecretMap(schema, text, n), Tstr(name))
         == if name == PROTO_NAME then None else AsText(LastText(schema, text, name, n))
  {
    if n == 0 {
    } else {
      SecretLookup(schema, text, n - 1, name);
      SecretMapIsText(schema, text, n - 1);
      if Sets(schema, text, n - 1) {
        UpsertText(SecretMap(schema, text, n - 1), schema[n - 1].name, text(n - 1).value);
      }
    }
  }

  lemma {:induction false} OnlyTextsLookUp(es: seq<Entry>, k: Value)
    requires TextMap(es) && !k.Tstr?
    ensures Cose.Lookup(es, k) == None
  {
    Cose.LookupMissing(es, k);
  }

  /** A name that no secret has is never looked up with success. */
  lemma {:induction false} NoSuchSecret(schema: seq<FieldSchema>, text: nat -> Option<string>, name: string, n: nat)
    requires n <= |schema| && forall i :: 0 <= i < n && IsStripped(schema[i]) ==> schema[i].name != name
    ensures LastText(schema, text, name, n) == None
  {
    if n == 0 {
    } else {
      NoSuchSecret(schema, text, name, n - 1);
    }
  }

  /** Under the name of every secret, the last text given for it is the last text of the others. */
  predicate SecretsMatch(schema: seq<FieldSchema>, t: nat -> Option<string>, u: nat -> Option<string>)
  {
    forall i :: 0 <= i < |schema| && IsSecret(schema[i]) ==>
      LastText(schema, t, schema[i].name, |schema|) == LastText(schema, u, schema[i].name, |schema|)
  }

  /** Two sets of secrets are the same map exactly when they match name by name. */
  lemma {:induction false} SecretsByName(schema: seq<FieldSchema>, t: nat -> Option<string>, u: nat -> Option<string>)
    ensures SameSecrets(SecretMap(schema, t, |schema|), SecretMap(schema, u, |schema|)) <==> SecretsMatch(schema, t, u)
  {
    var es, fs := SecretMap(schema, t, |schema|), SecretMap(schema, u, |schema|);
    if SecretsMatch(schema, t, u) {
      forall k ensures Cose.Lookup(es, k) == Cose.Lookup(fs, k) {
        SameUnderKey(schema, t, u, k);
      }
    } else {
      var i :| 0 <= i < |schema| && IsSecret(schema[i])
        && LastText(schema, t, schema[i].name, |schema|) != LastText(schema, u, schema[i].name, |schema|);
      SecretLookup(schema, t, |schema|, schema[i].name);
      SecretLookup(schema, u, |schema|, schema[i].name);
      assert Cose.Lookup(es, Tstr(schema[i].name)) != Cose.Lookup(fs, Tstr(schema[i].name));
    }
  }

  lemma {:induction false} SameUnderKey(schema: seq<FieldSchema>, t: nat -> Option<string>, u: nat -> Option<string>,
                                        k: Value)
    requires SecretsMatch(schema, t, u)
    ensures Cose.Lookup(SecretMap(schema, t, |schema|), k) == Cose.Lookup(SecretMap(schema, u, |schema|), k)
  {
    SecretMapIsText(schema, t, |schema|);
    SecretMapIsText(schema, u, |schema|);
    if k.Tstr? {
      SecretLookup(schema, t, |schema|, k.s);
      SecretLookup(schema, u, |schema|, k.s);
      if forall i :: 0 <= i < |schema| && IsStripped(schema[i]) ==> schema[i].name != k.s {
        NoSuchSecret(schema, t, k.s, |schema|);
        NoSuchSecret(schema, u, k.s, |schema|);
      }
    } else {
      OnlyTextsLookUp(SecretMap(schema, t, |schema|), k);
      OnlyTextsLookUp(SecretMap(schema, u, |schema|), k);
    }
  }

  /** A later secret has the same name. */
  predicate Shadowed(schema: seq<FieldSchema>, i: nat)
    requires i < |schema|
  {
    exists j :: i < j < |schema| && IsStripped(schema[j]) && schema[j].name == schema[i].name
  }

  lemma {:induction false} LastOfName(schema: seq<FieldSchema>, text: nat -> Option<string>, i: nat, n: nat)
    requires i < n <= |schema| && IsStripped(schema[i]) && text(i).Some?
    requires forall j :: i < j < n && IsStripped(schema[j]) ==> schema[j].name != schema[i].name
    ensures LastText(schema, text, schema[i].name, n) == text(i)
  {
    if i == n - 1 {
    } else {
      LastOfName(schema, text, i, n - 1);
    }
  }

  /** With every stripped field answered, two sets of answers match exactly when they agree on the last of each name. */
  lemma {:induction false} AnswersMatch(schema: seq<FieldSchema>, t: nat -> Option<string>, u: nat -> Option<string>)
    requires AllAnswered(schema, t) && AllAnswered(schema, u)
    ensures SecretsMatch(schema, t, u)
      <==> forall i :: 0 <= i < |schema| && IsSecret(schema[i]) && !Shadowed(schema, i) ==> t(i) == u(i)
  {
    forall i | 0 <= i < |schema| && IsSecret(schema[i]) && !Shadowed(schema, i)
      ensures LastText(schema, t, schema[i].name, |schema|) == t(i)
      ensures LastText(schema, u, schema[i].name, |schema|) == u(i)
    {
      LastOfName(schema, t, i, |schema|);
      LastOfName(schema, u, i, |schema|);
    }
    forall i | 0 <= i < |schema| && IsSecret(schema[i])
      ensures exists j ::
        0 <= j < |schema| && IsSecret(schema[j]) && !Shadowed(schema, j) && schema[j].name == schema[i].name
    {
      var j := LastIndex(schema, i);
    }
  }

  lemma {:induction false} LastIndex(schema: seq<FieldSchema>, i: nat) returns (j: nat)
    requires i < |schema| && IsSecret(schema[i])
    ensures j < |schema| && IsSecret(schema[j]) && !Shadowed(schema, j) && schema[j].name == schema[i].name
    decreases |schema| - i
  {
    j := i;
    if Shadowed(schema, i) {
      var k :| i < k < |schema| && IsStripped(schema[k]) && schema[k].name == schema[i].name;
      j := LastIndex(schema, k);
    }
  }

  /** Stripped fields have different names. */
  ghost predicate DistinctSecretNames(schema: seq<FieldSchema>)
  {
    forall i, j :: 0 <= i < j < |schema| && IsStripped(schema[i]) && IsStripped(schema[j]) ==>
      schema[i].name != schema[j].name
  }

  lemma {:induction false} OnlyText(schema: seq<FieldSchema>, text: nat -> Option<string>, i: nat, n: nat)
    requires i < |schema| && n <= |schema| && DistinctSecretNames(schema) && IsStripped(schema[i])
    ensures LastText(schema, text, schema[i].name, n) == if i < n then text(i) else None
  {
    if n == 0 {
    } else {
      OnlyText(schema, text, i, n - 1);
      assert IsStripped(schema[n - 1]) && n - 1 != i ==> schema[n - 1].name != schema[i].name;
    }
  }

  /**
   * With distinct names, re-entering the secrets succeeds if and only if every stripped field, but for
   * one named `__proto__`, was given at issuance and is entered exactly as it was: an omitted one can
   * never be entered.
   */
  lemma {:induction false} SecretsFieldByField(schema: seq<FieldSchema>, slots: seq<Slot>, ask: nat -> Option<string>)
    requires |slots| == |schema| && DistinctSecretNames(schema) && AllAnswered(schema, ask)
    ensures SameSecrets(SecretMap(schema, SlotText(slots), |schema|), SecretMap(schema, ask, |schema|))
      <==> forall i :: 0 <= i < |schema| && IsSecret(schema[i]) ==> slots[i].Stripped? && ask(i) == Some(slots[i].text)
  {
    SecretsByName(schema, SlotText(slots), ask);
    forall i | 0 <= i < |schema| && IsSecret(schema[i])
      ensures LastText(schema, SlotText(slots), schema[i].name, |schema|) == SlotText(slots)(i)
      ensures LastText(schema, ask, schema[i].name, |schema|) == ask(i)
    {
      OnlyText(schema, SlotText(slots), i, |schema|);
      OnlyText(schema, ask, i, |schema|);
    }
  }

  lemma {:induction false} MatchesLikewise(schema: seq<FieldSchema>, t: nat -> Option<string>, u: nat -> Option<string>,
                                           w: nat -> Option<string>)
    requires SecretsMatch(schema, t, u)
    ensures SecretsMatch(schema, t, w) <==> SecretsMatch(schema, u, w)
  {
  }

  /**
   * Which answers are bound: when the secrets entered for an issued document pass the signature check,
   * another text for the stripped field `i` passes too if and only if the field is named `__proto__` or
   * a later stripped field has its name.
   */
  lemma {:induction false} AnswerIsBound(v: Verifier, ledger: set<Made>, iss: Issuer, slots: seq<Slot>, issuedAt: int,
                                         key: Option<bytes -> bytes>, doc: SO.SignedObject, t: SO.SignedObject,
                                         ask: nat -> Option<string>, i: nat)
    requires |slots| == |iss.schema| && SignSlots(iss, slots, issuedAt, key).Ok?
    requires Ideal(v.env, ledger) && OneMessageEach(ledger)
    requires var issued := SignSlots(iss, slots, issuedAt, key).value;
      doc.cose == issued.cose && Made(v.env.publicKey(t), issued.message, issued.cose.signature) in ledger
    requires AllAnswered(iss.schema, v.ask) && SignatureHolds(v, doc, t, iss.schema)
    requires AllAnswered(iss.schema, ask) && i < |iss.schema| && IsStripped(iss.schema[i]) && ask(i) != v.ask(i)
    requires forall j :: 0 <= j < |iss.schema| && j != i ==> ask(j) == v.ask(j)
    ensures SignatureHolds(v.(ask := ask), doc, t, iss.schema)
      <==> iss.schema[i].name == PROTO_NAME || Shadowed(iss.schema, i)
  {
    SignedMessage(iss, slots, issuedAt, key);
    SignatureBindsSecrets(v, ledger, iss, slots, issuedAt, key, doc, t);
    SignatureBindsSecrets(v.(ask := ask), ledger, iss, slots, issuedAt, key, doc, t);
    SecretsByName(iss.schema, SlotText(slots), v.ask);
    SecretsByName(iss.schema, SlotText(slots), ask);
    MatchesLikewise(iss.schema, SlotText(slots), v.ask, ask);
    AnswersMatch(iss.schema, v.ask, ask);
  }

  /** When all stripped fields are named `__proto__`, the signature binds none: any answers pass. */
  lemma {:induction false} ProtoSecretsAreUnbound(v: Verifier, ledger: set<Made>, iss: Issuer, slots: seq<Slot>,
                                                  issuedAt: int, key: Option<bytes -> bytes>, doc: SO.SignedObject,
                                                  t: SO.SignedObject)
    requires |slots| == |iss.schema| && SignSlots(iss, slots, issuedAt, key).Ok?
    requires Ideal(v.env, ledger) && OneMessageEach(ledger)
    requires var issued := SignSlots(iss, slots, issuedAt, key).value;
      doc.cose == issued.cose && Made(v.env.publicKey(t), issued.message, issued.cose.signature) in ledger
    requires forall i :: 0 <= i < |iss.schema| && IsStripped(iss.schema[i]) ==> iss.schema[i].name == PROTO_NAME
    ensures SignSlots(iss, slots, issuedAt, key).value.secrets == []
    ensures SignatureHolds(v, doc, t, iss.schema)
  {
    NoSecrets(iss.schema, SlotText(slots), |iss.schema|);
    NoSecrets(iss.schema, v.ask, |iss.schema|);
    SignedMessage(iss, slots, issuedAt, key);
    SignatureBindsSecrets(v, ledger, iss, slots, issuedAt, key, doc, t);
  }

  lemma {:induction false} NoSecrets(schema: seq<FieldSchema>, text: nat -> Option<string>, n: nat)
    requires n <= |schema| && forall i :: 0 <= i < n ==> !IsSecret(schema[i])
    ensures SecretMap(schema, text, n) == []
  {
    if n == 0 {
    } else {
      NoSecrets(schema, text, n - 1);
    }
  }
}
