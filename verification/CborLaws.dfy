/** Laws of the codec: round trip with remainder, injectivity, prefix-freeness, order independence. */
module CborLaws {
  import opened Bytes
  import opened CborHeads
  import opened Cbor
  import opened CborDecoder
  import opened Sorting
  import opened Utf8

  /* --------------------------------- list views --------------------------------- */

  lemma {:induction false} EncEntriesAt(es: seq<Entry>, i: nat)
    requires EncodableEntries(es) && i < |es|
    ensures EncEntries(es)[i] == EncEntry(es[i])
  {
    if i > 0 { EncEntriesAt(es[1..], i - 1); }
  }

  lemma {:induction false} CanonEntriesAt(es: seq<Entry>, i: nat)
    requires i < |es|
    ensures CanonEntries(es)[i] == CanonEntry(es[i])
  {
    if i > 0 { CanonEntriesAt(es[1..], i - 1); }
  }

  lemma {:induction false} CanonItemsAt(items: seq<Value>, i: nat)
    requires i < |items|
    ensures CanonItems(items)[i] == Canon(items[i])
  {
    if i > 0 { CanonItemsAt(items[1..], i - 1); }
  }

  /* ------------------------- sorting entries and their bytes --------------------- */

  lemma {:induction false} InsertEncCommutes(e: Entry, es: seq<Entry>)
    requires EncodableEntries(es) && Encodable(e.key) && Encodable(e.val)
    ensures EncodableEntries(Insert(e, es, EntryLe))
    ensures EncEntries(Insert(e, es, EntryLe)) == Insert(EncEntry(e), EncEntries(es), PairLe)
  {
    if es == [] || EntryLe(e, es[0]) {
      assert ([e] + es)[1..] == es;
    } else {
      InsertEncCommutes(e, es[1..]);
      var rest := Insert(e, es[1..], EntryLe);
      assert ([es[0]] + rest)[1..] == rest;
      assert EncEntries(es)[1..] == EncEntries(es[1..]);
    }
  }

  /** Sorting then encoding entries is encoding then sorting them. */
  lemma {:induction false} SortEncCommutes(es: seq<Entry>)
    requires EncodableEntries(es)
    ensures EncodableEntries(Sort(es, EntryLe))
    ensures EncEntries(Sort(es, EntryLe)) == Sort(EncEntries(es), PairLe)
  {
    if es == [] {
    } else {
      SortEncCommutes(es[1..]);
      var rest := Sort(es[1..], EntryLe);
      SortMembers(es[1..], EntryLe);
      InsertEncCommutes(es[0], rest);
      assert EncEntries(es)[1..] == EncEntries(es[1..]);
    }
  }

  lemma {:induction false} InsertCanonCommutes(e: Entry, es: seq<Entry>)
    ensures CanonEntries(Insert(e, es, EntryLe)) == Insert(CanonEntry(e), CanonEntries(es), EntryLe)
  {
    if es == [] || EntryLe(e, es[0]) {
      assert ([e] + es)[1..] == es;
    } else {
      InsertCanonCommutes(e, es[1..]);
      var rest := Insert(e, es[1..], EntryLe);
      assert ([es[0]] + rest)[1..] == rest;
      assert CanonEntries(es)[1..] == CanonEntries(es[1..]);
    }
  }

  lemma {:induction false} SortCanonCommutes(es: seq<Entry>)
    ensures CanonEntries(Sort(es, EntryLe)) == Sort(CanonEntries(es), EntryLe)
  {
    if es == [] {
    } else {
      SortCanonCommutes(es[1..]);
      InsertCanonCommutes(es[0], Sort(es[1..], EntryLe));
      assert CanonEntries(es)[1..] == CanonEntries(es[1..]);
    }
  }

  lemma {:induction false} DistinctEntries(es: seq<Entry>)
    requires DistinctKeys(es)
    ensures NoDuplicates(es)
  {
  }

  lemma {:induction false} CountedTwice(b: seq<Entry>, i: nat, j: nat)
    requires i < j < |b| && b[i] == b[j]
    ensures multiset(b)[b[i]] >= 2
  {
    assert b == b[..i] + [b[i]] + b[i + 1..j] + [b[j]] + b[j + 1..];
  }

  lemma {:induction false} DistinctKeysPermute(a: seq<Entry>, b: seq<Entry>)
    requires DistinctKeys(a) && multiset(a) == multiset(b)
    ensures DistinctKeys(b)
  {
    forall i, j | 0 <= i < j < |b| ensures KeyClass(b[i].key) != KeyClass(b[j].key) {
      if KeyClass(b[i].key) == KeyClass(b[j].key) {
        assert b[i] in multiset(a) && b[j] in multiset(a);
        var p :| 0 <= p < |a| && a[p] == b[i];
        var q :| 0 <= q < |a| && a[q] == b[j];
        assert p == q;
        CountedTwice(b, i, j);
        NoDuplicatesCount(a, a[p]);
      }
    }
  }

  lemma {:induction false} SortedProfile(es: seq<Entry>)
    requires ProfileEntries(es)
    ensures ProfileEntries(Sort(es, EntryLe))
  {
    var s := Sort(es, EntryLe);
    SortPermutes(es, EntryLe);
    SortMembers(es, EntryLe);
    DistinctKeysPermute(es, s);
    forall i | 0 <= i < |s| ensures Encodable(s[i].key) && Encodable(s[i].val) && IsKey(s[i].key) && Profile(s[i].val) {
      assert s[i] in es;
    }
  }

  /* ---------------------------------- round trip -------------------------------- */

  lemma {:induction false} UpsertFresh(es: seq<Entry>, k: Value, v: Value)
    requires forall i :: 0 <= i < |es| ==> KeyClass(es[i].key) != KeyClass(k)
    ensures Upsert(es, k, v) == es + [Entry(k, v)]
  {
    if es == [] {
    } else {
      UpsertFresh(es[1..], k, v);
    }
  }

  lemma {:induction false} ReadIntBack(i: int, data: bytes, pos: nat)
    requires Profile(Int(i)) && At(data, pos, EncInt(i))
    ensures ReadValue(data, pos) == Done(Int(i), pos + |EncInt(i)|)
  {
    if i >= 0 { HeadRoundTrip(MT_UINT, i, data, pos); } else { HeadRoundTrip(MT_NINT, -i - 1, data, pos); }
  }

  lemma {:induction false} ReadBytesBack(b: bytes, data: bytes, pos: nat)
    requires |b| <= MAX_ARG && At(data, pos, Head(MT_BYTES, |b|) + b)
    ensures ReadValue(data, pos) == Done(Bstr(b), pos + |Head(MT_BYTES, |b|) + b|)
  {
    AtSplit(data, pos, Head(MT_BYTES, |b|), b);
    HeadRoundTrip(MT_BYTES, |b|, data, pos);
  }

  lemma {:induction false} ReadTextBack(t: string, b: bytes, data: bytes, pos: nat)
    requires DecodeUtf8(b) == Some(t) && |b| <= MAX_ARG && At(data, pos, Head(MT_TEXT, |b|) + b)
    ensures ReadValue(data, pos) == Done(Tstr(t), pos + |Head(MT_TEXT, |b|) + b|)
  {
    AtSplit(data, pos, Head(MT_TEXT, |b|), b);
    HeadRoundTrip(MT_TEXT, |b|, data, pos);
  }

  lemma {:induction false} ReadScalarBack(v: Value, data: bytes, pos: nat)
    requires Profile(v) && IsKey(v) && At(data, pos, Enc(v))
    ensures ReadValue(data, pos) == Done(v, pos + |Enc(v)|)
  {
    match v
    case Null => assert data[pos] == data[pos..pos + 1][0];
    case Bool(_) => assert data[pos] == data[pos..pos + 1][0];
    case Int(i) => ReadIntBack(i, data, pos);
    case Bstr(b) => ReadBytesBack(b, data, pos);
    case Tstr(t) =>
      Utf8RoundTrip(t);
      ReadTextBack(t, EncodeUtf8(t), data, pos);
    case _ =>
  }

  /**
   * Reading an encoded value at any place in any input gives the value back, with its maps
   * in key order, and advances exactly over its bytes, whatever follows.
   */
  lemma {:induction false} ReadBack(v: Value, data: bytes, pos: nat)
    requires Profile(v) && At(data, pos, Enc(v))
    ensures ReadValue(data, pos) == Done(Canon(v), pos + |Enc(v)|)
    decreases v, 1
  {
    match v
    case Array(items) => ReadArrayBack(v, items, data, pos);
    case Map(es) => ReadMapBack(v, es, data, pos);
    case _ => ReadScalarBack(v, data, pos);
  }

  lemma {:induction false} ReadArrayBack(v: Value, items: seq<Value>, data: bytes, pos: nat)
    requires v == Array(items) && Profile(v) && At(data, pos, Enc(v))
    ensures ReadValue(data, pos) == Done(Canon(v), pos + |Enc(v)|)
    decreases v, 0, |items|
  {
    var head, body := Head(MT_ARRAY, |items|), EncItems(items);
    AtSplit(data, pos, head, body);
    HeadRoundTrip(MT_ARRAY, |items|, data, pos);
    ReadArrayBodyBack(items, data, pos, pos + |head|, CanonItems(items), pos + |head| + |body|);
  }

  lemma {:induction false} ReadArrayBodyBack(items: seq<Value>, data: bytes, pos: nat, p: nat, canon: seq<Value>,
                                             end: nat)
    requires ProfileItems(items) && At(data, p, EncItems(items))
    requires canon == CanonItems(items) && end == p + |EncItems(items)|
    requires pos <= |data| && ReadHead(data, pos).Done? && ReadHead(data, pos).next == p
    requires ReadHead(data, pos).value.major == MT_ARRAY && ReadHead(data, pos).value.arg == |items|
    ensures ReadValue(data, pos) == Done(Array(canon), end)
    decreases items, 2
  {
    ReadItemsBack(items, data, p, [], canon, end);
    assert [] + canon == canon;
    ReadArrayStep(data, pos, |items|, p, canon, end);
  }

  lemma {:induction false} ReadArrayStep(data: bytes, pos: nat, n: nat, p: nat, items: seq<Value>, q: nat)
    requires pos <= |data| && ReadHead(data, pos).Done? && ReadHead(data, pos).next == p
    requires ReadHead(data, pos).value.major == MT_ARRAY && ReadHead(data, pos).value.arg == n
    requires ReadItems(data, p, n, []) == Done(items, q)
    ensures ReadValue(data, pos) == Done(Array(items), q)
  {
  }

  lemma {:induction false} ReadMapStep(data: bytes, pos: nat, n: nat, p: nat, es: seq<Entry>, q: nat)
    requires pos <= |data| && ReadHead(data, pos).Done? && ReadHead(data, pos).next == p
    requires ReadHead(data, pos).value.major == MT_MAP && ReadHead(data, pos).value.arg == n
    requires ReadEntries(data, p, n, []) == Done(es, q)
    ensures ReadValue(data, pos) == Done(Map(es), q)
  {
  }

  lemma {:induction false} ReadItemsBack(items: seq<Value>, data: bytes, p: nat, acc: seq<Value>, canon: seq<Value>,
                                         end: nat)
    requires ProfileItems(items) && At(data, p, EncItems(items))
    requires canon == CanonItems(items) && end == p + |EncItems(items)|
    ensures ReadItems(data, p, |items|, acc) == Done(acc + canon, end)
    decreases items, 1
  {
    if items == [] {
      assert acc + [] == acc;
    } else {
      ItemsLayout(items, data, p);
      var v, tail := Canon(items[0]), CanonItems(items[1..]);
      ReadFirstItemBack(items, data, p, acc);
      ReadItemsBack(items[1..], data, p + |Enc(items[0])|, acc + [v], tail, end);
      RegroupItems(acc, v, tail);
    }
  }

  lemma {:induction false} RegroupItems(acc: seq<Value>, v: Value, tail: seq<Value>)
    ensures (acc + [v]) + tail == acc + ([v] + tail)
  {
  }

  lemma {:induction false} ReadFirstItemBack(items: seq<Value>, data: bytes, p: nat, acc: seq<Value>)
    requires items != [] && ProfileItems(items) && At(data, p, Enc(items[0]))
    ensures ReadItems(data, p, |items|, acc)
         == ReadItems(data, p + |Enc(items[0])|, |items| - 1, acc + [Canon(items[0])])
    decreases items, 0
  {
    ReadBack(items[0], data, p);
    ReadItemsStep(data, p, |items|, acc, Canon(items[0]), p + |Enc(items[0])|);
  }

  lemma {:induction false} ItemsLayout(items: seq<Value>, data: bytes, p: nat)
    requires items != [] && ProfileItems(items) && At(data, p, EncItems(items))
    ensures At(data, p, Enc(items[0])) && At(data, p + |Enc(items[0])|, EncItems(items[1..]))
    ensures |EncItems(items)| == |Enc(items[0])| + |EncItems(items[1..])|
    ensures CanonItems(items) == [Canon(items[0])] + CanonItems(items[1..])
  {
    AtSplit(data, p, Enc(items[0]), EncItems(items[1..]));
  }

  lemma {:induction false} ReadItemsStep(data: bytes, p: nat, n: nat, acc: seq<Value>, v: Value, q: nat)
    requires n > 0 && p <= q <= |data| && ReadValue(data, p) == Done(v, q)
    ensures ReadItems(data, p, n, acc) == ReadItems(data, q, n - 1, acc + [v])
  {
  }

  /** The entries of a map are read in the order of their encoded keys. */
  lemma {:induction false} ReadMapBack(v: Value, es: seq<Entry>, data: bytes, pos: nat)
    requires v == Map(es) && Profile(v) && At(data, pos, Enc(v))
    ensures ReadValue(data, pos) == Done(Canon(v), pos + |Enc(v)|)
    decreases v, 0, |es| + 2
  {
    var head, s := Head(MT_MAP, |es|), Sort(es, EntryLe);
    MapLayout(es);
    var body := Flatten(EncEntries(s));
    AtSplit(data, pos, head, body);
    HeadRoundTrip(MT_MAP, |es|, data, pos);
    forall i | 0 <= i < |s| ensures s[i].val < v && s[i].key < v {
      assert s[i] in es;
      EntryBelow(v, es, s[i]);
    }
    ReadMapBodyBack(v, s, data, pos, pos + |head|, CanonEntries(s), pos + |head| + |body|);
  }

  lemma {:induction false} ReadMapBodyBack(root: Value, s: seq<Entry>, data: bytes, pos: nat, p: nat, canon: seq<Entry>,
                                           end: nat)
    requires ProfileEntries(s) && At(data, p, Flatten(EncEntries(s)))
    requires canon == CanonEntries(s) && end == p + |Flatten(EncEntries(s))|
    requires forall i :: 0 <= i < |s| ==> s[i].val < root && s[i].key < root
    requires pos <= |data| && ReadHead(data, pos).Done? && ReadHead(data, pos).next == p
    requires ReadHead(data, pos).value.major == MT_MAP && ReadHead(data, pos).value.arg == |s|
    ensures ReadValue(data, pos) == Done(Map(canon), end)
    decreases root, 0, |s| + 1
  {
    ReadEntriesBack(root, s, data, p, [], canon, end);
    assert [] + canon == canon;
    ReadMapStep(data, pos, |s|, p, canon, end);
  }

  lemma {:induction false} MapLayout(es: seq<Entry>)
    requires ProfileEntries(es) && |es| <= MAX_ARG
    ensures var s := Sort(es, EntryLe);
      && ProfileEntries(s) && |s| == |es|
      && (forall x :: x in s <==> x in es)
      && Enc(Map(es)) == Head(MT_MAP, |es|) + Flatten(EncEntries(s))
      && Canon(Map(es)) == Map(CanonEntries(s))
  {
    SortEncCommutes(es);
    SortedProfile(es);
    SortPermutes(es, EntryLe);
    SortMembers(es, EntryLe);
    SortCanonCommutes(es);
  }

  lemma {:induction false} EntryBelow(v: Value, es: seq<Entry>, e: Entry)
    requires v == Map(es) && e in es
    ensures e.val < v && e.key < v
  {
    var i :| 0 <= i < |es| && es[i] == e;
    assert v.entries[i] == e;
  }

  ghost predicate KeysApart(acc: seq<Entry>, es: seq<Entry>)
  {
    forall i, j :: 0 <= i < |acc| && 0 <= j < |es| ==> KeyClass(acc[i].key) != KeyClass(es[j].key)
  }

  lemma {:induction false} KeysStayApart(acc: seq<Entry>, es: seq<Entry>)
    requires es != [] && KeysApart(acc, es) && DistinctKeys(es)
    ensures KeysApart(acc + [CanonEntry(es[0])], es[1..])
    ensures forall i :: 0 <= i < |acc| ==> KeyClass(acc[i].key) != KeyClass(es[0].key)
  {
  }

  lemma {:induction false} ReadEntriesBack(root: Value, es: seq<Entry>, data: bytes, p: nat, acc: seq<Entry>,
                                           canon: seq<Entry>, end: nat)
    requires ProfileEntries(es) && At(data, p, Flatten(EncEntries(es)))
    requires forall i :: 0 <= i < |es| ==> es[i].val < root && es[i].key < root
    requires KeysApart(acc, es)
    requires canon == CanonEntries(es) && end == p + |Flatten(EncEntries(es))|
    ensures ReadEntries(data, p, |es|, acc) == Done(acc + canon, end)
    decreases root, 0, |es|, 2
  {
    if es == [] {
      assert acc + [] == acc;
    } else {
      EntriesLayout(es, data, p);
      KeysStayApart(acc, es);
      var q := p + |Enc(es[0].key)|;
      ReadEntryThenRest(root, es, data, p, q, q + |Enc(es[0].val)|, acc, canon, end);
    }
  }

  lemma {:induction false} ReadEntryThenRest(root: Value, es: seq<Entry>, data: bytes, p: nat, q: nat, s: nat,
                                             acc: seq<Entry>, canon: seq<Entry>, end: nat)
    requires es != [] && ProfileEntries(es) && ProfileEntries(es[1..])
    requires At(data, p, Enc(es[0].key)) && At(data, q, Enc(es[0].val)) && At(data, s, Flatten(EncEntries(es[1..])))
    requires q == p + |Enc(es[0].key)| && s == q + |Enc(es[0].val)|
    requires forall i :: 0 <= i < |es| ==> es[i].val < root && es[i].key < root
    requires KeysApart(acc + [CanonEntry(es[0])], es[1..])
    requires forall i :: 0 <= i < |acc| ==> KeyClass(acc[i].key) != KeyClass(es[0].key)
    requires canon == [CanonEntry(es[0])] + CanonEntries(es[1..]) && end == s + |Flatten(EncEntries(es[1..]))|
    ensures ReadEntries(data, p, |es|, acc) == Done(acc + canon, end)
    decreases root, 0, |es|, 1
  {
    var head, tail := CanonEntry(es[0]), CanonEntries(es[1..]);
    KeyCanon(es[0].key);
    ReadFirstEntryBack(root, es[0], |es|, data, p, q, s, acc, head.val);
    ReadEntriesBack(root, es[1..], data, s, acc + [head], tail, end);
    Regroup(acc, head, tail);
  }

  lemma {:induction false} Regroup(acc: seq<Entry>, e: Entry, tail: seq<Entry>)
    ensures (acc + [e]) + tail == acc + ([e] + tail)
  {
  }

  lemma {:induction false} ReadFirstEntryBack(root: Value, e: Entry, n: nat, data: bytes, p: nat, q: nat, s: nat,
                                              acc: seq<Entry>, v: Value)
    requires n > 0 && IsKey(e.key) && Profile(e.key) && Profile(e.val) && e.val < root && e.key < root
    requires At(data, p, Enc(e.key)) && At(data, q, Enc(e.val))
    requires q == p + |Enc(e.key)| && s == q + |Enc(e.val)| && v == Canon(e.val)
    requires forall i :: 0 <= i < |acc| ==> KeyClass(acc[i].key) != KeyClass(e.key)
    ensures ReadEntries(data, p, n, acc) == ReadEntries(data, s, n - 1, acc + [Entry(e.key, v)])
    decreases root, 0, n, 0
  {
    ReadBack(e.key, data, p);
    ReadBack(e.val, data, q);
    KeyCanon(e.key);
    ReadEntriesStep(data, p, n, acc, e.key, v, q, s);
  }

  lemma {:induction false} EntriesLayout(es: seq<Entry>, data: bytes, p: nat)
    requires es != [] && ProfileEntries(es) && At(data, p, Flatten(EncEntries(es)))
    ensures var kb, vb := Enc(es[0].key), Enc(es[0].val);
      && At(data, p, kb) && At(data, p + |kb|, vb)
      && At(data, p + |kb| + |vb|, Flatten(EncEntries(es[1..])))
      && |Flatten(EncEntries(es))| == |kb| + |vb| + |Flatten(EncEntries(es[1..]))|
    ensures ProfileEntries(es[1..])
    ensures CanonEntries(es) == [CanonEntry(es[0])] + CanonEntries(es[1..])
  {
    var kb, vb := Enc(es[0].key), Enc(es[0].val);
    assert EncEntries(es)[1..] == EncEntries(es[1..]);
    AtSplit(data, p, kb + vb, Flatten(EncEntries(es[1..])));
    AtSplit(data, p, kb, vb);
  }

  lemma {:induction false} ReadEntriesStep(data: bytes, p: nat, n: nat, acc: seq<Entry>, k: Value, v: Value, q: nat,
                                           s: nat)
    requires n > 0 && p <= q <= s <= |data| && IsKey(k)
    requires ReadValue(data, p) == Done(k, q) && ReadValue(data, q) == Done(v, s)
    requires forall i :: 0 <= i < |acc| ==> KeyClass(acc[i].key) != KeyClass(k)
    ensures ReadEntries(data, p, n, acc) == ReadEntries(data, s, n - 1, acc + [Entry(k, v)])
  {
    UpsertFresh(acc, k, v);
  }

  /** `cbor_decode(cbor_encode(v))` is `v`, up to the order of map entries. */
  lemma {:induction false} RoundTrip(v: Value)
    requires Profile(v)
    ensures CborEncode(v).Ok?
    ensures CborDecode(CborEncode(v).value) == Ok(Canon(v))
    ensures Equiv(v, Canon(v))
  {
    ReadBack(v, Enc(v), 0);
    CanonIsEquiv(v);
  }

  /* ------------------------- canonical form and equivalence ---------------------- */

  lemma {:induction false} CanonIsEquiv(v: Value)
    requires Profile(v)
    ensures Equiv(v, Canon(v))
    decreases v
  {
    match v
    case Array(items) =>
      forall i | 0 <= i < |items| ensures Equiv(items[i], CanonItems(items)[i]) {
        CanonItemsAt(items, i);
        CanonIsEquiv(items[i]);
      }
    case Map(es) =>
      var cs := Sort(CanonEntries(es), EntryLe);
      SortMembers(CanonEntries(es), EntryLe);
      forall i | 0 <= i < |es| ensures HasKey(cs, es[i].key) {
        CanonEntriesAt(es, i);
        assert CanonEntry(es[i]) in cs;
        var j :| 0 <= j < |cs| && cs[j] == CanonEntry(es[i]);
      }
      forall j | 0 <= j < |cs| ensures HasKey(es, cs[j].key) {
        var i := CanonOrigin(es, cs[j]);
      }
      forall i, j | 0 <= i < |es| && 0 <= j < |cs| && es[i].key == cs[j].key ensures Equiv(es[i].val, cs[j].val) {
        var k := CanonOrigin(es, cs[j]);
        assert k == i;
        CanonIsEquiv(es[i].val);
      }
    case _ =>
  }

  lemma {:induction false} CanonOrigin(es: seq<Entry>, c: Entry) returns (i: nat)
    requires c in CanonEntries(es)
    ensures i < |es| && c == CanonEntry(es[i])
  {
    i :| 0 <= i < |es| && CanonEntries(es)[i] == c;
    CanonEntriesAt(es, i);
  }

  /** Scalars are their own canonical form. */
  lemma {:induction false} KeyCanon(k: Value)
    requires IsKey(k)
    ensures Canon(k) == k
  {
  }

  /** Distinct map keys have distinct encodings. */
  lemma {:induction false} KeyBytesInjective(k: Value, l: Value)
    requires IsKey(k) && IsKey(l) && Encodable(k) && Encodable(l)
    requires Enc(k) == Enc(l)
    ensures k == l
  {
    ReadBack(k, Enc(k), 0);
    ReadBack(l, Enc(l), 0);
  }

  lemma {:induction false} EntryOrder()
    ensures TotalPreorder(EntryLe)
  {
    forall a: Entry, b: Entry ensures EntryLe(a, b) || EntryLe(b, a) {
      LexTotal(KeyBytes(a.key), KeyBytes(b.key));
    }
    forall a: Entry, b: Entry, c: Entry | EntryLe(a, b) && EntryLe(b, c) ensures EntryLe(a, c) {
      LexTransitive(KeyBytes(a.key), KeyBytes(b.key), KeyBytes(c.key));
    }
  }

  lemma {:induction false} EntriesDoNotTie(es: seq<Entry>)
    requires ProfileEntries(es)
    ensures NoTies(CanonEntries(es), EntryLe) && NoDuplicates(CanonEntries(es))
  {
    var cs := CanonEntries(es);
    forall x, y | x in cs && y in cs && EntryLe(x, y) && EntryLe(y, x) ensures x == y {
      var i := CanonOrigin(es, x);
      var j := CanonOrigin(es, y);
      LexTotal(KeyBytes(x.key), KeyBytes(y.key));
      KeyBytesInjective(x.key, y.key);
      assert i == j;
    }
    forall i, j | 0 <= i < j < |cs| ensures cs[i] != cs[j] {
      CanonEntriesAt(es, i);
      CanonEntriesAt(es, j);
    }
  }

  /** Equivalent values have the same canonical form. */
  lemma {:induction false} EquivSameCanon(v: Value, w: Value)
    requires Profile(v) && Profile(w) && Equiv(v, w)
    ensures Canon(v) == Canon(w)
    decreases v
  {
    match v
    case Array(xs) =>
      forall i | 0 <= i < |xs| ensures CanonItems(xs)[i] == CanonItems(w.items)[i] {
        CanonItemsAt(xs, i);
        CanonItemsAt(w.items, i);
        EquivSameCanon(xs[i], w.items[i]);
      }
      assert CanonItems(xs) == CanonItems(w.items);
    case Map(es) =>
      var fs := w.entries;
      forall i | 0 <= i < |es| ensures CanonEntry(es[i]) in CanonEntries(fs) {
        assert HasKey(fs, es[i].key);
        var j :| 0 <= j < |fs| && fs[j].key == es[i].key;
        EquivSameCanon(es[i].val, fs[j].val);
        CanonEntriesAt(fs, j);
      }
      forall j | 0 <= j < |fs| ensures CanonEntry(fs[j]) in CanonEntries(es) {
        assert HasKey(es, fs[j].key);
        var i :| 0 <= i < |es| && es[i].key == fs[j].key;
        EquivSameCanon(es[i].val, fs[j].val);
        CanonEntriesAt(es, i);
      }
      SameCanonEntries(es, fs);
    case _ =>
  }

  lemma {:induction false} SameCanonEntries(es: seq<Entry>, fs: seq<Entry>)
    requires ProfileEntries(es) && ProfileEntries(fs)
    requires forall i :: 0 <= i < |es| ==> CanonEntry(es[i]) in CanonEntries(fs)
    requires forall j :: 0 <= j < |fs| ==> CanonEntry(fs[j]) in CanonEntries(es)
    ensures Sort(CanonEntries(es), EntryLe) == Sort(CanonEntries(fs), EntryLe)
  {
    var a, b := CanonEntries(es), CanonEntries(fs);
    forall x ensures x in a <==> x in b {
      if x in a { var i := CanonOrigin(es, x); }
      if x in b { var j := CanonOrigin(fs, x); }
    }
    EntriesDoNotTie(es);
    EntriesDoNotTie(fs);
    SameMembersPermute(a, b);
    EntryOrder();
    SortIgnoresOrder(a, b, EntryLe);
  }

  lemma {:induction false} CanonEntriesCover(es: seq<Entry>, fs: seq<Entry>)
    requires Sort(CanonEntries(es), EntryLe) == Sort(CanonEntries(fs), EntryLe)
    ensures forall i :: 0 <= i < |es| ==> CanonEntry(es[i]) in CanonEntries(fs)
    ensures forall i :: 0 <= i < |es| ==> HasKey(fs, es[i].key)
  {
    SortMembers(CanonEntries(es), EntryLe);
    SortMembers(CanonEntries(fs), EntryLe);
    forall i | 0 <= i < |es| ensures CanonEntry(es[i]) in CanonEntries(fs) && HasKey(fs, es[i].key) {
      CanonEntriesAt(es, i);
      var j := CanonOrigin(fs, CanonEntry(es[i]));
    }
  }

  /** Values with the same canonical form are equivalent. */
  lemma {:induction false} SameCanonEquiv(v: Value, w: Value)
    requires Profile(v) && Profile(w) && Canon(v) == Canon(w)
    ensures Equiv(v, w)
    decreases v
  {
    match v
    case Array(xs) =>
      forall i | 0 <= i < |xs| ensures Equiv(xs[i], w.items[i]) {
        CanonItemsAt(xs, i);
        CanonItemsAt(w.items, i);
        SameCanonEquiv(xs[i], w.items[i]);
      }
    case Map(es) =>
      var fs := w.entries;
      CanonEntriesCover(es, fs);
      CanonEntriesCover(fs, es);
      forall i, j | 0 <= i < |es| && 0 <= j < |fs| && es[i].key == fs[j].key ensures Equiv(es[i].val, fs[j].val) {
        SameKeySameCanon(es, fs, i, j);
        SameCanonEquiv(es[i].val, fs[j].val);
      }
    case _ =>
  }

  lemma {:induction false} SameKeySameCanon(es: seq<Entry>, fs: seq<Entry>, i: nat, j: nat)
    requires ProfileEntries(fs) && i < |es| && j < |fs| && es[i].key == fs[j].key
    requires CanonEntry(es[i]) in CanonEntries(fs)
    ensures Canon(es[i].val) == Canon(fs[j].val)
  {
    var k := CanonOrigin(fs, CanonEntry(es[i]));
    assert k == j;
  }

  lemma {:induction false} CanonKeepsBytes(v: Value)
    requires Profile(v)
    ensures Encodable(Canon(v)) && Enc(Canon(v)) == Enc(v)
    decreases v, 1
  {
    match v
    case Array(items) => CanonItemsKeepBytes(items);
    case Map(es) =>
      forall i | 0 <= i < |es| ensures es[i].val < v { EntryBelow(v, es, es[i]); }
      CanonEntriesKeepBytes(v, es);
      var cs := CanonEntries(es);
      SortPermutes(cs, EntryLe);
      SortEncCommutes(cs);
      EncPairsSortedTwice(es);
    case _ =>
  }

  lemma {:induction false} CanonItemsKeepBytes(items: seq<Value>)
    requires ProfileItems(items)
    ensures EncodableItems(CanonItems(items)) && EncItems(CanonItems(items)) == EncItems(items)
    decreases items, 0
  {
    if items == [] {
    } else {
      CanonKeepsBytes(items[0]);
      CanonItemsKeepBytes(items[1..]);
      assert CanonItems(items)[1..] == CanonItems(items[1..]);
    }
  }

  lemma {:induction false} CanonEntriesKeepBytes(root: Value, es: seq<Entry>)
    requires ProfileEntries(es) && forall i :: 0 <= i < |es| ==> es[i].val < root
    ensures EncodableEntries(CanonEntries(es)) && EncEntries(CanonEntries(es)) == EncEntries(es)
    decreases root, 0, |es|
  {
    if es == [] {
    } else {
      CanonKeepsBytes(es[0].val);
      CanonEntriesKeepBytes(root, es[1..]);
      assert CanonEntries(es)[1..] == CanonEntries(es[1..]);
    }
  }

  lemma {:induction false} PairOrder()
    ensures TotalPreorder(PairLe)
  {
    forall a: EncPair, b: EncPair ensures PairLe(a, b) || PairLe(b, a) { LexTotal(a.key, b.key); }
    forall a: EncPair, b: EncPair, c: EncPair | PairLe(a, b) && PairLe(b, c) ensures PairLe(a, c) {
      LexTransitive(a.key, b.key, c.key);
    }
  }

  lemma {:induction false} EncPairsSortedTwice(es: seq<Entry>)
    requires ProfileEntries(es)
    ensures Sort(Sort(EncEntries(es), PairLe), PairLe) == Sort(EncEntries(es), PairLe)
  {
    var ps := EncEntries(es);
    PairOrder();
    forall x, y | x in ps && y in ps && PairLe(x, y) && PairLe(y, x) ensures x == y {
      LexTotal(x.key, y.key);
      var i :| 0 <= i < |ps| && ps[i] == x;
      var j :| 0 <= j < |ps| && ps[j] == y;
      EncEntriesAt(es, i);
      EncEntriesAt(es, j);
      KeyBytesInjective(es[i].key, es[j].key);
      assert i == j;
    }
    SortPermutes(ps, PairLe);
    SortIgnoresOrder(ps, Sort(ps, PairLe), PairLe);
  }

  /* -------------------------------- main theorems ------------------------------- */

  /**
   * The encoding decides equality: two profile values have the same bytes exactly when they
   * are equal as values with finite maps, at any depth and for any insertion order.
   */
  lemma {:induction false} EncodingDecidesEquality(v: Value, w: Value)
    requires Profile(v) && Profile(w)
    ensures Enc(v) == Enc(w) <==> Equiv(v, w)
  {
    if Enc(v) == Enc(w) {
      ReadBack(v, Enc(v), 0);
      ReadBack(w, Enc(w), 0);
      SameCanonEquiv(v, w);
    }
    if Equiv(v, w) {
      EquivSameCanon(v, w);
      CanonKeepsBytes(v);
      CanonKeepsBytes(w);
    }
  }

  /** The encoding is self-delimiting: a concatenation can be split in one way only. */
  lemma {:induction false} PrefixFree(v: Value, r: bytes, w: Value, s: bytes)
    requires Profile(v) && Profile(w) && Enc(v) + r == Enc(w) + s
    ensures Equiv(v, w) && r == s
  {
    var data := Enc(v) + r;
    ReadBack(v, data, 0);
    ReadBack(w, data, 0);
    assert data[|Enc(v)|..] == r && (Enc(w) + s)[|Enc(w)|..] == s;
    SameCanonEquiv(v, w);
  }

  /** Two entry lists that are rearrangements of each other encode to the same map. */
  lemma {:induction false} MapOrderIrrelevant(es: seq<Entry>, fs: seq<Entry>)
    requires Profile(Map(es)) && multiset(es) == multiset(fs)
    ensures Profile(Map(fs)) && Enc(Map(fs)) == Enc(Map(es))
  {
    assert |multiset(es)| == |es| && |multiset(fs)| == |fs|;
    forall i | 0 <= i < |fs|
      ensures Encodable(fs[i].key) && Encodable(fs[i].val) && IsKey(fs[i].key) && Profile(fs[i].val)
    {
      assert fs[i] in multiset(es);
    }
    DistinctKeysPermute(es, fs);
    forall i | 0 <= i < |es| ensures CanonEntry(es[i]) in CanonEntries(fs) {
      assert es[i] in multiset(fs);
      var j :| 0 <= j < |fs| && fs[j] == es[i];
      CanonEntriesAt(fs, j);
    }
    forall j | 0 <= j < |fs| ensures CanonEntry(fs[j]) in CanonEntries(es) {
      assert fs[j] in multiset(es);
      var i :| 0 <= i < |es| && es[i] == fs[j];
      CanonEntriesAt(es, i);
    }
    SameCanonEntries(es, fs);
    SameCanonEquiv(Map(es), Map(fs));
    EncodingDecidesEquality(Map(es), Map(fs));
  }

  /* ------------------------------- key comparison ------------------------------- */

  /** The sign of `compareBytes`: first differing byte, then length. */
  method CompareBytes(a: bytes, b: bytes) returns (c: int)
    ensures c <= 0 <==> LexLe(a, b)
    ensures c == 0 <==> a == b
  {
    var len := if |a| <= |b| then |a| else |b|;
    for i := 0 to len
      invariant a[..i] == b[..i]
      invariant LexLe(a, b) == LexLe(a[i..], b[i..])
    {
      if a[i] != b[i] {
        var x: int := a[i];
        return x - b[i];
      }
      assert a[..i + 1] == a[..i] + [a[i]] && b[..i + 1] == b[..i] + [b[i]];
      assert a[i..][1..] == a[i + 1..] && b[i..][1..] == b[i + 1..];
    }
    assert a[len..] == [] || b[len..] == [];
    assert a == a[..len] + a[len..] && b == b[..len] + b[len..];
    return |a| - |b|;
  }

  /** Between distinct map keys a differing byte decides: neither encoding is a prefix of the other. */
  lemma {:induction false} KeysDifferBeforeTheyEnd(k: Value, l: Value)
    requires IsKey(k) && IsKey(l) && Encodable(k) && Encodable(l) && k != l
    ensures exists i :: 0 <= i < |Enc(k)| && i < |Enc(l)| && Enc(k)[i] != Enc(l)[i]
  {
    var a, b := Enc(k), Enc(l);
    if forall i :: 0 <= i < |a| && i < |b| ==> a[i] == b[i] {
      if |a| <= |b| {
        assert a + b[|a|..] == b + [];
        PrefixFree(k, b[|a|..], l, []);
      } else {
        assert a + [] == b + a[|b|..];
        PrefixFree(k, [], l, a[|b|..]);
      }
    }
  }
}
