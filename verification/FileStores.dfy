/** The JSON-file stores: ordered maps that are rewritten to their file on every change. */
module FileStores {
  import opened Bytes
  import opened Ids
  import opened MemoryStores
  import opened ServiceState
  import opened Sorting

  /* ------------------------------- ordered records ------------------------------ */

  /** A JavaScript `Map` with its insertion order. */
  type Records<T> = seq<(string, T)>

  /** `Map.set`: an existing key keeps its place. */
  function Put<T>(m: Records<T>, k: string, v: T): Records<T>
  {
    Upserted(m, (k, v), (p: (string, T)) => p.0 == k)
  }

  function Find<T>(m: Records<T>, k: string): Option<T>
  {
    if m == [] then None else if m[0].0 == k then Some(m[0].1) else Find(m[1..], k)
  }

  function Drop<T>(m: Records<T>, k: string): Records<T>
  {
    if m == [] then [] else if m[0].0 == k then m[1..] else [m[0]] + Drop(m[1..], k)
  }

  predicate Has<T>(m: Records<T>, k: string) { Find(m, k).Some? }

  ghost predicate UniqueKeys<T>(m: Records<T>) { forall i, j :: 0 <= i < j < |m| ==> m[i].0 != m[j].0 }

  lemma {:induction false} FindAt<T>(m: Records<T>, k: string)
    ensures Has(m, k) <==> exists i :: 0 <= i < |m| && m[i].0 == k
    ensures Has(m, k) ==> exists i :: 0 <= i < |m| && m[i].0 == k && m[i].1 == Find(m, k).value
  {
    if m == [] || m[0].0 == k {
    } else {
      FindAt(m[1..], k);
      if Has(m, k) {
        var i :| 0 <= i < |m[1..]| && m[1..][i].0 == k && m[1..][i].1 == Find(m, k).value;
        assert m[i + 1].0 == k;
      }
      if i :| 0 <= i < |m| && m[i].0 == k {
        assert m[1..][i - 1].0 == k;
      }
    }
  }

  lemma {:induction false} TailUnique<T>(m: Records<T>)
    requires m != [] && UniqueKeys(m)
    ensures UniqueKeys(m[1..]) && forall i :: 0 <= i < |m[1..]| ==> m[1..][i].0 != m[0].0
  {
    var t := m[1..];
    forall i, j | 0 <= i < j < |t| ensures t[i].0 != t[j].0 { assert m[i + 1].0 != m[j + 1].0; }
    forall i | 0 <= i < |t| ensures t[i].0 != m[0].0 { assert m[0].0 != m[i + 1].0; }
  }

  lemma {:induction false} PutLaws<T>(m: Records<T>, k: string, v: T)
    requires UniqueKeys(m)
    ensures UniqueKeys(Put(m, k, v))
    ensures forall q :: Find(Put(m, k, v), q) == if q == k then Some(v) else Find(m, q)
    ensures forall i :: 0 <= i < |Put(m, k, v)| ==> Put(m, k, v)[i].0 == k || exists j ::
      0 <= j < |m| && m[j].0 == Put(m, k, v)[i].0
  {
    if m == [] {
    } else {
      var r, t := Put(m, k, v), m[1..];
      if m[0].0 == k {
        forall i, j | 0 <= i < j < |r| ensures r[i].0 != r[j].0 { assert m[i].0 != m[j].0; }
        forall q ensures Find(r, q) == if q == k then Some(v) else Find(m, q) { assert r[1..] == t; }
        forall i | 0 <= i < |r| ensures r[i].0 == k || exists j :: 0 <= j < |m| && m[j].0 == r[i].0 {
          assert i == 0 || m[i].0 == r[i].0;
        }
      } else {
        TailUnique(m);
        PutLaws(t, k, v);
        var rt := Put(t, k, v);
        assert r == [m[0]] + rt;
        forall i | 0 <= i < |rt| ensures rt[i].0 != m[0].0 {
          if rt[i].0 != k {
            var j :| 0 <= j < |t| && t[j].0 == rt[i].0;
            assert m[0].0 != m[j + 1].0;
          }
        }
        forall q ensures Find(r, q) == if q == k then Some(v) else Find(m, q) { assert r[1..] == rt; }
        forall i | 0 <= i < |r| ensures r[i].0 == k || exists j :: 0 <= j < |m| && m[j].0 == r[i].0 {
          if i == 0 { assert m[0].0 == r[0].0; }
          else if rt[i - 1].0 != k {
            var j :| 0 <= j < |t| && t[j].0 == rt[i - 1].0;
            assert m[j + 1].0 == r[i].0;
          }
        }
      }
    }
  }

  lemma {:induction false} DropLaws<T>(m: Records<T>, k: string)
    requires UniqueKeys(m)
    ensures UniqueKeys(Drop(m, k))
    ensures forall q :: Find(Drop(m, k), q) == if q == k then None else Find(m, q)
    ensures forall i :: 0 <= i < |Drop(m, k)| ==> exists j :: 0 <= j < |m| && m[j].0 == Drop(m, k)[i].0
  {
    if m == [] {
    } else {
      var r, t := Drop(m, k), m[1..];
      TailUnique(m);
      if m[0].0 == k {
        FindAt(t, k);
        forall i | 0 <= i < |t| ensures t[i].0 != k { assert m[0].0 != m[i + 1].0; }
        forall i | 0 <= i < |r| ensures exists j :: 0 <= j < |m| && m[j].0 == r[i].0 { assert m[i + 1].0 == r[i].0; }
      } else {
        DropLaws(t, k);
        var rt := Drop(t, k);
        assert r == [m[0]] + rt && r[1..] == rt;
        forall i | 0 <= i < |rt| ensures rt[i].0 != m[0].0 {
          var j :| 0 <= j < |t| && t[j].0 == rt[i].0;
          assert m[0].0 != m[j + 1].0;
        }
        forall i | 0 <= i < |r| ensures exists j :: 0 <= j < |m| && m[j].0 == r[i].0 {
          if i == 0 { assert m[0].0 == r[0].0; }
          else {
            var j :| 0 <= j < |t| && t[j].0 == rt[i - 1].0;
            assert m[j + 1].0 == r[i].0;
          }
        }
      }
    }
  }

  /* ------------------------------ attestation keys ------------------------------ */

  /** `key.split('|')[0]` and the rest. */
  function FirstPart(key: string): string { key[..IndexOf(key, '|')] }

  function AfterFirst(key: string): string
  {
    var i := IndexOf(key, '|');
    if i < |key| then key[i + 1..] else ""
  }

  /** `attestationKeyMatches`: the first part is the target, and the second the CA when one is asked for. */
  predicate KeyMatches(key: string, target: TcertId, ca: Option<TcertId>)
  {
    FirstPart(key) == target && (ca.Some? ==> IndexOf(key, '|') < |key| && FirstPart(AfterFirst(key)) == ca.value)
  }

  function AttestationKey(a: Attestation): string { a.target + "|" + a.caTcertId + "|" + IntString(a.issuedAt) }

  lemma {:induction false} FirstPartOf(a: string, rest: string)
    ensures FirstPart(a + "|" + rest) == a <==> '|' !in a
    ensures '|' !in a ==> AfterFirst(a + "|" + rest) == rest && IndexOf(a + "|" + rest, '|') == |a|
  {
    var s := a + "|" + rest;
    var i := IndexOf(s, '|');
    assert '|' !in s[..i];
    if '|' !in a {
      IndexOfSplit(a, '|', rest);
      assert a + ['|'] + rest == s;
    }
  }

  /** A stored attestation is found again under its own target and CA exactly when neither contains a bar. */
  lemma {:induction false} KeyFindsItself(a: Attestation)
    ensures KeyMatches(AttestationKey(a), a.target, Some(a.caTcertId)) <==> '|' !in a.target && '|' !in a.caTcertId
  {
    var rest := a.caTcertId + "|" + IntString(a.issuedAt);
    assert AttestationKey(a) == a.target + "|" + rest;
    FirstPartOf(a.target, rest);
    FirstPartOf(a.caTcertId, IntString(a.issuedAt));
  }

  /* ------------------------------ plain objects as files ------------------------ */

  /** The array index that a property name spells, if it is one. */
  function IndexIn(k: string): Option<nat>
  {
    var n := ParseDecimal(k);
    if n.Some? && n.value < 0xFFFF_FFFF && Decimal(n.value) == k then n else None
  }

  function OfIndex<T>(): ((string, T)) -> bool { (p: (string, T)) => IndexIn(p.0).Some? }

  function OfName<T>(): ((string, T)) -> bool { (p: (string, T)) => IndexIn(p.0).None? && p.0 != PROTO_NAME }

  function ByIndex<T>(): ((string, T), (string, T)) -> bool
  {
    (p: (string, T), q: (string, T)) =>
      IndexIn(p.0).None? || (IndexIn(q.0).Some? && IndexIn(p.0).value <= IndexIn(q.0).value)
  }

  /**
   * What is left of records that were assigned to a plain object one by one, as it lists them: array
   * indices first, by number, the other names in their order, and nothing under `__proto__`.
   */
  function AsObject<T>(m: Records<T>): Records<T>
  {
    Sort(Filter(m, OfIndex()), ByIndex()) + Filter(m, OfName())
  }

  lemma {:induction false} ProtoIsNoIndex()
    ensures IndexIn(PROTO_NAME).None?
  {
    var name := PROTO_NAME;
    assert name[|name| - 1] == '_';
  }

  lemma {:induction false} ByIndexOrder<T(!new)>()
    ensures TotalPreorder(ByIndex<T>())
  {
    var le := ByIndex<T>();
    forall p, q ensures le(p, q) || le(q, p) {
      if IndexIn(p.0).Some? && IndexIn(q.0).Some? {
        assert IndexIn(p.0).value <= IndexIn(q.0).value || IndexIn(q.0).value <= IndexIn(p.0).value;
      }
    }
  }

  lemma {:induction false} MemberOfObject<T(!new)>(m: Records<T>, p: (string, T))
    ensures p in AsObject(m) <==> p in m && p.0 != PROTO_NAME
  {
    ProtoIsNoIndex();
    FilterMember(m, OfIndex(), p);
    FilterMember(m, OfName(), p);
    SortMembers(Filter(m, OfIndex()), ByIndex());
  }

  lemma {:induction false} FindByMember<T(!new)>(m: Records<T>, k: string)
    requires UniqueKeys(m)
    ensures forall v :: Find(m, k) == Some(v) <==> (k, v) in m
  {
    if m == [] {
    } else {
      TailUnique(m);
      FindByMember(m[1..], k);
      assert m == [m[0]] + m[1..];
      forall v | m[0].0 == k ensures (k, v) !in m[1..] {
        assert forall i :: 0 <= i < |m[1..]| ==> m[1..][i].0 != k;
      }
    }
  }

  lemma {:induction false} FilterUnique<T(!new)>(m: Records<T>, p: ((string, T)) -> bool)
    requires UniqueKeys(m)
    ensures UniqueKeys(Filter(m, p))
  {
    if m == [] {
    } else {
      TailUnique(m);
      FilterUnique(m[1..], p);
      forall q | q in Filter(m[1..], p) ensures q.0 != m[0].0 {
        FilterMember(m[1..], p, q);
      }
      if p(m[0]) {
        UniqueCons(m[0], Filter(m[1..], p));
      }
    }
  }

  lemma {:induction false} UniqueCons<T>(p: (string, T), rest: Records<T>)
    requires UniqueKeys(rest) && forall i :: 0 <= i < |rest| ==> rest[i].0 != p.0
    ensures UniqueKeys([p] + rest)
  {
    var r := [p] + rest;
    forall i, j | 0 <= i < j < |r| ensures r[i].0 != r[j].0 {
      assert r[j] == rest[j - 1];
      if i > 0 { assert r[i] == rest[i - 1]; }
    }
  }

  lemma {:induction false} InsertUnique<T>(p: (string, T), m: Records<T>, le: ((string, T), (string, T)) -> bool)
    requires UniqueKeys(m) && forall i :: 0 <= i < |m| ==> m[i].0 != p.0
    ensures UniqueKeys(Insert(p, m, le))
  {
    if m == [] || le(p, m[0]) {
      UniqueCons(p, m);
    } else {
      TailUnique(m);
      InsertUnique(p, m[1..], le);
      InsertPermutes(p, m[1..], le);
      var rest := Insert(p, m[1..], le);
      forall i | 0 <= i < |rest| ensures rest[i].0 != m[0].0 {
        assert rest[i] in multiset(rest);
        assert rest[i] == p || rest[i] in m[1..];
      }
      UniqueCons(m[0], rest);
    }
  }

  lemma {:induction false} SortUnique<T>(m: Records<T>, le: ((string, T), (string, T)) -> bool)
    requires UniqueKeys(m)
    ensures UniqueKeys(Sort(m, le))
  {
    if m == [] {
    } else {
      TailUnique(m);
      SortUnique(m[1..], le);
      SortPermutes(m[1..], le);
      var s := Sort(m[1..], le);
      forall i | 0 <= i < |s| ensures s[i].0 != m[0].0 {
        assert s[i] in multiset(s);
        assert s[i] in m[1..];
      }
      InsertUnique(m[0], s, le);
    }
  }

  lemma {:induction false} UniqueConcat<T>(a: Records<T>, b: Records<T>)
    requires UniqueKeys(a) && UniqueKeys(b)
    requires forall p, q :: p in a && q in b ==> p.0 != q.0
    ensures UniqueKeys(a + b)
  {
    var r := a + b;
    forall i, j | 0 <= i < j < |r| ensures r[i].0 != r[j].0 {
      if i < |a| <= j {
        assert r[i] == a[i] && r[j] == b[j - |a|] && a[i] in a && b[j - |a|] in b;
      }
    }
  }

  /** Looking a record up in the object finds what the records held, but nothing under `__proto__`. */
  lemma {:induction false} FindInObject<T(!new)>(m: Records<T>)
    requires UniqueKeys(m)
    ensures UniqueKeys(AsObject(m))
    ensures forall k :: Find(AsObject(m), k) == if k == PROTO_NAME then None else Find(m, k)
  {
    ObjectUnique(m);
    forall k ensures Find(AsObject(m), k) == if k == PROTO_NAME then None else Find(m, k) {
      FindByMember(m, k);
      FindByMember(AsObject(m), k);
      if Find(m, k).Some? {
        MemberOfObject(m, (k, Find(m, k).value));
      }
      if Find(AsObject(m), k).Some? {
        MemberOfObject(m, (k, Find(AsObject(m), k).value));
      }
    }
  }

  lemma {:induction false} ObjectUnique<T(!new)>(m: Records<T>)
    requires UniqueKeys(m)
    ensures UniqueKeys(AsObject(m))
  {
    var a, b := Sort(Filter(m, OfIndex()), ByIndex()), Filter(m, OfName());
    FilterUnique(m, OfIndex());
    FilterUnique(m, OfName());
    SortUnique(Filter(m, OfIndex()), ByIndex());
    SortMembers(Filter(m, OfIndex()), ByIndex());
    forall p, q | p in a && q in b ensures p.0 != q.0 {
      FilterMember(m, OfIndex(), p);
      FilterMember(m, OfName(), q);
    }
    UniqueConcat(a, b);
  }

  /** An object read back and written again is the same. */
  lemma {:induction false} ObjectIsFixed<T(!new)>(m: Records<T>)
    ensures AsObject(AsObject(m)) == AsObject(m)
  {
    var a, b := Sort(Filter(m, OfIndex()), ByIndex()), Filter(m, OfName());
    ByIndexOrder<T>();
    SortSorts(Filter(m, OfIndex()), ByIndex());
    SortMembers(Filter(m, OfIndex()), ByIndex());
    forall p | p in a ensures OfIndex()(p) && !OfName()(p) {
      FilterMember(m, OfIndex(), p);
    }
    forall p | p in b ensures OfName()(p) && !OfIndex()(p) {
      FilterMember(m, OfName(), p);
    }
    SplitObject(a, b);
    SortedIsFixed(a, ByIndex());
  }

  lemma {:induction false} SplitObject<T(!new)>(a: Records<T>, b: Records<T>)
    requires forall p :: p in a ==> OfIndex<T>()(p) && !OfName<T>()(p)
    requires forall p :: p in b ==> OfName<T>()(p) && !OfIndex<T>()(p)
    ensures Filter(a + b, OfIndex<T>()) == a && Filter(a + b, OfName<T>()) == b
  {
    FilterAppend(a, b, OfIndex());
    FilterAppend(a, b, OfName());
    FilterAll(a, OfIndex());
    FilterNone(a, OfName());
    FilterAll(b, OfName());
    FilterNone(b, OfIndex());
  }

  /** Names with a bar are neither indices nor `__proto__`. */
  lemma {:induction false} BarredName(k: string)
    requires '|' in k
    ensures IndexIn(k).None? && k != PROTO_NAME
  {
    if IndexIn(k).Some? {
      DecimalRoundTrip(IndexIn(k).value);
    }
    var name := PROTO_NAME;
    assert '|' !in name;
  }

  lemma {:induction false} BarredObject<T(!new)>(m: Records<T>)
    requires forall p :: p in m ==> '|' in p.0
    ensures AsObject(m) == m
  {
    forall p | p in m ensures OfName<T>()(p) && !OfIndex<T>()(p) {
      BarredName(p.0);
    }
    SplitObject<T>([], m);
    assert [] + m == m;
  }

  /* -------------------------------- the file store ------------------------------ */

  /** A JSON file: not written yet, without a readable object in it, or the records of one. */
  datatype Contents<T> = Missing | Unreadable | Written(records: Records<T>)

  class File<T> {
    var content: Contents<T>

    constructor ()
      ensures content == Missing
    {
      content := Missing;
    }
  }

  class JsonFileStore<T> {
    const file: File<T>
    var entries: Records<T>

    /** The file holds the records in memory, as far as a plain object can. */
    ghost predicate Synced()
      reads this, file
    {
      OnDisk(file.content) == AsObject(entries)
    }

    /** Opening reads the file, when there is one that can be read. */
    constructor (file: File<T>)
      ensures this.file == file && entries == OnDisk(file.content)
      ensures Plain(file.content) ==> Synced()
    {
      this.file := file;
      entries := if file.content.Written? then file.content.records else [];
    }

    method Get(k: string) returns (v: Option<T>)
      ensures v == Find(entries, k)
    {
      for i := 0 to |entries|
        invariant Find(entries, k) == Find(entries[i..], k)
      {
        if entries[i].0 == k {
          return Some(entries[i].1);
        }
      }
      return None;
    }

    method Set(k: string, v: T)
      modifies this, file
      ensures entries == Put(old(entries), k, v) && Synced()
    {
      var same := (p: (string, T)) => p.0 == k;
      UpsertedByIndex(entries, (k, v), same);
      var idx := FindIndex(entries, same);
      entries := if idx >= 0 then entries[idx := (k, v)] else entries + [(k, v)];
      file.content := Written(AsObject(entries));
    }

    /** The file is rewritten only when something was deleted. */
    method Delete(k: string)
      modifies this, file
      ensures entries == Drop(old(entries), k)
      ensures old(Synced()) || Has(old(entries), k) ==> Synced()
    {
      var idx := FindIndex(entries, (p: (string, T)) => p.0 == k);
      DropByIndex(entries, k);
      if idx >= 0 {
        entries := entries[..idx] + entries[idx + 1..];
        file.content := Written(AsObject(entries));
      }
    }
  }

  /** The records a store has after opening: none for a missing or unreadable file. */
  function OnDisk<T>(content: Contents<T>): Records<T> { if content.Written? then content.records else [] }

  /** The file holds what a store writes: a plain object lists it as it is. */
  ghost predicate Plain<T>(content: Contents<T>) { AsObject(OnDisk(content)) == OnDisk(content) }

  lemma {:induction false} DropByIndex<T>(m: Records<T>, k: string)
    ensures var i := FirstIndex(m, (p: (string, T)) => p.0 == k);
      && Drop(m, k) == (if i >= 0 then m[..i] + m[i + 1..] else m)
      && (i >= 0 <==> Has(m, k))
  {
    if m == [] || m[0].0 == k {
    } else {
      DropByIndex(m[1..], k);
      var i := FirstIndex(m[1..], (p: (string, T)) => p.0 == k);
      if i >= 0 {
        SplitShifted(m, i);
      } else {
        assert m == [m[0]] + m[1..];
      }
    }
  }

  lemma {:induction false} SplitShifted<T>(xs: seq<T>, i: nat)
    requires i + 1 < |xs|
    ensures [xs[0]] + (xs[1..][..i] + xs[1..][i + 1..]) == xs[..i + 1] + xs[i + 2..]
  {
    assert xs[..i + 1] == [xs[0]] + xs[1..][..i];
    assert xs[i + 2..] == xs[1..][i + 1..];
  }
}
