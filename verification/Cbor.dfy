/**
 * Values of the protocol's CBOR profile, and the deterministic encoder
 * (section 4.2.1 of RFC 8949).
 */
module Cbor {
  import opened Bytes
  import opened CborHeads
  import opened Sorting
  import opened Utf8

  /**
   * A value as the libraries hold it. Map entries keep their insertion order, which
   * the encoder iterates over. `Float` carries the raw bytes of a decoded float.
   */
  datatype Value =
    | Null
    | Bool(b: bool)
    | Int(i: int)
    | Bstr(bs: bytes)
    | Tstr(s: string)
    | Array(items: seq<Value>)
    | Map(entries: seq<Entry>)
    | Float(raw: bytes)

  datatype Entry = Entry(key: Value, val: Value)

  /* ---------------------------------- encoding ---------------------------------- */

  /** What the encoder accepts: integers and lengths fit a 64-bit argument, and there are no floats. */
  predicate Encodable(v: Value)
  {
    match v
    case Null => true
    case Bool(_) => true
    case Int(i) => -MAX_ARG - 1 <= i <= MAX_ARG
    case Bstr(b) => |b| <= MAX_ARG
    case Tstr(t) => |EncodeUtf8(t)| <= MAX_ARG
    case Array(items) => |items| <= MAX_ARG && forall i :: 0 <= i < |items| ==> Encodable(items[i])
    case Map(es) => |es| <= MAX_ARG && forall i :: 0 <= i < |es| ==> Encodable(es[i].key) && Encodable(es[i].val)
    case Float(_) => false
  }

  predicate EncodableItems(items: seq<Value>) { forall i :: 0 <= i < |items| ==> Encodable(items[i]) }

  predicate EncodableEntries(es: seq<Entry>)
  {
    forall i :: 0 <= i < |es| ==> Encodable(es[i].key) && Encodable(es[i].val)
  }

  datatype EncPair = EncPair(key: bytes, val: bytes)

  predicate PairLe(a: EncPair, b: EncPair) { LexLe(a.key, b.key) }

  function EncInt(i: int): bytes
    requires -MAX_ARG - 1 <= i <= MAX_ARG
  {
    if i >= 0 then Head(MT_UINT, i) else Head(MT_NINT, -i - 1)
  }

  /** The canonical bytes of an encodable value. */
  function Enc(v: Value): bytes
    requires Encodable(v)
    decreases v, 1
  {
    match v
    case Null => [0xF6]
    case Bool(b) => if b then [0xF5] else [0xF4]
    case Int(i) => EncInt(i)
    case Bstr(b) => Head(MT_BYTES, |b|) + b
    case Tstr(t) => Head(MT_TEXT, |EncodeUtf8(t)|) + EncodeUtf8(t)
    case Array(items) => Head(MT_ARRAY, |items|) + EncItems(items)
    case Map(es) => Head(MT_MAP, |es|) + Flatten(Sort(EncEntries(es), PairLe))
  }

  function EncItems(items: seq<Value>): bytes
    requires EncodableItems(items)
    decreases items, 0
  {
    if items == [] then [] else Enc(items[0]) + EncItems(items[1..])
  }

  function EncEntries(es: seq<Entry>): (ps: seq<EncPair>)
    requires EncodableEntries(es)
    ensures |ps| == |es|
    decreases es, 0
  {
    if es == [] then [] else [EncEntry(es[0])] + EncEntries(es[1..])
  }

  function EncEntry(e: Entry): EncPair
    requires Encodable(e.key) && Encodable(e.val)
    decreases e, 0
  {
    EncPair(Enc(e.key), Enc(e.val))
  }

  function Flatten(ps: seq<EncPair>): bytes
  {
    if ps == [] then [] else ps[0].key + ps[0].val + Flatten(ps[1..])
  }

  /** `cbor_encode`: canonical bytes, or the error raised for a value outside the profile. */
  function CborEncode(v: Value): Result<bytes>
  {
    if Encodable(v) then Ok(Enc(v)) else Err(ParseError)
  }

  lemma {:induction false} EncItemsAppend(items: seq<Value>, v: Value)
    requires EncodableItems(items) && Encodable(v)
    ensures EncodableItems(items + [v])
    ensures EncItems(items + [v]) == EncItems(items) + Enc(v)
    decreases |items|
  {
    if items == [] {
      assert items + [v] == [v] && [v][1..] == [];
    } else {
      EncItemsAppend(items[1..], v);
      assert (items + [v])[1..] == items[1..] + [v];
    }
  }

  lemma {:induction false} EncEntriesAppend(es: seq<Entry>, e: Entry)
    requires EncodableEntries(es) && Encodable(e.key) && Encodable(e.val)
    ensures EncodableEntries(es + [e])
    ensures EncEntries(es + [e]) == EncEntries(es) + [EncEntry(e)]
    decreases |es|
  {
    if es == [] {
      assert es + [e] == [e] && [e][1..] == [];
    } else {
      EncEntriesAppend(es[1..], e);
      assert (es + [e])[1..] == es[1..] + [e];
    }
  }

  lemma {:induction false} FlattenAppend(ps: seq<EncPair>, p: EncPair)
    ensures Flatten(ps + [p]) == Flatten(ps) + p.key + p.val
    decreases |ps|
  {
    if ps == [] {
      assert ps + [p] == [p] && [p][1..] == [];
    } else {
      FlattenAppend(ps[1..], p);
      assert (ps + [p])[1..] == ps[1..] + [p];
    }
  }

  /** `_encode_value` / `encodeValue`: the recursive printer with its loops. */
  method EncodeValue(v: Value) returns (r: Result<bytes>)
    ensures r == CborEncode(v)
    decreases v, 2
  {
    match v
    case Null => return Ok([0xF6]);
    case Bool(b) => return Ok(if b then [0xF5] else [0xF4]);
    case Int(i) =>
      if i >= 0 { r := JsEncodeHead(MT_UINT, i); } else { r := JsEncodeHead(MT_NINT, -i - 1); }
    case Float(_) => return Err(ParseError);
    case Bstr(b) =>
      var head :- JsEncodeHead(MT_BYTES, |b|);
      return Ok(head + b);
    case Tstr(t) =>
      var raw := EncodeUtf8(t);
      var head :- JsEncodeHead(MT_TEXT, |raw|);
      return Ok(head + raw);
    case Array(items) =>
      var out :- JsEncodeHead(MT_ARRAY, |items|);
      for i := 0 to |items|
        invariant EncodableItems(items[..i])
        invariant out == Head(MT_ARRAY, |items|) + EncItems(items[..i])
      {
        var part :- EncodeValue(items[i]);
        EncItemsAppend(items[..i], items[i]);
        assert items[..i + 1] == items[..i] + [items[i]];
        out := out + part;
      }
      assert items[..|items|] == items;
      return Ok(out);
    case Map(es) =>
      r := EncodeMap(v, es);
  }

  /** `encodeMap`: sort the encoded entries by key bytes, and join them. */
  method EncodeMap(ghost v: Value, es: seq<Entry>) returns (r: Result<bytes>)
    requires v == Map(es)
    ensures r == CborEncode(v)
    decreases v, 1
  {
    var pairs :- EncodeEntries(v, es);
    SortPermutes(pairs, PairLe);
    pairs := Sort(pairs, PairLe);
    var out :- JsEncodeHead(MT_MAP, |pairs|);
    var body := JoinPairs(pairs);
    return Ok(out + body);
  }

  method EncodeEntries(ghost v: Value, es: seq<Entry>) returns (r: Result<seq<EncPair>>)
    requires v == Map(es)
    ensures r == if EncodableEntries(es) then Ok(EncEntries(es)) else Err(ParseError)
    decreases v, 0
  {
    var pairs: seq<EncPair> := [];
    for i := 0 to |es|
      invariant EncodableEntries(es[..i])
      invariant pairs == EncEntries(es[..i])
    {
      var key :- EncodeValue(es[i].key);
      var val :- EncodeValue(es[i].val);
      EncEntriesAppend(es[..i], es[i]);
      assert es[..i + 1] == es[..i] + [es[i]];
      pairs := pairs + [EncPair(key, val)];
    }
    assert es[..|es|] == es;
    return Ok(pairs);
  }

  method JoinPairs(pairs: seq<EncPair>) returns (out: bytes)
    ensures out == Flatten(pairs)
  {
    out := [];
    for i := 0 to |pairs|
      invariant out == Flatten(pairs[..i])
    {
      FlattenAppend(pairs[..i], pairs[i]);
      assert pairs[..i + 1] == pairs[..i] + [pairs[i]];
      out := out + pairs[i].key + pairs[i].val;
    }
    assert pairs[..|pairs|] == pairs;
  }

  /* ------------------------------- map semantics -------------------------------- */

  /** Keys a dictionary can hold: anything hashable, which excludes lists and dictionaries. */
  predicate IsKey(k: Value) { !k.Array? && !k.Map? && !k.Float? }

  /** Python compares `True`/`False` equal to 1/0 as dictionary keys. */
  function KeyClass(k: Value): Value
  {
    if k.Bool? then Int(if k.b then 1 else 0) else k
  }

  predicate DistinctKeys(es: seq<Entry>)
  {
    forall i, j :: 0 <= i < j < |es| ==> KeyClass(es[i].key) != KeyClass(es[j].key)
  }

  /** A value of the profile: encodable, and every map is a genuine dictionary. */
  predicate Profile(v: Value)
  {
    && Encodable(v)
    && match v
       case Array(items) => forall i :: 0 <= i < |items| ==> Profile(items[i])
       case Map(es) => DistinctKeys(es) && forall i :: 0 <= i < |es| ==> IsKey(es[i].key) && Profile(es[i].val)
       case _ => true
  }

  predicate ProfileItems(items: seq<Value>)
  {
    EncodableItems(items) && forall i :: 0 <= i < |items| ==> Profile(items[i])
  }

  predicate ProfileEntries(es: seq<Entry>)
  {
    && EncodableEntries(es)
    && DistinctKeys(es)
    && forall i :: 0 <= i < |es| ==> IsKey(es[i].key) && Profile(es[i].val)
  }

  /** Equality of values when maps are finite maps: insertion order does not matter. */
  ghost predicate Equiv(v: Value, w: Value)
    decreases v
  {
    match v
    case Array(xs) =>
      w.Array? && |xs| == |w.items| && forall i :: 0 <= i < |xs| ==> Equiv(xs[i], w.items[i])
    case Map(es) =>
      && w.Map?
      && (forall i :: 0 <= i < |es| ==> HasKey(w.entries, es[i].key))
      && (forall j :: 0 <= j < |w.entries| ==> HasKey(es, w.entries[j].key))
      && (forall i, j :: 0 <= i < |es| && 0 <= j < |w.entries| && es[i].key == w.entries[j].key ==>
            Equiv(es[i].val, w.entries[j].val))
    case _ => v == w
  }

  ghost predicate HasKey(es: seq<Entry>, k: Value) { exists i :: 0 <= i < |es| && es[i].key == k }

  function KeyBytes(k: Value): bytes { if Encodable(k) then Enc(k) else [] }

  predicate EntryLe(a: Entry, b: Entry) { LexLe(KeyBytes(a.key), KeyBytes(b.key)) }

  /** The representative a decoder rebuilds: every map in the order of its encoded keys. */
  function Canon(v: Value): Value
    decreases v, 1
  {
    match v
    case Array(items) => Array(CanonItems(items))
    case Map(es) => Map(Sort(CanonEntries(es), EntryLe))
    case _ => v
  }

  function CanonItems(items: seq<Value>): (r: seq<Value>)
    ensures |r| == |items|
    decreases items, 0
  {
    if items == [] then [] else [Canon(items[0])] + CanonItems(items[1..])
  }

  function CanonEntries(es: seq<Entry>): (r: seq<Entry>)
    ensures |r| == |es|
    decreases es, 0
  {
    if es == [] then [] else [CanonEntry(es[0])] + CanonEntries(es[1..])
  }

  function CanonEntry(e: Entry): Entry
    decreases e, 0
  {
    Entry(e.key, Canon(e.val))
  }
}
