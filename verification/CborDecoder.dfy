/** The decoder: what it reads from a position, and the cursor machine that reads it. */
module CborDecoder {
  import opened Bytes
  import opened CborHeads
  import opened Cbor
  import opened Utf8

  /** `out[key] = val` on a dictionary: an existing key keeps its place and its spelling. */
  function Upsert(es: seq<Entry>, k: Value, v: Value): seq<Entry>
  {
    if es == [] then [Entry(k, v)]
    else if KeyClass(es[0].key) == KeyClass(k) then [Entry(es[0].key, v)] + es[1..]
    else [es[0]] + Upsert(es[1..], k, v)
  }

  /** `_read_bytes`. */
  function ReadBytes(data: bytes, pos: nat, n: nat): (r: Read<bytes>)
    requires pos <= |data|
    ensures r.Done? ==> r.next == pos + n <= |data|
  {
    if pos + n > |data| then Fail(ParseError) else Done(data[pos..pos + n], pos + n)
  }

  /**
   * `_read_value`: one item starting at `pos`. The bytes left are the termination measure,
   * whatever lengths the input claims.
   */
  function ReadValue(data: bytes, pos: nat): (r: Read<Value>)
    requires pos <= |data|
    ensures r.Done? ==> pos < r.next <= |data|
    decreases |data| - pos, 0
  {
    match ReadHead(data, pos)
    case Fail(e) => Fail(e)
    case Done(h, p) =>
      if h.major == MT_UINT then Done(Int(h.arg), p)
      else if h.major == MT_NINT then Done(Int(-1 - h.arg), p)
      else if h.major == MT_BYTES then
        match ReadBytes(data, p, h.arg)
        case Fail(e) => Fail(e)
        case Done(b, q) => Done(Bstr(b), q)
      else if h.major == MT_TEXT then
        match ReadBytes(data, p, h.arg)
        case Fail(e) => Fail(e)
        case Done(b, q) =>
          match DecodeUtf8(b)
          case None => Fail(UnicodeError)
          case Some(t) => Done(Tstr(t), q)
      else if h.major == MT_ARRAY then
        match ReadItems(data, p, h.arg, [])
        case Fail(e) => Fail(e)
        case Done(items, q) => Done(Array(items), q)
      else if h.major == MT_MAP then
        match ReadEntries(data, p, h.arg, [])
        case Fail(e) => Fail(e)
        case Done(es, q) => Done(Map(es), q)
      else if h.major == MT_TAG then ReadValue(data, p)
      else SimpleValue(data, p, h.info)
  }

  /** Simple values; a float keeps its raw bytes. */
  function SimpleValue(data: bytes, p: nat, info: nat): (r: Read<Value>)
    requires p <= |data|
    ensures r.Done? ==> p <= r.next <= |data|
  {
    if 25 <= info <= 27 then
      match ReadBytes(data, p, ArgLength(info))
      case Fail(e) => Fail(e)
      case Done(b, q) => Done(Float(b), q)
    else if info == 20 then Done(Bool(false), p)
    else if info == 21 then Done(Bool(true), p)
    else if info == 22 then Done(Null, p)
    else Fail(ParseError)
  }

  /** `n` further array items, appended to those read so far. */
  function ReadItems(data: bytes, p: nat, n: nat, acc: seq<Value>): (r: Read<seq<Value>>)
    requires p <= |data|
    ensures r.Done? ==> p <= r.next <= |data|
    decreases |data| - p, 1, n
  {
    if n == 0 then Done(acc, p)
    else
      match ReadValue(data, p)
      case Fail(e) => Fail(e)
      case Done(v, q) => ReadItems(data, q, n - 1, acc + [v])
  }

  /** `n` further map entries, put into the dictionary built so far. */
  function ReadEntries(data: bytes, p: nat, n: nat, acc: seq<Entry>): (r: Read<seq<Entry>>)
    requires p <= |data|
    ensures r.Done? ==> p <= r.next <= |data|
    decreases |data| - p, 1, n
  {
    if n == 0 then Done(acc, p)
    else
      match ReadValue(data, p)
      case Fail(e) => Fail(e)
      case Done(k, q) =>
        match ReadValue(data, q)
        case Fail(e) => Fail(e)
        case Done(v, s) =>
          if k.Array? || k.Map? then Fail(TypeError)
          else ReadEntries(data, s, n - 1, Upsert(acc, k, v))
  }

  /** `cbor_decode`: exactly one item and nothing after it. */
  function CborDecode(data: bytes): Result<Value>
  {
    match ReadValue(data, 0)
    case Fail(e) => Err(e)
    case Done(v, next) => if next == |data| then Ok(v) else Err(ParseError)
  }

  /* ----------------------------------- size bound --------------------------------- */

  /** Nodes of a decoded tree. */
  function Nodes(v: Value): (n: nat)
    ensures n >= 1
  {
    match v
    case Array(items) => 1 + ItemNodes(items)
    case Map(es) => 1 + EntryNodes(es)
    case _ => 1
  }

  function ItemNodes(items: seq<Value>): nat
  {
    if items == [] then 0 else ItemNodes(items[..|items| - 1]) + Nodes(items[|items| - 1])
  }

  function EntryNodes(es: seq<Entry>): nat
  {
    if es == [] then 0 else NodesOfEntry(es[0]) + EntryNodes(es[1..])
  }

  function NodesOfEntry(e: Entry): nat { Nodes(e.key) + Nodes(e.val) }

  lemma {:induction false} UpsertNodes(es: seq<Entry>, k: Value, v: Value)
    ensures EntryNodes(Upsert(es, k, v)) <= EntryNodes(es) + Nodes(k) + Nodes(v)
  {
    if es == [] {
      assert EntryNodes([]) == 0;
    } else if KeyClass(es[0].key) != KeyClass(k) {
      UpsertNodes(es[1..], k, v);
    }
  }

  lemma {:induction false} ItemNodesAppend(items: seq<Value>, v: Value)
    ensures ItemNodes(items + [v]) == ItemNodes(items) + Nodes(v)
  {
    assert (items + [v])[..|items|] == items;
  }

  /** A decoded tree has at most as many nodes as the bytes it was read from, whatever lengths they claim. */
  lemma {:induction false} ValueSize(data: bytes, pos: nat)
    requires pos <= |data| && ReadValue(data, pos).Done?
    ensures Nodes(ReadValue(data, pos).value) <= ReadValue(data, pos).next - pos
    decreases |data| - pos, 0
  {
    var h, p := ReadHead(data, pos).value, ReadHead(data, pos).next;
    if h.major == MT_ARRAY {
      ItemsSize(data, p, h.arg, []);
    } else if h.major == MT_MAP {
      EntriesSize(data, p, h.arg, []);
    } else if h.major == MT_TAG {
      ValueSize(data, p);
    }
  }

  lemma {:induction false} ItemsSize(data: bytes, p: nat, n: nat, acc: seq<Value>)
    requires p <= |data| && ReadItems(data, p, n, acc).Done?
    ensures ItemNodes(ReadItems(data, p, n, acc).value) <= ItemNodes(acc) + (ReadItems(data, p, n, acc).next - p)
    decreases |data| - p, 1, n
  {
    if n == 0 {
    } else {
      ValueSize(data, p);
      var v, q := ReadValue(data, p).value, ReadValue(data, p).next;
      ItemNodesAppend(acc, v);
      ItemsSize(data, q, n - 1, acc + [v]);
    }
  }

  lemma {:induction false} EntriesSize(data: bytes, p: nat, n: nat, acc: seq<Entry>)
    requires p <= |data| && ReadEntries(data, p, n, acc).Done?
    ensures EntryNodes(ReadEntries(data, p, n, acc).value) <= EntryNodes(acc) + (ReadEntries(data, p, n, acc).next - p)
    decreases |data| - p, 1, n
  {
    if n == 0 {
    } else {
      ValueSize(data, p);
      var k, q := ReadValue(data, p).value, ReadValue(data, p).next;
      ValueSize(data, q);
      var v, s := ReadValue(data, q).value, ReadValue(data, q).next;
      UpsertNodes(acc, k, v);
      EntriesSize(data, s, n - 1, Upsert(acc, k, v));
    }
  }

  /** The Python `_Decoder`: the input and a position that every read advances. */
  class Decoder {
    const data: bytes
    var pos: nat

    ghost predicate Valid()
      reads this
    {
      pos <= |data|
    }

    constructor (input: bytes)
      ensures Valid() && data == input && pos == 0
    {
      data := input;
      pos := 0;
    }

    method ReadByteAt() returns (r: Result<byte>)
      requires Valid()
      modifies this
      ensures Valid()
      ensures r == if old(pos) < |data| then Ok(data[old(pos)]) else Err(ParseError)
      ensures pos == if r.Ok? then old(pos) + 1 else old(pos)
    {
      if pos >= |data| { return Err(ParseError); }
      var value := data[pos];
      pos := pos + 1;
      return Ok(value);
    }

    method ReadBytesAt(n: nat) returns (r: Result<bytes>)
      requires Valid()
      modifies this
      ensures Valid()
      ensures r == if old(pos) + n <= |data| then Ok(data[old(pos)..old(pos) + n]) else Err(ParseError)
      ensures pos == if r.Ok? then old(pos) + n else old(pos)
    {
      if pos + n > |data| { return Err(ParseError); }
      var out := data[pos..pos + n];
      pos := pos + n;
      return Ok(out);
    }

    method ReadHeadAt() returns (r: Result<ItemHead>)
      requires Valid()
      modifies this
      ensures Valid()
      ensures match ReadHead(data, old(pos))
              case Done(h, next) => r == Ok(h) && pos == next
              case Fail(e) => r == Err(e)
    {
      var b :- ReadByteAt();
      var m, info := b / 32, b % 32;
      if m == MT_SIMPLE && (info == 25 || info == 26 || info == 27) { return Ok(ItemHead(m, info, 0)); }
      if info < 24 { return Ok(ItemHead(m, info, info)); }
      if info == 24 {
        var arg :- ReadByteAt();
        assert data[pos - 1..pos] == [arg];
        assert FromBigEndian([arg]) == arg;
        return Ok(ItemHead(m, info, arg));
      }
      if info == 25 || info == 26 || info == 27 {
        var raw :- ReadBytesAt(if info == 25 then 2 else if info == 26 then 4 else 8);
        return Ok(ItemHead(m, info, FromBigEndian(raw)));
      }
      return Err(ParseError);
    }

    method ReadValueAt() returns (r: Result<Value>)
      requires Valid()
      modifies this
      ensures Valid()
      ensures match ReadValue(data, old(pos))
              case Done(v, next) => r == Ok(v) && pos == next
              case Fail(e) => r == Err(e)
      decreases |data| - pos, 0
    {
      var h :- ReadHeadAt();
      if h.major == MT_UINT { return Ok(Int(h.arg)); }
      if h.major == MT_NINT { return Ok(Int(-1 - h.arg)); }
      if h.major == MT_BYTES {
        var b :- ReadBytesAt(h.arg);
        return Ok(Bstr(b));
      }
      if h.major == MT_TEXT {
        var b :- ReadBytesAt(h.arg);
        var t := DecodeUtf8(b);
        if t.None? { return Err(UnicodeError); }
        return Ok(Tstr(t.value));
      }
      if h.major == MT_ARRAY {
        var items :- ReadItemsAt(h.arg);
        return Ok(Array(items));
      }
      if h.major == MT_MAP {
        var es :- ReadEntriesAt(h.arg);
        return Ok(Map(es));
      }
      if h.major == MT_TAG {
        r := ReadValueAt();
        return;
      }
      if h.info == 25 || h.info == 26 || h.info == 27 {
        var b :- ReadBytesAt(ArgLength(h.info));
        return Ok(Float(b));
      }
      if h.info == 20 { return Ok(Bool(false)); }
      if h.info == 21 { return Ok(Bool(true)); }
      if h.info == 22 { return Ok(Null); }
      return Err(ParseError);
    }

    method ReadItemsAt(n: nat) returns (r: Result<seq<Value>>)
      requires Valid()
      modifies this
      ensures Valid()
      ensures match ReadItems(data, old(pos), n, [])
              case Done(items, next) => r == Ok(items) && pos == next
              case Fail(e) => r == Err(e)
      decreases |data| - pos, 1
    {
      var out: seq<Value> := [];
      for i := 0 to n
        invariant Valid() && old(pos) <= pos
        invariant ReadItems(data, old(pos), n, []) == ReadItems(data, pos, n - i, out)
      {
        var v :- ReadValueAt();
        out := out + [v];
      }
      return Ok(out);
    }

    method ReadEntriesAt(n: nat) returns (r: Result<seq<Entry>>)
      requires Valid()
      modifies this
      ensures Valid()
      ensures match ReadEntries(data, old(pos), n, [])
              case Done(es, next) => r == Ok(es) && pos == next
              case Fail(e) => r == Err(e)
      decreases |data| - pos, 1
    {
      var out: seq<Entry> := [];
      for i := 0 to n
        invariant Valid() && old(pos) <= pos
        invariant ReadEntries(data, old(pos), n, []) == ReadEntries(data, pos, n - i, out)
      {
        var k :- ReadValueAt();
        var v :- ReadValueAt();
        if k.Array? || k.Map? { return Err(TypeError); }
        out := Upsert(out, k, v);
      }
      return Ok(out);
    }
  }

  /** `cbor_decode` on the cursor machine. */
  method Decode(data: bytes) returns (r: Result<Value>)
    ensures r == CborDecode(data)
  {
    var decoder := new Decoder(data);
    var v :- decoder.ReadValueAt();
    if decoder.pos != |data| { return Err(ParseError); }
    return Ok(v);
  }
}
