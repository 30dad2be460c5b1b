/**
 * The TypeScript decoder. Its four-byte arguments are signed, so it is compared with the Python
 * decoder: where the two agree, and where they do not.
 */
module JsDecoder {
  import opened Bits
  import opened Bytes
  import opened CborHeads
  import opened Cbor
  import opened CborDecoder
  import opened CborLaws
  import opened Utf8
  import Sorting

  /**
   * `Outside`: the cursor would move backwards, or the text is ill-formed, or the value is `undefined`,
   * or an object gets another prototype.
   */
  datatype JsRead<+T> = JsDone(value: T, next: nat) | JsFail(error: Error) | Outside

  datatype JsHead = JsHead(major: major, info: nat, arg: int)

  const BYTE_ORDER_MARK: char := '\U{FEFF}'

  /** `readHead`. */
  function JsReadHead(data: bytes, pos: nat): (r: Read<JsHead>)
    requires pos <= |data|
    ensures r.Done? ==> pos < r.next <= |data|
  {
    if pos == |data| then Fail(ParseError)
    else
      var m, info, p := data[pos] / 32, data[pos] % 32, pos + 1;
      if m == MT_SIMPLE && 25 <= info <= 27 then Done(JsHead(m, info, 0), p)
      else if info < 24 then Done(JsHead(m, info, info), p)
      else if info >= 28 then Fail(ParseError)
      else if p + ArgLength(info) > |data| then Fail(ParseError)
      else if info == 25 then Done(JsHead(m, info, JsArg2(data[p], data[p + 1])), p + 2)
      else if info == 26 then Done(JsHead(m, info, JsArg4(data[p], data[p + 1], data[p + 2], data[p + 3])), p + 4)
      else Done(JsHead(m, info, FromBigEndian(data[p..p + ArgLength(info)])), p + ArgLength(info))
  }

  /** `readBytes`; a negative count would move the cursor back. */
  function JsReadBytes(data: bytes, pos: nat, n: int): (r: JsRead<bytes>)
    requires pos <= |data|
    ensures r.JsDone? ==> pos <= r.next <= |data|
  {
    if n < 0 then Outside else if pos + n > |data| then JsFail(ParseError) else JsDone(data[pos..pos + n], pos + n)
  }

  /** `new TextDecoder().decode`: a leading byte order mark is dropped. */
  function JsText(b: bytes): Option<string>
  {
    match DecodeUtf8(b)
    case None => None
    case Some(t) => Some(if t != "" && t[0] == BYTE_ORDER_MARK then t[1..] else t)
  }

  /** `toCborKey` accepts texts and numbers. */
  predicate JsKey(k: Value) { k.Tstr? || k.Int? || k.Float? }

  /** `new Map(entries)`, or one property after the other: a later entry replaces an earlier one under its key. */
  function Collect(es: seq<Entry>): seq<Entry>
  {
    if es == [] then [] else Upsert(Collect(es[..|es| - 1]), es[|es| - 1].key, es[|es| - 1].val)
  }

  predicate AllTexts(es: seq<Entry>) { forall i :: 0 <= i < |es| ==> es[i].key.Tstr? }

  predicate NamesProto(e: Entry) { e.key == Tstr(PROTO_NAME) }

  /** Values that are not objects, and not `null`, cannot become a prototype. */
  predicate Primitive(v: Value) { v.Int? || v.Tstr? || v.Bool? || v.Float? }

  function WithoutProto(es: seq<Entry>): seq<Entry>
  {
    if es == [] then []
    else if NamesProto(es[0]) then WithoutProto(es[1..])
    else [es[0]] + WithoutProto(es[1..])
  }

  /**
   * `toCborMap`: entries whose keys are all texts are assigned to a plain object, where the setter behind
   * `__proto__` ignores a primitive and takes anything else as the prototype; other entries make a `Map`.
   */
  function ToCborMap(es: seq<Entry>): Option<seq<Entry>>
  {
    if !AllTexts(es) then Some(Collect(es))
    else if exists i :: 0 <= i < |es| && NamesProto(es[i]) && !Primitive(es[i].val) then None
    else Some(Collect(WithoutProto(es)))
  }

  /** The entries do not become an object while one of them is named `__proto__`. */
  predicate ProtoFree(es: seq<Entry>)
  {
    AllTexts(es) ==> forall i :: 0 <= i < |es| ==> !NamesProto(es[i])
  }

  function JsReadValue(data: bytes, pos: nat): (r: JsRead<Value>)
    requires pos <= |data|
    ensures r.JsDone? ==> pos < r.next <= |data|
    decreases |data| - pos, 0
  {
    match JsReadHead(data, pos)
    case Fail(e) => JsFail(e)
    case Done(h, p) =>
      if h.major == MT_UINT then JsDone(Int(h.arg), p)
      else if h.major == MT_NINT then JsDone(Int(-1 - h.arg), p)
      else if h.major == MT_BYTES then
        (match JsReadBytes(data, p, h.arg)
         case JsDone(b, q) => JsDone(Bstr(b), q)
         case JsFail(e) => JsFail(e)
         case Outside => Outside)
      else if h.major == MT_TEXT then
        (match JsReadBytes(data, p, h.arg)
         case JsDone(b, q) => if JsText(b).Some? then JsDone(Tstr(JsText(b).value), q) else Outside
         case JsFail(e) => JsFail(e)
         case Outside => Outside)
      else if h.major == MT_ARRAY then
        (match JsReadItems(data, p, if h.arg < 0 then 0 else h.arg, [])
         case JsDone(items, q) => JsDone(Array(items), q)
         case JsFail(e) => JsFail(e)
         case Outside => Outside)
      else if h.major == MT_MAP then
        (match JsReadEntries(data, p, if h.arg < 0 then 0 else h.arg, [])
         case JsDone(es, q) => if ToCborMap(es).Some? then JsDone(Map(ToCborMap(es).value), q) else Outside
         case JsFail(e) => JsFail(e)
         case Outside => Outside)
      else if h.major == MT_TAG then JsReadValue(data, p)
      else if h.info == 23 then Outside
      else Lifted(SimpleValue(data, p, h.info))
  }

  function JsReadItems(data: bytes, p: nat, n: nat, acc: seq<Value>): (r: JsRead<seq<Value>>)
    requires p <= |data|
    ensures r.JsDone? ==> p <= r.next <= |data|
    decreases |data| - p, 1, n
  {
    if n == 0 then JsDone(acc, p)
    else
      match JsReadValue(data, p)
      case JsDone(v, q) => JsReadItems(data, q, n - 1, acc + [v])
      case JsFail(e) => JsFail(e)
      case Outside => Outside
  }

  /** `n` further pairs of a key and a value, appended to those read so far. */
  function JsReadEntries(data: bytes, p: nat, n: nat, acc: seq<Entry>): (r: JsRead<seq<Entry>>)
    requires p <= |data|
    ensures r.JsDone? ==> p <= r.next <= |data|
    decreases |data| - p, 1, n
  {
    if n == 0 then JsDone(acc, p)
    else
      match JsReadValue(data, p)
      case JsFail(e) => JsFail(e)
      case Outside => Outside
      case JsDone(k, q) =>
        match JsReadValue(data, q)
        case JsFail(e) => JsFail(e)
        case Outside => Outside
        case JsDone(v, s) => if !JsKey(k) then JsFail(ParseError)
          else JsReadEntries(data, s, n - 1, acc + [Entry(k, v)])
  }

  /** `cborDecode`. */
  function JsDecode(data: bytes): JsRead<Value>
  {
    match JsReadValue(data, 0)
    case JsDone(v, next) => if next == |data| then JsDone(v, next) else JsFail(ParseError)
    case JsFail(e) => JsFail(e)
    case Outside => Outside
  }

  function Lifted<T>(r: Read<T>): JsRead<T>
  {
    match r case Done(v, next) => JsDone(v, next) case Fail(e) => JsFail(e)
  }

  /* ----------------------------------- agreement -------------------------------- */

  const SIGN_BIT: int := 0x8000_0000

  /** A four-byte argument without its sign bit set. */
  predicate CleanHead(h: ItemHead) { h.info == 26 && h.major != MT_SIMPLE ==> h.arg < SIGN_BIT }

  predicate CleanText(b: bytes)
  {
    DecodeUtf8(b).Some? && (DecodeUtf8(b).value != "" ==> DecodeUtf8(b).value[0] != BYTE_ORDER_MARK)
  }

  /** Nothing in the item is read differently: heads, texts, map keys, objects, and no `undefined`. */
  predicate CleanValue(data: bytes, pos: nat)
    requires pos <= |data|
    decreases |data| - pos, 0
  {
    match ReadHead(data, pos)
    case Fail(_) => true
    case Done(h, p) =>
      && CleanHead(h)
      && (h.major == MT_TEXT ==> match ReadBytes(data, p, h.arg) case Fail(_) => true case Done(b, _) => CleanText(b))
      && (h.major == MT_ARRAY ==> CleanItems(data, p, h.arg))
      && (h.major == MT_MAP ==> CleanEntries(data, p, h.arg))
      && (h.major == MT_MAP ==>
            match ReadEntries(data, p, h.arg, []) case Fail(_) => true case Done(es, _) => ProtoFree(es))
      && (h.major == MT_TAG ==> CleanValue(data, p))
      && (h.major == MT_SIMPLE ==> h.info != 23)
  }

  predicate CleanItems(data: bytes, p: nat, n: nat)
    requires p <= |data|
    decreases |data| - p, 1, n
  {
    n == 0
    || (CleanValue(data, p)
        && match ReadValue(data, p) case Fail(_) => true case Done(_, q) => CleanItems(data, q, n - 1))
  }

  predicate CleanEntries(data: bytes, p: nat, n: nat)
    requires p <= |data|
    decreases |data| - p, 1, n
  {
    n == 0
    || (CleanValue(data, p)
        && match ReadValue(data, p)
           case Fail(_) => true
           case Done(k, q) =>
             CleanValue(data, q)
             && match ReadValue(data, q)
                case Fail(_) => true
                case Done(_, s) => JsKey(k) && CleanEntries(data, s, n - 1))
  }

  lemma {:induction false} HeadsAgree(data: bytes, pos: nat)
    requires pos <= |data|
    ensures JsReadHead(data, pos).Done? <==> ReadHead(data, pos).Done?
    ensures ReadHead(data, pos).Fail? ==> JsReadHead(data, pos) == Fail(ReadHead(data, pos).error)
    ensures ReadHead(data, pos).Done? ==>
      var h, j := ReadHead(data, pos).value, JsReadHead(data, pos).value;
      && JsReadHead(data, pos).next == ReadHead(data, pos).next && j.major == h.major && j.info == h.info
      && j.arg == (if h.info == 26 && h.major != MT_SIMPLE then ToInt32(h.arg) else h.arg)
      && (CleanHead(h) ==> j.arg == h.arg)
  {
    if pos < |data| {
      var info, p := data[pos] % 32, pos + 1;
      if info == 25 && p + 2 <= |data| {
        ArgumentsAgree2(data, p);
      }
      if info == 26 && p + 4 <= |data| {
        ArgumentsAgree4(data, p);
      }
    }
  }

  lemma {:induction false} ArgumentsAgree2(data: bytes, p: nat)
    requires p + 2 <= |data|
    ensures JsArg2(data[p], data[p + 1]) == FromBigEndian(data[p..p + 2])
  {
    JsArg2IsBigEndian(data[p], data[p + 1]);
    assert data[p..p + 2] == [data[p], data[p + 1]];
  }

  lemma {:induction false} ArgumentsAgree4(data: bytes, p: nat)
    requires p + 4 <= |data|
    ensures var v := FromBigEndian(data[p..p + 4]);
      JsArg4(data[p], data[p + 1], data[p + 2], data[p + 3]) == ToInt32(v) && (v < SIGN_BIT ==> ToInt32(v) == v)
  {
    JsArg4Wraps(data[p], data[p + 1], data[p + 2], data[p + 3]);
    assert data[p..p + 4] == [data[p], data[p + 1], data[p + 2], data[p + 3]];
    FromBigEndian4(data[p], data[p + 1], data[p + 2], data[p + 3]);
    WrapFixes(FromBigEndian(data[p..p + 4]));
  }

  /**
   * On every input that contains none of these, the TypeScript decoder does exactly what the Python
   * decoder does: the same value and position, or the same failure.
   */
  lemma {:induction false} DecodersAgree(data: bytes, pos: nat)
    requires pos <= |data| && CleanValue(data, pos)
    ensures JsReadValue(data, pos) == Lifted(ReadValue(data, pos))
    decreases |data| - pos, 0
  {
    HeadsAgree(data, pos);
    if ReadHead(data, pos).Done? {
      var h, p := ReadHead(data, pos).value, ReadHead(data, pos).next;
      if h.major == MT_ARRAY {
        ItemsAgree(data, p, h.arg, []);
      } else if h.major == MT_MAP {
        MapsAgree(data, pos, h, p);
      } else if h.major == MT_TAG {
        DecodersAgree(data, p);
      } else {
        ScalarsAgree(data, pos);
      }
    }
  }

  lemma {:induction false} ScalarsAgree(data: bytes, pos: nat)
    requires pos <= |data| && CleanValue(data, pos) && ReadHead(data, pos).Done?
    requires ReadHead(data, pos).value.major !in {MT_ARRAY, MT_MAP, MT_TAG}
    ensures JsReadValue(data, pos) == Lifted(ReadValue(data, pos))
  {
    HeadsAgree(data, pos);
    var h, p := ReadHead(data, pos).value, ReadHead(data, pos).next;
    if h.major == MT_TEXT {
      TextStep(data, pos, h, p);
    } else {
      ScalarStep(data, pos, h, p);
    }
  }

  lemma {:induction false} TextStep(data: bytes, pos: nat, h: ItemHead, p: nat)
    requires pos <= |data| && ReadHead(data, pos) == Done(h, p)
    requires JsReadHead(data, pos) == Done(JsHead(h.major, h.info, h.arg), p)
    requires h.major == MT_TEXT && (ReadBytes(data, p, h.arg).Done? ==> CleanText(ReadBytes(data, p, h.arg).value))
    ensures JsReadValue(data, pos) == Lifted(ReadValue(data, pos))
  {
    if ReadBytes(data, p, h.arg).Done? {
      TextsAgree(ReadBytes(data, p, h.arg).value);
    }
  }

  lemma {:induction false} ScalarStep(data: bytes, pos: nat, h: ItemHead, p: nat)
    requires pos <= |data| && ReadHead(data, pos) == Done(h, p)
    requires JsReadHead(data, pos) == Done(JsHead(h.major, h.info, h.arg), p)
    requires h.major in {MT_UINT, MT_NINT, MT_BYTES, MT_SIMPLE} && (h.major == MT_SIMPLE ==> h.info != 23)
    ensures JsReadValue(data, pos) == Lifted(ReadValue(data, pos))
  {
  }

  lemma {:induction false} TextsAgree(b: bytes)
    requires CleanText(b)
    ensures JsText(b) == DecodeUtf8(b)
  {
  }

  lemma {:induction false} ItemsAgree(data: bytes, p: nat, n: nat, acc: seq<Value>)
    requires p <= |data| && CleanItems(data, p, n)
    ensures JsReadItems(data, p, n, acc) == Lifted(ReadItems(data, p, n, acc))
    decreases |data| - p, 1, n
  {
    if n == 0 {
    } else {
      DecodersAgree(data, p);
      if ReadValue(data, p).Done? {
        ItemsAgree(data, ReadValue(data, p).next, n - 1, acc + [ReadValue(data, p).value]);
      }
    }
  }

  lemma {:induction false} MapsAgree(data: bytes, pos: nat, h: ItemHead, p: nat)
    requires pos < p <= |data| && ReadHead(data, pos) == Done(h, p) && h.major == MT_MAP
    requires JsReadHead(data, pos) == Done(JsHead(h.major, h.info, h.arg), p)
    requires CleanEntries(data, p, h.arg)
    requires ReadEntries(data, p, h.arg, []).Done? ==> ProtoFree(ReadEntries(data, p, h.arg, []).value)
    ensures JsReadValue(data, pos) == Lifted(ReadValue(data, pos))
    decreases |data| - p, 2
  {
    var r := ReadPairs(data, p, h.arg, []);
    PairsAgree(data, p, h.arg, []);
    PairsCollect(data, p, h.arg, []);
    if r.Done? {
      PairsHaveKeys(data, p, h.arg, []);
      ProtoFreeMap(r.value);
    }
  }

  predicate JsKeys(es: seq<Entry>) { forall i :: 0 <= i < |es| ==> JsKey(es[i].key) }

  /** The pairs the Python decoder puts into its dictionary, as a list. */
  function ReadPairs(data: bytes, p: nat, n: nat, acc: seq<Entry>): (r: Read<seq<Entry>>)
    requires p <= |data|
    ensures r.Done? ==> p <= r.next <= |data|
    decreases |data| - p, 1, n
  {
    if n == 0 then Done(acc, p)
    else
      match ReadValue(data, p)
      case Fail(e) => Fail(e)
      case Done(k, q) =>
        match ReadValue(data, q)
        case Fail(e) => Fail(e)
        case Done(v, s) =>
          if k.Array? || k.Map? then Fail(TypeError) else ReadPairs(data, s, n - 1, acc + [Entry(k, v)])
  }

  /** The dictionary is what these pairs collect to. */
  lemma {:induction false} PairsCollect(data: bytes, p: nat, n: nat, acc: seq<Entry>)
    requires p <= |data|
    ensures ReadEntries(data, p, n, Collect(acc)) == match ReadPairs(data, p, n, acc)
      case Fail(e) => Fail(e)
      case Done(es, q) => Done(Collect(es), q)
    decreases |data| - p, n
  {
    if n == 0 {
    } else {
      var k := ReadValue(data, p);
      if k.Done? {
        var v := ReadValue(data, k.next);
        if v.Done? && !k.value.Array? && !k.value.Map? {
          CollectNext(acc, Entry(k.value, v.value));
          PairsCollect(data, v.next, n - 1, acc + [Entry(k.value, v.value)]);
        }
      }
    }
  }

  lemma {:induction false} PairsHaveKeys(data: bytes, p: nat, n: nat, acc: seq<Entry>)
    requires p <= |data| && CleanEntries(data, p, n) && JsKeys(acc)
    requires ReadPairs(data, p, n, acc).Done?
    ensures JsKeys(ReadPairs(data, p, n, acc).value)
    decreases |data| - p, n
  {
    if n == 0 {
    } else {
      var k := ReadValue(data, p);
      var v := ReadValue(data, k.next);
      PairsHaveKeys(data, v.next, n - 1, acc + [Entry(k.value, v.value)]);
    }
  }

  lemma {:induction false} PairsAgree(data: bytes, p: nat, n: nat, acc: seq<Entry>)
    requires p <= |data| && CleanEntries(data, p, n)
    ensures JsReadEntries(data, p, n, acc) == Lifted(ReadPairs(data, p, n, acc))
    decreases |data| - p, 1, n
  {
    if n == 0 {
    } else {
      DecodersAgree(data, p);
      var k := ReadValue(data, p);
      if k.Done? {
        DecodersAgree(data, k.next);
        var v := ReadValue(data, k.next);
        if v.Done? {
          CleanPair(data, p, n, k.value, k.next, v.value, v.next);
          PairsAgree(data, v.next, n - 1, acc + [Entry(k.value, v.value)]);
          BothStep(data, p, n, acc, k.value, k.next, v.value, v.next);
        } else {
          BothFail(data, p, n, acc);
        }
      } else {
        BothFail(data, p, n, acc);
      }
    }
  }

  /** A failing key or value ends both loops with its error. */
  lemma {:induction false} BothFail(data: bytes, p: nat, n: nat, acc: seq<Entry>)
    requires n > 0 && p <= |data| && JsReadValue(data, p) == Lifted(ReadValue(data, p))
    requires var k := ReadValue(data, p);
      k.Fail? || (ReadValue(data, k.next).Fail? && JsReadValue(data, k.next) == Lifted(ReadValue(data, k.next)))
    ensures JsReadEntries(data, p, n, acc) == Lifted(ReadPairs(data, p, n, acc))
  {
  }

  lemma {:induction false} CleanPair(data: bytes, p: nat, n: nat, k: Value, q: nat, v: Value, s: nat)
    requires n > 0 && p < q < s <= |data| && CleanEntries(data, p, n)
    requires ReadValue(data, p) == Done(k, q) && ReadValue(data, q) == Done(v, s)
    ensures JsKey(k) && CleanEntries(data, s, n - 1)
  {
  }

  lemma {:induction false} BothStep(data: bytes, p: nat, n: nat, acc: seq<Entry>, k: Value, q: nat, v: Value, s: nat)
    requires n > 0 && p < q < s <= |data| && JsKey(k)
    requires ReadValue(data, p) == Done(k, q) && JsReadValue(data, p) == JsDone(k, q)
    requires ReadValue(data, q) == Done(v, s) && JsReadValue(data, q) == JsDone(v, s)
    ensures JsReadEntries(data, p, n, acc) == JsReadEntries(data, s, n - 1, acc + [Entry(k, v)])
    ensures ReadPairs(data, p, n, acc) == ReadPairs(data, s, n - 1, acc + [Entry(k, v)])
  {
    JsEntriesStep(data, p, n, acc, k, v, q, s);
    PairsStep(data, p, n, acc, k, v, q, s);
  }

  lemma {:induction false} PairsStep(data: bytes, p: nat, n: nat, acc: seq<Entry>, k: Value, v: Value, q: nat, s: nat)
    requires n > 0 && p <= q <= s <= |data| && JsKey(k)
    requires ReadValue(data, p) == Done(k, q) && ReadValue(data, q) == Done(v, s)
    ensures ReadPairs(data, p, n, acc) == ReadPairs(data, s, n - 1, acc + [Entry(k, v)])
  {
  }

  lemma {:induction false} CollectNext(es: seq<Entry>, e: Entry)
    ensures Collect(es + [e]) == Upsert(Collect(es), e.key, e.val)
  {
    assert (es + [e])[..|es|] == es;
  }

  lemma {:induction false} UpsertKeeps(es: seq<Entry>, k: Value, v: Value, q: Value)
    requires JsKeys(es) && JsKey(k)
    ensures JsKeys(Upsert(es, k, v)) && (HasKey(Upsert(es, k, v), q) <==> q == k || HasKey(es, q))
  {
    if es == [] {
      assert Upsert(es, k, v)[0].key == k;
    } else {
      var r, rest := Upsert(es, k, v), es[1..];
      UpsertKeeps(rest, k, v, q);
      HasKeyFirst(es, q);
      HasKeyFirst(r, q);
      if es[0].key == k {
        assert r == [Entry(k, v)] + rest;
      } else {
        assert r == [es[0]] + Upsert(rest, k, v);
      }
    }
  }

  lemma {:induction false} HasKeyFirst(es: seq<Entry>, q: Value)
    requires es != []
    ensures HasKey(es, q) <==> es[0].key == q || HasKey(es[1..], q)
  {
    if HasKey(es, q) && es[0].key != q {
      var i :| 0 <= i < |es| && es[i].key == q;
      assert es[1..][i - 1].key == q;
    }
    if HasKey(es[1..], q) {
      var i :| 0 <= i < |es[1..]| && es[1..][i].key == q;
      assert es[i + 1].key == q;
    }
  }

  lemma {:induction false} HasKeyLast(es: seq<Entry>, q: Value)
    requires es != []
    ensures HasKey(es, q) <==> es[|es| - 1].key == q || HasKey(es[..|es| - 1], q)
  {
    if HasKey(es, q) && es[|es| - 1].key != q {
      var i :| 0 <= i < |es| && es[i].key == q;
      assert es[..|es| - 1][i].key == q;
    }
    if HasKey(es[..|es| - 1], q) {
      var i :| 0 <= i < |es| - 1 && es[..|es| - 1][i].key == q;
      assert es[i].key == q;
    }
  }

  /** Collecting keeps the keys. */
  lemma {:induction false} CollectKeys(es: seq<Entry>, q: Value)
    requires JsKeys(es)
    ensures JsKeys(Collect(es)) && (HasKey(Collect(es), q) <==> HasKey(es, q))
  {
    if es == [] {
    } else {
      var n := |es| - 1;
      CollectKeys(es[..n], q);
      UpsertKeeps(Collect(es[..n]), es[n].key, es[n].val, q);
      HasKeyLast(es, q);
    }
  }

  lemma {:induction false} ProtoFreeMap(raw: seq<Entry>)
    requires JsKeys(raw) && ProtoFree(Collect(raw))
    ensures ToCborMap(raw) == Some(Collect(raw))
  {
    if AllTexts(raw) {
      forall i | 0 <= i < |Collect(raw)| ensures Collect(raw)[i].key.Tstr? {
        var k := Collect(raw)[i].key;
        CollectKeys(raw, k);
        assert HasKey(Collect(raw), k);
      }
      CollectKeys(raw, Tstr(PROTO_NAME));
      assert !HasKey(Collect(raw), Tstr(PROTO_NAME));
      NoProtoToDrop(raw);
    }
  }

  lemma {:induction false} NoProtoToDrop(es: seq<Entry>)
    requires forall i :: 0 <= i < |es| ==> !NamesProto(es[i])
    ensures WithoutProto(es) == es
  {
    if es == [] {
    } else {
      NoProtoToDrop(es[1..]);
    }
  }

  /* ------------------------------- the decoded image ---------------------------- */

  /** The argument is not one the encoder writes in four bytes with the sign bit set. */
  predicate SafeArg(n: int) { !(SIGN_BIT <= n <= 0xFFFF_FFFF) }

  /** The argument of an integer's head. */
  function ArgOf(i: int): nat { if i >= 0 then i else -1 - i }

  predicate SafeInt(i: int) { SafeArg(ArgOf(i)) }

  /**
   * Every length is safe, no text is marked, every key is a safe text or integer, and no object would get a
   * property named `__proto__`; other integers are free.
   */
  predicate JsShaped(v: Value)
  {
    match v
    case Bstr(b) => SafeArg(|b|)
    case Tstr(t) => SafeArg(|EncodeUtf8(t)|) && (t != "" ==> t[0] != BYTE_ORDER_MARK)
    case Array(items) => SafeArg(|items|) && forall i :: 0 <= i < |items| ==> JsShaped(items[i])
    case Map(es) =>
      && SafeArg(|es|) && ProtoFree(es)
      && forall i :: 0 <= i < |es| ==> JsKey(es[i].key) && JsSafe(es[i].key) && JsShaped(es[i].val)
    case _ => true
  }

  /** A value that survives the TypeScript decoder: its integers are safe as well. */
  predicate JsSafe(v: Value)
  {
    match v
    case Int(i) => SafeInt(i)
    case Bstr(b) => SafeArg(|b|)
    case Tstr(t) => SafeArg(|EncodeUtf8(t)|) && (t != "" ==> t[0] != BYTE_ORDER_MARK)
    case Array(items) => SafeArg(|items|) && forall i :: 0 <= i < |items| ==> JsSafe(items[i])
    case Map(es) =>
      && SafeArg(|es|) && ProtoFree(es)
      && forall i :: 0 <= i < |es| ==> JsKey(es[i].key) && JsSafe(es[i].key) && JsSafe(es[i].val)
    case _ => true
  }

  /** What the decoder makes of an integer: one with a signed argument changes its sign. */
  function Lowered(i: int): int
  {
    if SafeInt(i) then i else if i >= 0 then i - 0x1_0000_0000 else i + 0x1_0000_0000
  }

  /** Every integer outside the keys as the decoder returns it. */
  function Lower(v: Value): Value
    decreases v, 1
  {
    match v
    case Int(i) => Int(Lowered(i))
    case Array(items) => Array(LowerItems(items))
    case Map(es) => Map(LowerEntries(es))
    case _ => v
  }

  function LowerItems(items: seq<Value>): (r: seq<Value>)
    ensures |r| == |items|
    decreases items, 0
  {
    if items == [] then [] else [Lower(items[0])] + LowerItems(items[1..])
  }

  function LowerEntries(es: seq<Entry>): (r: seq<Entry>)
    ensures |r| == |es|
    decreases es, 0
  {
    if es == [] then [] else [LowerEntry(es[0])] + LowerEntries(es[1..])
  }

  function LowerEntry(e: Entry): Entry
    decreases e, 0
  {
    Entry(e.key, Lower(e.val))
  }

  /** The value the TypeScript decoder returns for an encoded one. */
  function JsImage(v: Value): Value { Lower(Canon(v)) }

  lemma {:induction false} SafeHead(m: major, n: nat, data: bytes, pos: nat)
    requires n <= MAX_ARG && m != MT_SIMPLE && At(data, pos, Head(m, n))
    ensures ReadHead(data, pos).Done? && (CleanHead(ReadHead(data, pos).value) <==> SafeArg(n))
  {
    HeadRoundTrip(m, n, data, pos);
    var h := Head(m, n);
    assert data[pos] == data[pos..pos + |h|][0] == h[0];
    InfoOf(m, h[0] - m * 32);
  }

  /** The TypeScript head reader gives the argument back, lowered when its sign bit is set. */
  lemma {:induction false} JsHeadBack(m: major, n: nat, data: bytes, pos: nat)
    requires n <= MAX_ARG && m != MT_SIMPLE && At(data, pos, Head(m, n))
    ensures JsReadHead(data, pos).Done? && JsReadHead(data, pos).next == pos + |Head(m, n)|
    ensures JsReadHead(data, pos).value.major == m
    ensures JsReadHead(data, pos).value.arg == if SafeArg(n) then n else n - 0x1_0000_0000
  {
    HeadRoundTrip(m, n, data, pos);
    SafeHead(m, n, data, pos);
    HeadsAgree(data, pos);
    WrapsDown(n);
  }

  lemma {:induction false} WrapsDown(n: nat)
    ensures !SafeArg(n) ==> ToInt32(n) == n - 0x1_0000_0000
  {
  }

  lemma {:induction false} JsIntBack(i: int, data: bytes, pos: nat)
    requires Profile(Int(i)) && At(data, pos, EncInt(i))
    ensures JsReadValue(data, pos) == JsDone(Int(Lowered(i)), pos + |EncInt(i)|)
  {
    if i >= 0 {
      JsArgumentBack(MT_UINT, i, data, pos);
    } else {
      JsArgumentBack(MT_NINT, -1 - i, data, pos);
    }
  }

  lemma {:induction false} JsArgumentBack(m: major, n: nat, data: bytes, pos: nat)
    requires n <= MAX_ARG && (m == MT_UINT || m == MT_NINT) && At(data, pos, Head(m, n))
    ensures JsReadValue(data, pos)
         == JsDone(Int(if m == MT_UINT then Lowered(n) else Lowered(-1 - n)), pos + |Head(m, n)|)
  {
    JsHeadBack(m, n, data, pos);
    JsIntStep(data, pos, m, JsReadHead(data, pos).value.arg, pos + |Head(m, n)|);
  }

  lemma {:induction false} JsIntStep(data: bytes, pos: nat, m: major, n: int, p: nat)
    requires pos <= |data| && JsReadHead(data, pos).Done? && JsReadHead(data, pos).next == p
    requires JsReadHead(data, pos).value.major == m && JsReadHead(data, pos).value.arg == n
    requires m == MT_UINT || m == MT_NINT
    ensures JsReadValue(data, pos) == JsDone(Int(if m == MT_UINT then n else -1 - n), p)
  {
  }

  lemma {:induction false} JsBytesBack(b: bytes, data: bytes, pos: nat)
    requires |b| <= MAX_ARG && At(data, pos, Head(MT_BYTES, |b|) + b)
    ensures JsReadValue(data, pos)
         == if SafeArg(|b|) then JsDone(Bstr(b), pos + |Head(MT_BYTES, |b|) + b|) else Outside
  {
    AtSplit(data, pos, Head(MT_BYTES, |b|), b);
    JsHeadBack(MT_BYTES, |b|, data, pos);
    JsStringStep(data, pos, MT_BYTES, b, pos + |Head(MT_BYTES, |b|)|);
  }

  lemma {:induction false} JsStringStep(data: bytes, pos: nat, m: major, b: bytes, p: nat)
    requires p <= |data| && At(data, p, b) && (m == MT_BYTES || (m == MT_TEXT && JsText(b).Some?))
    requires pos <= |data| && JsReadHead(data, pos).Done? && JsReadHead(data, pos).next == p
    requires JsReadHead(data, pos).value.major == m
    requires JsReadHead(data, pos).value.arg == if SafeArg(|b|) then |b| else |b| - 0x1_0000_0000
    ensures JsReadValue(data, pos)
         == if SafeArg(|b|) then JsDone(if m == MT_BYTES then Bstr(b) else Tstr(JsText(b).value), p + |b|) else Outside
  {
    var n := JsReadHead(data, pos).value.arg;
    assert JsReadBytes(data, p, n) == if SafeArg(|b|) then JsDone(b, p + |b|) else Outside;
  }

  lemma {:induction false} JsTextBack(t: string, b: bytes, data: bytes, pos: nat)
    requires DecodeUtf8(b) == Some(t) && |b| <= MAX_ARG && At(data, pos, Head(MT_TEXT, |b|) + b)
    ensures JsReadValue(data, pos)
         == if SafeArg(|b|) then JsDone(Tstr(JsText(b).value), pos + |Head(MT_TEXT, |b|) + b|) else Outside
  {
    AtSplit(data, pos, Head(MT_TEXT, |b|), b);
    JsHeadBack(MT_TEXT, |b|, data, pos);
    JsStringStep(data, pos, MT_TEXT, b, pos + |Head(MT_TEXT, |b|)|);
  }

  /** Scalars that are not integers: read back exactly when they are safe, and never as themselves otherwise. */
  lemma {:induction false} JsScalarBack(v: Value, data: bytes, pos: nat)
    requires Profile(v) && IsKey(v) && !v.Int? && At(data, pos, Enc(v))
    ensures JsSafe(v) ==> JsReadValue(data, pos) == JsDone(v, pos + |Enc(v)|)
    ensures !JsSafe(v) ==> Lost(data, pos, v)
  {
    match v
    case Null => JsSimpleBack(v, 0xF6, data, pos);
    case Bool(b) => JsSimpleBack(v, if b then 0xF5 else 0xF4, data, pos);
    case Bstr(b) => JsBytesBack(b, data, pos);
    case Tstr(t) =>
      Utf8RoundTrip(t);
      JsTextBack(t, EncodeUtf8(t), data, pos);
    case _ =>
  }

  lemma {:induction false} JsSimpleBack(v: Value, b: byte, data: bytes, pos: nat)
    requires v in {Null, Bool(true), Bool(false)}
    requires b == (if v == Null then 0xF6 else if v == Bool(true) then 0xF5 else 0xF4)
    requires pos < |data| && data[pos..pos + 1] == [b]
    ensures JsReadValue(data, pos) == JsDone(v, pos + 1)
  {
    assert data[pos] == data[pos..pos + 1][0];
  }

  /**
   * Reading an encoded value anywhere gives its image and advances exactly over its bytes, when its
   * lengths, texts and keys are as the decoder expects them.
   */
  lemma {:induction false} JsReadBack(v: Value, data: bytes, pos: nat)
    requires Profile(v) && JsShaped(v) && At(data, pos, Enc(v))
    ensures JsReadValue(data, pos) == JsDone(JsImage(v), pos + |Enc(v)|)
    decreases v, 1
  {
    match v
    case Int(i) => JsIntBack(i, data, pos);
    case Array(items) => JsArrayBack(v, items, data, pos);
    case Map(es) => JsMapBack(v, es, data, pos);
    case _ => JsScalarBack(v, data, pos);
  }

  lemma {:induction false} JsArrayBack(v: Value, items: seq<Value>, data: bytes, pos: nat)
    requires v == Array(items) && Profile(v) && JsShaped(v) && At(data, pos, Enc(v))
    ensures JsReadValue(data, pos) == JsDone(JsImage(v), pos + |Enc(v)|)
    decreases v, 0, |items|
  {
    JsListBack(items, data, pos);
  }

  lemma {:induction false} JsListBack(items: seq<Value>, data: bytes, pos: nat)
    requires ProfileItems(items) && |items| <= MAX_ARG && At(data, pos, Head(MT_ARRAY, |items|) + EncItems(items))
    requires SafeArg(|items|) && forall i :: 0 <= i < |items| ==> JsShaped(items[i])
    ensures JsReadValue(data, pos)
         == JsDone(Array(LowerItems(CanonItems(items))), pos + |Head(MT_ARRAY, |items|) + EncItems(items)|)
    decreases items, 2
  {
    var head, body := Head(MT_ARRAY, |items|), EncItems(items);
    AtSplit(data, pos, head, body);
    JsHeadBack(MT_ARRAY, |items|, data, pos);
    JsArrayBodyBack(items, data, pos, pos + |head|, LowerItems(CanonItems(items)), pos + |head| + |body|);
  }

  lemma {:induction false} JsArrayBodyBack(items: seq<Value>, data: bytes, pos: nat, p: nat, image: seq<Value>,
                                           end: nat)
    requires ProfileItems(items) && At(data, p, EncItems(items))
    requires forall i :: 0 <= i < |items| ==> JsShaped(items[i])
    requires image == LowerItems(CanonItems(items)) && end == p + |EncItems(items)|
    requires pos <= |data| && JsReadHead(data, pos).Done? && JsReadHead(data, pos).next == p
    requires JsReadHead(data, pos).value.major == MT_ARRAY && JsReadHead(data, pos).value.arg == |items|
    ensures JsReadValue(data, pos) == JsDone(Array(image), end)
    decreases items, 1
  {
    JsItemsBack(items, data, p, [], image, end);
    assert [] + image == image;
    JsArrayStep(data, pos, |items|, p, image, end);
  }

  lemma {:induction false} JsArrayStep(data: bytes, pos: nat, n: nat, p: nat, items: seq<Value>, q: nat)
    requires pos <= |data| && JsReadHead(data, pos).Done? && JsReadHead(data, pos).next == p
    requires JsReadHead(data, pos).value.major == MT_ARRAY && JsReadHead(data, pos).value.arg == n
    requires JsReadItems(data, p, n, []) == JsDone(items, q)
    ensures JsReadValue(data, pos) == JsDone(Array(items), q)
  {
  }

  lemma {:induction false} JsItemsBack(items: seq<Value>, data: bytes, p: nat, acc: seq<Value>, image: seq<Value>,
                                       end: nat)
    requires ProfileItems(items) && At(data, p, EncItems(items))
    requires forall i :: 0 <= i < |items| ==> JsShaped(items[i])
    requires image == LowerItems(CanonItems(items)) && end == p + |EncItems(items)|
    ensures JsReadItems(data, p, |items|, acc) == JsDone(acc + image, end)
    decreases items, 0, 1
  {
    if items == [] {
      assert acc + [] == acc;
    } else {
      ItemsLayout(items, data, p);
      LowerHead(items);
      JsItemThenRest(items, data, p, p + |Enc(items[0])|, acc, image, end);
    }
  }

  lemma {:induction false} LowerHead(items: seq<Value>)
    requires items != []
    ensures LowerItems(CanonItems(items)) == [JsImage(items[0])] + LowerItems(CanonItems(items[1..]))
  {
    assert CanonItems(items) == [Canon(items[0])] + CanonItems(items[1..]);
    assert CanonItems(items)[1..] == CanonItems(items[1..]);
  }

  lemma {:induction false} JsItemThenRest(items: seq<Value>, data: bytes, p: nat, q: nat, acc: seq<Value>,
                                          image: seq<Value>, end: nat)
    requires items != [] && ProfileItems(items) && ProfileItems(items[1..])
    requires forall i :: 0 <= i < |items| ==> JsShaped(items[i])
    requires At(data, p, Enc(items[0])) && q == p + |Enc(items[0])| && At(data, q, EncItems(items[1..]))
    requires image == [JsImage(items[0])] + LowerItems(CanonItems(items[1..])) && end == q + |EncItems(items[1..])|
    ensures JsReadItems(data, p, |items|, acc) == JsDone(acc + image, end)
    decreases items, 0, 0
  {
    var v, tail := JsImage(items[0]), LowerItems(CanonItems(items[1..]));
    JsReadBack(items[0], data, p);
    JsItemsStep(data, p, |items|, acc, v, q);
    JsItemsBack(items[1..], data, q, acc + [v], tail, end);
    RegroupItems(acc, v, tail);
  }

  lemma {:induction false} JsItemsStep(data: bytes, p: nat, n: nat, acc: seq<Value>, v: Value, q: nat)
    requires n > 0 && p <= q <= |data| && JsReadValue(data, p) == JsDone(v, q)
    ensures JsReadItems(data, p, n, acc) == JsReadItems(data, q, n - 1, acc + [v])
  {
  }

  lemma {:induction false} JsMapBack(v: Value, es: seq<Entry>, data: bytes, pos: nat)
    requires v == Map(es) && Profile(v) && JsShaped(v) && At(data, pos, Enc(v))
    ensures JsReadValue(data, pos) == JsDone(JsImage(v), pos + |Enc(v)|)
    decreases v, 0, |es| + 4
  {
    var s := Sorting.Sort(es, EntryLe);
    MapLayout(es);
    ShapedBelowSorted(v, es, s);
    JsSortedMapBack(v, s, data, pos);
  }

  lemma {:induction false} JsSortedMapBack(root: Value, s: seq<Entry>, data: bytes, pos: nat)
    requires ProfileEntries(s) && ShapedBelow(root, s) && ProtoFree(s) && SafeArg(|s|) && |s| <= MAX_ARG
    requires At(data, pos, Head(MT_MAP, |s|) + Flatten(EncEntries(s)))
    ensures JsReadValue(data, pos)
         == JsDone(Map(LowerEntries(CanonEntries(s))), pos + |Head(MT_MAP, |s|) + Flatten(EncEntries(s))|)
    decreases root, 0, |s| + 3
  {
    var head, body := Head(MT_MAP, |s|), Flatten(EncEntries(s));
    AtSplit(data, pos, head, body);
    JsHeadBack(MT_MAP, |s|, data, pos);
    JsMapBodyBack(root, s, data, pos, pos + |head|, LowerEntries(CanonEntries(s)), pos + |head| + |body|);
  }

  lemma {:induction false} JsMapBodyBack(root: Value, s: seq<Entry>, data: bytes, pos: nat, p: nat, image: seq<Entry>,
                                         end: nat)
    requires ProfileEntries(s) && At(data, p, Flatten(EncEntries(s))) && ShapedBelow(root, s) && ProtoFree(s)
    requires image == LowerEntries(CanonEntries(s)) && end == p + |Flatten(EncEntries(s))|
    requires pos <= |data| && JsReadHead(data, pos).Done? && JsReadHead(data, pos).next == p
    requires JsReadHead(data, pos).value.major == MT_MAP && JsReadHead(data, pos).value.arg == |s|
    ensures JsReadValue(data, pos) == JsDone(Map(image), end)
    decreases root, 0, |s| + 2
  {
    JsEntriesBack(root, s, data, p, [], image, end);
    assert [] + image == image;
    ImageKeys(s);
    DistinctMap(s, image);
    JsMapStep(data, pos, |s|, p, image, image, end);
  }

  predicate SameKeys(es: seq<Entry>, fs: seq<Entry>)
  {
    |es| == |fs| && forall i :: 0 <= i < |es| ==> es[i].key == fs[i].key
  }

  lemma {:induction false} ImageKeys(es: seq<Entry>)
    ensures SameKeys(es, LowerEntries(CanonEntries(es)))
  {
    if es == [] {
    } else {
      ImageKeys(es[1..]);
      assert CanonEntries(es)[1..] == CanonEntries(es[1..]);
    }
  }

  /** Entries with the distinct keys of a profile map are collected one by one. */
  lemma {:induction false} DistinctMap(es: seq<Entry>, image: seq<Entry>)
    requires DistinctKeys(es) && ProtoFree(es) && SameKeys(es, image)
    ensures ToCborMap(image) == Some(image)
  {
    DistinctCollect(image);
    if AllTexts(image) {
      NoProtoToDrop(image);
    }
  }

  lemma {:induction false} DistinctCollect(es: seq<Entry>)
    requires DistinctKeys(es)
    ensures Collect(es) == es
  {
    if es == [] {
    } else {
      var n := |es| - 1;
      DistinctCollect(es[..n]);
      UpsertFresh(es[..n], es[n].key, es[n].val);
      assert es == es[..n] + [es[n]];
    }
  }

  lemma {:induction false} JsMapStep(data: bytes, pos: nat, n: nat, p: nat, raw: seq<Entry>, es: seq<Entry>, q: nat)
    requires pos <= |data| && JsReadHead(data, pos).Done? && JsReadHead(data, pos).next == p
    requires JsReadHead(data, pos).value.major == MT_MAP && JsReadHead(data, pos).value.arg == n
    requires JsReadEntries(data, p, n, []) == JsDone(raw, q) && ToCborMap(raw) == Some(es)
    ensures JsReadValue(data, pos) == JsDone(Map(es), q)
  {
  }

  ghost predicate ShapedBelow(root: Value, es: seq<Entry>)
  {
    forall i :: 0 <= i < |es| ==>
      es[i].val < root && es[i].key < root && JsKey(es[i].key) && JsSafe(es[i].key) && JsShaped(es[i].val)
  }

  lemma {:induction false} ShapedBelowSorted(v: Value, es: seq<Entry>, s: seq<Entry>)
    requires v == Map(es) && JsShaped(v) && forall x :: x in s <==> x in es
    ensures ShapedBelow(v, s) && ProtoFree(s)
  {
    SameMembersProtoFree(es, s);
    forall i | 0 <= i < |s|
      ensures s[i].val < v && s[i].key < v && JsKey(s[i].key) && JsSafe(s[i].key) && JsShaped(s[i].val)
    {
      assert s[i] in es;
      EntryBelow(v, es, s[i]);
    }
  }

  lemma {:induction false} SameMembersProtoFree(es: seq<Entry>, s: seq<Entry>)
    requires forall x :: x in s <==> x in es
    ensures ProtoFree(es) <==> ProtoFree(s)
  {
    assert AllTexts(es) <==> AllTexts(s) by {
      assert AllTexts(es) <==> forall x :: x in es ==> x.key.Tstr?;
      assert AllTexts(s) <==> forall x :: x in s ==> x.key.Tstr?;
    }
    assert (forall i :: 0 <= i < |es| ==> !NamesProto(es[i])) <==> forall x :: x in es ==> !NamesProto(x);
    assert (forall i :: 0 <= i < |s| ==> !NamesProto(s[i])) <==> forall x :: x in s ==> !NamesProto(x);
  }

  /** The first entry starts at `p`, its value at `q` and the other entries at `s`. */
  predicate LaidOut(es: seq<Entry>, data: bytes, p: nat, q: nat, s: nat)
  {
    && es != [] && ProfileEntries(es) && ProfileEntries(es[1..])
    && At(data, p, Enc(es[0].key)) && At(data, q, Enc(es[0].val)) && At(data, s, Flatten(EncEntries(es[1..])))
    && q == p + |Enc(es[0].key)| && s == q + |Enc(es[0].val)|
  }

  lemma {:induction false} LayOut(es: seq<Entry>, data: bytes, p: nat) returns (q: nat, s: nat)
    requires es != [] && ProfileEntries(es) && At(data, p, Flatten(EncEntries(es)))
    ensures LaidOut(es, data, p, q, s)
    ensures p + |Flatten(EncEntries(es))| == s + |Flatten(EncEntries(es[1..]))|
    ensures CanonEntries(es) == [CanonEntry(es[0])] + CanonEntries(es[1..])
  {
    var e := es[0];
    EntriesLayout(es, data, p);
    var kb, vb := Enc(e.key), Enc(e.val);
    q, s := p + |kb|, p + |kb| + |vb|;
  }

  lemma {:induction false} JsEntriesBack(root: Value, es: seq<Entry>, data: bytes, p: nat, acc: seq<Entry>,
                                         image: seq<Entry>, end: nat)
    requires ProfileEntries(es) && At(data, p, Flatten(EncEntries(es))) && ShapedBelow(root, es)
    requires image == LowerEntries(CanonEntries(es)) && end == p + |Flatten(EncEntries(es))|
    ensures JsReadEntries(data, p, |es|, acc) == JsDone(acc + image, end)
    decreases root, 0, |es|, 2
  {
    if es == [] {
      assert acc + [] == acc;
    } else {
      var q, s := LayOut(es, data, p);
      LowerFirst(es[0], CanonEntries(es), CanonEntries(es[1..]));
      JsEntryThenRest(root, es, data, p, q, s, acc, image, end);
    }
  }

  lemma {:induction false} LowerFirst(e: Entry, cs: seq<Entry>, rest: seq<Entry>)
    requires cs == [CanonEntry(e)] + rest
    ensures LowerEntries(cs) == [Entry(CanonEntry(e).key, JsImage(e.val))] + LowerEntries(rest)
  {
    assert cs[1..] == rest;
  }

  lemma {:induction false} JsEntryThenRest(root: Value, es: seq<Entry>, data: bytes, p: nat, q: nat, s: nat,
                                           acc: seq<Entry>, image: seq<Entry>, end: nat)
    requires LaidOut(es, data, p, q, s) && ShapedBelow(root, es)
    requires image == [Entry(CanonEntry(es[0]).key, JsImage(es[0].val))] + LowerEntries(CanonEntries(es[1..]))
    requires end == s + |Flatten(EncEntries(es[1..]))|
    ensures JsReadEntries(data, p, |es|, acc) == JsDone(acc + image, end)
    decreases root, 0, |es|, 1
  {
    var e, tail := LowerEntry(CanonEntry(es[0])), LowerEntries(CanonEntries(es[1..]));
    JsFirstEntryBack(root, es[0], |es|, data, p, q, s, acc, e.val);
    JsEntriesBack(root, es[1..], data, s, acc + [e], tail, end);
    Regroup(acc, e, tail);
  }

  lemma {:induction false} JsFirstEntryBack(root: Value, e: Entry, n: nat, data: bytes, p: nat, q: nat, s: nat,
                                            acc: seq<Entry>, v: Value)
    requires n > 0 && IsKey(e.key) && Profile(e.key) && Profile(e.val) && e.val < root && e.key < root
    requires JsKey(e.key) && JsSafe(e.key) && JsShaped(e.val)
    requires At(data, p, Enc(e.key)) && At(data, q, Enc(e.val))
    requires q == p + |Enc(e.key)| && s == q + |Enc(e.val)| && v == JsImage(e.val)
    ensures JsReadEntries(data, p, n, acc) == JsReadEntries(data, s, n - 1, acc + [Entry(e.key, v)])
    decreases root, 0, n, 0
  {
    SafeKeyBack(e.key, data, p);
    JsReadBack(e.val, data, q);
    JsEntriesStep(data, p, n, acc, e.key, v, q, s);
  }

  /** A safe key is read back as itself. */
  lemma {:induction false} SafeKeyBack(k: Value, data: bytes, pos: nat)
    requires IsKey(k) && Profile(k) && JsSafe(k) && At(data, pos, Enc(k))
    ensures JsReadValue(data, pos) == JsDone(k, pos + |Enc(k)|)
  {
    if k.Int? {
      JsIntBack(k.i, data, pos);
    } else {
      JsScalarBack(k, data, pos);
    }
  }

  lemma {:induction false} JsEntriesStep(data: bytes, p: nat, n: nat, acc: seq<Entry>, k: Value, v: Value, q: nat,
                                         s: nat)
    requires n > 0 && p <= q <= s <= |data|
    requires JsReadValue(data, p) == JsDone(k, q) && JsReadValue(data, q) == JsDone(v, s)
    ensures JsReadEntries(data, p, n, acc)
         == if JsKey(k) then JsReadEntries(data, s, n - 1, acc + [Entry(k, v)]) else JsFail(ParseError)
  {
  }

  /* ---------------------------------- round trip -------------------------------- */

  /** A safe value has the expected shape, and its image is the value itself in key order. */
  lemma {:induction false} SafeImage(v: Value)
    requires JsSafe(v)
    ensures JsShaped(v) && JsImage(v) == Canon(v)
    decreases v, 1
  {
    match v
    case Array(items) =>
      forall i | 0 <= i < |items| ensures JsShaped(items[i]) {
        SafeImage(items[i]);
      }
      SafeItemsImage(items);
    case Map(es) =>
      forall i | 0 <= i < |es| ensures JsShaped(es[i].val) {
        SafeImage(es[i].val);
      }
      SafeMapImage(v, es);
    case _ =>
  }

  lemma {:induction false} SafeItemsImage(items: seq<Value>)
    requires forall i :: 0 <= i < |items| ==> JsSafe(items[i])
    ensures LowerItems(CanonItems(items)) == CanonItems(items)
    decreases items, 0
  {
    if items == [] {
    } else {
      SafeImage(items[0]);
      SafeItemsImage(items[1..]);
    }
  }

  lemma {:induction false} SafeMapImage(v: Value, es: seq<Entry>)
    requires v == Map(es) && JsSafe(v)
    ensures JsImage(v) == Canon(v)
    decreases v, 0
  {
    var s := Sorting.Sort(CanonEntries(es), EntryLe);
    Sorting.SortMembers(CanonEntries(es), EntryLe);
    forall i | 0 <= i < |s| ensures Lower(s[i].val) == s[i].val {
      assert s[i] in s;
      var j := CanonOrigin(es, s[i]);
      SafeImage(es[j].val);
    }
    UnchangedEntries(s);
  }

  lemma {:induction false} UnchangedEntries(es: seq<Entry>)
    requires forall i :: 0 <= i < |es| ==> Lower(es[i].val) == es[i].val
    ensures LowerEntries(es) == es
  {
    if es == [] {
    } else {
      assert LowerEntry(es[0]) == es[0];
      UnchangedEntries(es[1..]);
    }
  }

  lemma {:induction false} SafeReadBack(v: Value, data: bytes, pos: nat)
    requires Profile(v) && JsSafe(v) && At(data, pos, Enc(v))
    ensures JsReadValue(data, pos) == JsDone(Canon(v), pos + |Enc(v)|)
  {
    SafeImage(v);
    JsReadBack(v, data, pos);
  }

  /** What is read here is an error or another value. */
  ghost predicate Lost(data: bytes, pos: nat, v: Value)
  {
    pos <= |data| ==> !(JsReadValue(data, pos).JsDone? && JsReadValue(data, pos).value == v)
  }

  ghost predicate ItemsLost(data: bytes, p: nat, n: nat, acc: seq<Value>, canon: seq<Value>)
  {
    p <= |data| ==> !(JsReadItems(data, p, n, acc).JsDone? && JsReadItems(data, p, n, acc).value == acc + canon)
  }

  ghost predicate EntriesLost(data: bytes, p: nat, n: nat, acc: seq<Entry>, canon: seq<Entry>)
  {
    p <= |data| ==> !(JsReadEntries(data, p, n, acc).JsDone? && JsReadEntries(data, p, n, acc).value == acc + canon)
  }

  /** An unsafe value is never read as itself, wherever the cursor ends. */
  lemma {:induction false} UnsafeIsLost(v: Value, data: bytes, pos: nat)
    requires Profile(v) && !JsSafe(v) && At(data, pos, Enc(v))
    ensures Lost(data, pos, Canon(v))
    decreases v, 1
  {
    match v
    case Int(i) => JsIntBack(i, data, pos);
    case Array(items) => UnsafeArrayIsLost(v, items, data, pos);
    case Map(es) => UnsafeMapIsLost(v, es, data, pos);
    case _ => JsScalarBack(v, data, pos);
  }

  lemma {:induction false} UnsafeArrayIsLost(v: Value, items: seq<Value>, data: bytes, pos: nat)
    requires v == Array(items) && Profile(v) && !JsSafe(v) && At(data, pos, Enc(v))
    ensures Lost(data, pos, Canon(v))
    decreases v, 0, |items|
  {
    UnsafeListIsLost(items, data, pos);
  }

  lemma {:induction false} UnsafeListIsLost(items: seq<Value>, data: bytes, pos: nat)
    requires ProfileItems(items) && |items| <= MAX_ARG && At(data, pos, Head(MT_ARRAY, |items|) + EncItems(items))
    requires SafeArg(|items|) ==> exists i :: 0 <= i < |items| && !JsSafe(items[i])
    ensures Lost(data, pos, Array(CanonItems(items)))
    decreases items, 2
  {
    var head := Head(MT_ARRAY, |items|);
    AtSplit(data, pos, head, EncItems(items));
    JsHeadBack(MT_ARRAY, |items|, data, pos);
    if SafeArg(|items|) {
      UnsafeArrayBodyIsLost(items, data, pos, pos + |head|, CanonItems(items));
    } else {
      ItemCountIsLost(data, pos, CanonItems(items));
    }
  }

  lemma {:induction false} UnsafeArrayBodyIsLost(items: seq<Value>, data: bytes, pos: nat, p: nat, canon: seq<Value>)
    requires ProfileItems(items) && At(data, p, EncItems(items)) && canon == CanonItems(items)
    requires exists i :: 0 <= i < |items| && !JsSafe(items[i])
    requires pos <= |data| && JsReadHead(data, pos).Done? && JsReadHead(data, pos).next == p
    requires JsReadHead(data, pos).value.major == MT_ARRAY && JsReadHead(data, pos).value.arg == |items|
    ensures Lost(data, pos, Array(canon))
    decreases items, 1
  {
    UnsafeItemsAreLost(items, data, p, [], canon);
    assert [] + canon == canon;
  }

  /** A negative count is read as an empty list. */
  lemma {:induction false} ItemCountIsLost(data: bytes, pos: nat, canon: seq<Value>)
    requires pos <= |data| && JsReadHead(data, pos).Done? && canon != []
    requires JsReadHead(data, pos).value.major == MT_ARRAY && JsReadHead(data, pos).value.arg < 0
    ensures Lost(data, pos, Array(canon))
  {
  }

  /** Items read so far stay in front of the result. */
  lemma {:induction false} ItemsExtend(data: bytes, p: nat, n: nat, acc: seq<Value>)
    requires p <= |data| && JsReadItems(data, p, n, acc).JsDone?
    ensures acc <= JsReadItems(data, p, n, acc).value
    decreases n
  {
    if n == 0 {
    } else {
      var r := JsReadValue(data, p);
      ItemsExtend(data, r.next, n - 1, acc + [r.value]);
    }
  }

  lemma {:induction false} UnsafeItemsAreLost(items: seq<Value>, data: bytes, p: nat, acc: seq<Value>,
                                              canon: seq<Value>)
    requires ProfileItems(items) && At(data, p, EncItems(items)) && canon == CanonItems(items)
    requires exists i :: 0 <= i < |items| && !JsSafe(items[i])
    ensures ItemsLost(data, p, |items|, acc, canon)
    decreases items, 0
  {
    ItemsLayout(items, data, p);
    var q, tail := p + |Enc(items[0])|, CanonItems(items[1..]);
    if JsSafe(items[0]) {
      assert exists i :: 0 <= i < |items[1..]| && !JsSafe(items[1..][i]) by {
        var i :| 0 <= i < |items| && !JsSafe(items[i]);
        assert items[1..][i - 1] == items[i];
      }
      SafeReadBack(items[0], data, p);
      JsItemsStep(data, p, |items|, acc, canon[0], q);
      UnsafeItemsAreLost(items[1..], data, q, acc + [canon[0]], tail);
      RegroupItems(acc, canon[0], tail);
    } else {
      UnsafeIsLost(items[0], data, p);
      LostFirstItem(data, p, |items|, acc, canon);
    }
  }

  lemma {:induction false} LostFirstItem(data: bytes, p: nat, n: nat, acc: seq<Value>, canon: seq<Value>)
    requires p <= |data| && n > 0 && canon != []
    requires Lost(data, p, canon[0])
    ensures ItemsLost(data, p, n, acc, canon)
  {
    if JsReadItems(data, p, n, acc).JsDone? {
      var r := JsReadValue(data, p);
      ItemsExtend(data, r.next, n - 1, acc + [r.value]);
      assert (acc + canon)[|acc|] == canon[0] && (acc + [r.value])[|acc|] == r.value;
    }
  }

  lemma {:induction false} UnsafeMapIsLost(v: Value, es: seq<Entry>, data: bytes, pos: nat)
    requires v == Map(es) && Profile(v) && !JsSafe(v) && At(data, pos, Enc(v))
    ensures Lost(data, pos, Canon(v))
    decreases v, 0, |es| + 2
  {
    var s := Sorting.Sort(es, EntryLe);
    MapLayout(es);
    SameMembersProtoFree(es, s);
    if SafeArg(|es|) {
      UnsafeBelowSorted(v, es, s);
    }
    UnsafeSortedMapIsLost(v, s, data, pos);
  }

  lemma {:induction false} UnsafeSortedMapIsLost(root: Value, s: seq<Entry>, data: bytes, pos: nat)
    requires ProfileEntries(s) && |s| <= MAX_ARG && (SafeArg(|s|) ==> Below(root, s) && (HasUnsafe(s) || !ProtoFree(s)))
    requires At(data, pos, Head(MT_MAP, |s|) + Flatten(EncEntries(s)))
    ensures Lost(data, pos, Map(CanonEntries(s)))
    decreases root, 0, |s| + 1
  {
    var head := Head(MT_MAP, |s|);
    AtSplit(data, pos, head, Flatten(EncEntries(s)));
    JsHeadBack(MT_MAP, |s|, data, pos);
    if SafeArg(|s|) {
      UnsafeMapBodyIsLost(root, s, data, pos, pos + |head|, CanonEntries(s));
    } else {
      CountIsLost(data, pos, CanonEntries(s));
    }
  }

  /** A negative count is read as an empty map. */
  lemma {:induction false} CountIsLost(data: bytes, pos: nat, canon: seq<Entry>)
    requires pos <= |data| && JsReadHead(data, pos).Done? && canon != []
    requires JsReadHead(data, pos).value.major == MT_MAP && JsReadHead(data, pos).value.arg < 0
    ensures Lost(data, pos, Map(canon))
  {
  }

  lemma {:induction false} UnsafeBelowSorted(v: Value, es: seq<Entry>, s: seq<Entry>)
    requires v == Map(es) && SafeArg(|es|) && !JsSafe(v) && forall x :: x in s <==> x in es
    ensures Below(v, s)
    ensures ProtoFree(es) ==> HasUnsafe(s)
  {
    forall i | 0 <= i < |s| ensures s[i].val < v && s[i].key < v {
      assert s[i] in es;
      EntryBelow(v, es, s[i]);
    }
    if ProtoFree(es) {
      var i :| 0 <= i < |es| && !SafeEntry(es[i]);
      assert es[i] in s;
    }
  }

  lemma {:induction false} UnsafeMapBodyIsLost(root: Value, s: seq<Entry>, data: bytes, pos: nat, p: nat,
                                               canon: seq<Entry>)
    requires ProfileEntries(s) && At(data, p, Flatten(EncEntries(s))) && canon == CanonEntries(s)
    requires Below(root, s)
    requires HasUnsafe(s) || !ProtoFree(s)
    requires pos <= |data| && JsReadHead(data, pos).Done? && JsReadHead(data, pos).next == p
    requires JsReadHead(data, pos).value.major == MT_MAP && JsReadHead(data, pos).value.arg == |s|
    ensures Lost(data, pos, Map(canon))
    decreases root, 0, |s|, 3
  {
    if HasUnsafe(s) {
      UnsafeEntriesAreLost(root, s, data, p, [], canon);
    } else {
      CanonProtoFree(s);
    }
    OtherMap(data, pos, |s|, p, canon);
  }

  lemma {:induction false} CanonProtoFree(es: seq<Entry>)
    ensures ProtoFree(CanonEntries(es)) <==> ProtoFree(es)
  {
    CanonSameKeys(es);
    SameKeysProtoFree(es, CanonEntries(es));
  }

  lemma {:induction false} SameKeysProtoFree(es: seq<Entry>, fs: seq<Entry>)
    requires SameKeys(es, fs)
    ensures ProtoFree(es) <==> ProtoFree(fs)
  {
    assert AllTexts(es) <==> AllTexts(fs);
    assert forall i :: 0 <= i < |es| ==> (NamesProto(es[i]) <==> NamesProto(fs[i]));
  }

  lemma {:induction false} CanonSameKeys(es: seq<Entry>)
    ensures SameKeys(es, CanonEntries(es))
  {
    if es == [] {
    } else {
      CanonSameKeys(es[1..]);
    }
  }

  /** The map read is not the expected one when its pairs are not, or when they make a `__proto__` property. */
  lemma {:induction false} OtherMap(data: bytes, pos: nat, n: nat, p: nat, canon: seq<Entry>)
    requires pos <= |data| && p <= |data| && JsReadHead(data, pos).Done? && JsReadHead(data, pos).next == p
    requires JsReadHead(data, pos).value.major == MT_MAP && JsReadHead(data, pos).value.arg == n == |canon|
    requires EntriesLost(data, p, n, [], canon) || !ProtoFree(canon)
    ensures Lost(data, pos, Map(canon))
  {
    var j := JsReadEntries(data, p, n, []);
    assert [] + canon == canon;
    if j.JsDone? && ToCborMap(j.value) == Some(canon) {
      EntriesExtend(data, p, n, []);
      FullMap(j.value, canon);
    }
  }

  /** A map with as many entries as pairs has exactly these pairs. */
  lemma {:induction false} FullMap(raw: seq<Entry>, es: seq<Entry>)
    requires ToCborMap(raw) == Some(es) && |es| == |raw|
    ensures es == raw && ProtoFree(raw)
  {
    CollectShrinks(raw);
    if AllTexts(raw) {
      WithoutProtoShrinks(raw);
      CollectShrinks(WithoutProto(raw));
    }
  }

  lemma {:induction false} CollectShrinks(es: seq<Entry>)
    ensures |Collect(es)| <= |es| && (|Collect(es)| == |es| ==> Collect(es) == es)
  {
    if es == [] {
    } else {
      var n := |es| - 1;
      CollectShrinks(es[..n]);
      UpsertGrows(Collect(es[..n]), es[n].key, es[n].val);
      assert es == es[..n] + [es[n]];
    }
  }

  lemma {:induction false} WithoutProtoShrinks(es: seq<Entry>)
    ensures |WithoutProto(es)| <= |es|
    ensures |WithoutProto(es)| == |es| ==> WithoutProto(es) == es && forall i :: 0 <= i < |es| ==> !NamesProto(es[i])
  {
    if es == [] {
    } else {
      WithoutProtoShrinks(es[1..]);
    }
  }

  ghost predicate Below(root: Value, es: seq<Entry>)
  {
    forall i :: 0 <= i < |es| ==> es[i].val < root && es[i].key < root
  }

  predicate HasUnsafe(es: seq<Entry>) { exists i :: 0 <= i < |es| && !SafeEntry(es[i]) }

  predicate SafeEntry(e: Entry) { JsKey(e.key) && JsSafe(e.key) && JsSafe(e.val) }

  /** Reading pairs appends one per entry. */
  lemma {:induction false} EntriesExtend(data: bytes, p: nat, n: nat, acc: seq<Entry>)
    requires p <= |data| && JsReadEntries(data, p, n, acc).JsDone?
    ensures |JsReadEntries(data, p, n, acc).value| == |acc| + n
    ensures acc <= JsReadEntries(data, p, n, acc).value
    decreases n
  {
    if n == 0 {
    } else {
      var k := JsReadValue(data, p);
      var v := JsReadValue(data, k.next);
      EntriesExtend(data, v.next, n - 1, acc + [Entry(k.value, v.value)]);
    }
  }

  lemma {:induction false} UpsertGrows(es: seq<Entry>, k: Value, v: Value)
    ensures |Upsert(es, k, v)| == |es| || Upsert(es, k, v) == es + [Entry(k, v)]
  {
    if es == [] {
    } else {
      UpsertGrows(es[1..], k, v);
      assert es == [es[0]] + es[1..];
    }
  }

  lemma {:induction false} UnsafeEntriesAreLost(root: Value, es: seq<Entry>, data: bytes, p: nat, acc: seq<Entry>,
                                                canon: seq<Entry>)
    requires ProfileEntries(es) && At(data, p, Flatten(EncEntries(es))) && canon == CanonEntries(es)
    requires Below(root, es)
    requires HasUnsafe(es)
    ensures EntriesLost(data, p, |es|, acc, canon)
    decreases root, 0, |es|, 2
  {
    var q, s := LayOut(es, data, p);
    UnsafeEntryOrRest(root, es, data, p, q, s, acc, canon);
  }

  lemma {:induction false} UnsafeEntryOrRest(root: Value, es: seq<Entry>, data: bytes, p: nat, q: nat, s: nat,
                                             acc: seq<Entry>, canon: seq<Entry>)
    requires LaidOut(es, data, p, q, s) && Below(root, es) && HasUnsafe(es)
    requires |canon| == |es| && canon == [CanonEntry(es[0])] + CanonEntries(es[1..])
    ensures EntriesLost(data, p, |es|, acc, canon)
    decreases root, 0, |es|, 1
  {
    if SafeEntry(es[0]) {
      UnsafeRestIsLost(root, es, data, p, q, s, acc, canon);
    } else {
      UnsafeFirstIsLost(root, es[0], |es|, data, p, q, acc, canon);
    }
  }

  lemma {:induction false} UnsafeFirstIsLost(root: Value, e: Entry, n: nat, data: bytes, p: nat, q: nat,
                                             acc: seq<Entry>, canon: seq<Entry>)
    requires n == |canon| > 0 && canon[0] == CanonEntry(e)
    requires IsKey(e.key) && Profile(e.key) && Profile(e.val) && e.val < root && e.key < root && !SafeEntry(e)
    requires At(data, p, Enc(e.key)) && At(data, q, Enc(e.val)) && q == p + |Enc(e.key)|
    ensures EntriesLost(data, p, n, acc, canon)
    decreases root, 0, n, 0, 1
  {
    if JsSafe(e.key) {
      UnsafeValueIsLost(root, e, n, data, p, q);
    } else {
      UnsafeKeyIsLost(root, e, n, data, p);
    }
    LostFirstEntry(data, p, n, acc, canon);
  }

  lemma {:induction false} UnsafeRestIsLost(root: Value, es: seq<Entry>, data: bytes, p: nat, q: nat, s: nat,
                                            acc: seq<Entry>, canon: seq<Entry>)
    requires LaidOut(es, data, p, q, s) && Below(root, es) && SafeEntry(es[0]) && HasUnsafe(es)
    requires canon == [CanonEntry(es[0])] + CanonEntries(es[1..])
    ensures EntriesLost(data, p, |es|, acc, canon)
    decreases root, 0, |es|, 0
  {
    var e, tail := CanonEntry(es[0]), CanonEntries(es[1..]);
    UnsafeInRest(root, es);
    SafeFirstEntryBack(es[0], |es|, data, p, q, s, acc, e.val);
    UnsafeEntriesAreLost(root, es[1..], data, s, acc + [e], tail);
    Regroup(acc, e, tail);
  }

  lemma {:induction false} UnsafeInRest(root: Value, es: seq<Entry>)
    requires es != [] && SafeEntry(es[0]) && HasUnsafe(es) && Below(root, es)
    ensures HasUnsafe(es[1..]) && Below(root, es[1..])
  {
    var i :| 0 <= i < |es| && !SafeEntry(es[i]);
    assert es[1..][i - 1] == es[i];
  }

  lemma {:induction false} SafeFirstEntryBack(e: Entry, n: nat, data: bytes, p: nat, q: nat, s: nat,
                                              acc: seq<Entry>, v: Value)
    requires n > 0 && IsKey(e.key) && Profile(e.key) && Profile(e.val) && SafeEntry(e)
    requires At(data, p, Enc(e.key)) && At(data, q, Enc(e.val))
    requires q == p + |Enc(e.key)| && s == q + |Enc(e.val)| && v == Canon(e.val)
    ensures JsReadEntries(data, p, n, acc) == JsReadEntries(data, s, n - 1, acc + [Entry(e.key, v)])
  {
    SafeKeyBack(e.key, data, p);
    SafeReadBack(e.val, data, q);
    JsEntriesStep(data, p, n, acc, e.key, v, q, s);
  }

  /** The first entry is not read as itself: it fails, or its key or its value is another one. */
  ghost predicate FirstLost(data: bytes, p: nat, e: Entry)
    requires p <= |data|
  {
    var k := JsReadValue(data, p);
    k.JsDone? ==>
      var v := JsReadValue(data, k.next);
      v.JsDone? && JsKey(k.value) ==> Entry(k.value, v.value) != e
  }

  lemma {:induction false} UnsafeKeyIsLost(root: Value, e: Entry, n: nat, data: bytes, p: nat)
    requires IsKey(e.key) && Profile(e.key) && e.key < root && !JsSafe(e.key) && At(data, p, Enc(e.key))
    ensures FirstLost(data, p, CanonEntry(e))
    decreases root, 0, n, 0, 0
  {
    KeyCanon(e.key);
    UnsafeIsLost(e.key, data, p);
    LostKey(data, p, e.key, Canon(e.val));
  }

  lemma {:induction false} LostKey(data: bytes, p: nat, k: Value, v: Value)
    requires p <= |data| && Lost(data, p, k)
    ensures FirstLost(data, p, Entry(k, v))
  {
  }

  lemma {:induction false} LostValue(data: bytes, p: nat, q: nat, k: Value, v: Value)
    requires p <= q <= |data| && JsReadValue(data, p) == JsDone(k, q)
    requires JsKey(k) ==> Lost(data, q, v)
    ensures FirstLost(data, p, Entry(k, v))
  {
  }

  lemma {:induction false} UnsafeValueIsLost(root: Value, e: Entry, n: nat, data: bytes, p: nat, q: nat)
    requires IsKey(e.key) && Profile(e.key) && Profile(e.val) && e.val < root && !SafeEntry(e) && JsSafe(e.key)
    requires At(data, p, Enc(e.key)) && At(data, q, Enc(e.val)) && q == p + |Enc(e.key)|
    ensures FirstLost(data, p, CanonEntry(e))
    decreases root, 0, n, 0, 0
  {
    SafeKeyBack(e.key, data, p);
    if JsKey(e.key) {
      UnsafeIsLost(e.val, data, q);
    }
    LostValue(data, p, q, e.key, Canon(e.val));
  }

  lemma {:induction false} LostFirstEntry(data: bytes, p: nat, n: nat, acc: seq<Entry>, canon: seq<Entry>)
    requires p <= |data| && n > 0 && canon != [] && FirstLost(data, p, canon[0])
    ensures EntriesLost(data, p, n, acc, canon)
  {
    if JsReadEntries(data, p, n, acc).JsDone? {
      var k := JsReadValue(data, p);
      var v := JsReadValue(data, k.next);
      JsEntriesStep(data, p, n, acc, k.value, v.value, k.next, v.next);
      EntriesExtend(data, v.next, n - 1, acc + [Entry(k.value, v.value)]);
      OtherFirstEntry(acc, Entry(k.value, v.value), canon, JsReadEntries(data, p, n, acc).value);
    }
  }

  lemma {:induction false} OtherFirstEntry(acc: seq<Entry>, e: Entry, canon: seq<Entry>, read: seq<Entry>)
    requires acc + [e] <= read && canon != [] && e != canon[0]
    ensures read != acc + canon
  {
    assert (acc + canon)[|acc|] == canon[0] && (acc + [e])[|acc|] == e;
  }

  /**
   * The TypeScript decoder gives an encoded value back if and only if the value is safe: no integer,
   * length or count in 2^31 .. 2^32 - 1, no text that starts with a byte order mark, no map key other
   * than texts and integers, and no key `__proto__` among texts only, at any depth.
   */
  lemma {:induction false} JsRoundTrip(v: Value)
    requires Profile(v)
    ensures JsDecode(Enc(v)) == JsDone(Canon(v), |Enc(v)|) <==> JsSafe(v)
  {
    if JsSafe(v) {
      SafeReadBack(v, Enc(v), 0);
    } else {
      UnsafeIsLost(v, Enc(v), 0);
    }
  }

  /** What comes back for a value of the expected shape: the same tree with its unsafe integers lowered. */
  lemma {:induction false} JsDecodesImage(v: Value)
    requires Profile(v) && JsShaped(v)
    ensures JsDecode(Enc(v)) == JsDone(JsImage(v), |Enc(v)|)
  {
    JsReadBack(v, Enc(v), 0);
  }

  predicate SafeParts(es: seq<Entry>) { forall j :: 0 <= j < |es| ==> JsSafe(es[j].key) && JsSafe(es[j].val) }

  /**
   * An object with a property `__proto__`: when the property is a number, a boolean or a text, the decoder
   * loses exactly this entry, while the other one keeps it (`RoundTrip`).
   */
  lemma {:induction false} ProtoIsDropped(v: Value, es: seq<Entry>, i: nat)
    requires v == Map(es) && Profile(v) && SafeArg(|es|) && AllTexts(es) && i < |es| && NamesProto(es[i])
    requires SafeParts(es)
    ensures JsDecode(Enc(v)) == if Primitive(es[i].val) then JsDone(Map(WithoutProto(Canon(v).entries)), |Enc(v)|)
                                else Outside
  {
    var s := Sorting.Sort(es, EntryLe);
    MapLayout(es);
    ShapedBelowSortedEntries(v, es, s);
    CanonSameKeys(s);
    ProtoObject(es, s, CanonEntries(s), i);
    ObjectBack(v, s, Enc(v), CanonEntries(s));
  }

  lemma {:induction false} ProtoObject(es: seq<Entry>, s: seq<Entry>, canon: seq<Entry>, i: nat)
    requires DistinctKeys(es) && DistinctKeys(s) && i < |es| && NamesProto(es[i]) && AllTexts(es)
    requires (forall x :: x in s <==> x in es) && canon == CanonEntries(s) && SameKeys(s, canon)
    ensures ToCborMap(canon) == if Primitive(es[i].val) then Some(WithoutProto(canon)) else None
  {
    ProtoAmongCanon(es, s, canon, i);
    DroppedCollect(s, canon);
  }

  /** What becomes of the pairs of an encoded map with safe keys and values. */
  lemma {:induction false} ObjectBack(root: Value, s: seq<Entry>, data: bytes, canon: seq<Entry>)
    requires ProfileEntries(s) && |s| <= MAX_ARG && SafeArg(|s|) && ShapedBelow(root, s) && canon == CanonEntries(s)
    requires forall j :: 0 <= j < |s| ==> JsSafe(s[j].val)
    requires data == Head(MT_MAP, |s|) + Flatten(EncEntries(s))
    ensures JsDecode(data) == if ToCborMap(canon).Some? then JsDone(Map(ToCborMap(canon).value), |data|) else Outside
  {
    var head, body := Head(MT_MAP, |s|), Flatten(EncEntries(s));
    SafeEntriesImage(s);
    assert At(data, 0, head + body);
    AtSplit(data, 0, head, body);
    JsHeadBack(MT_MAP, |s|, data, 0);
    JsEntriesBack(root, s, data, |head|, [], canon, |data|);
    assert [] + canon == canon;
    ObjectStep(data, |s|, |head|, canon);
  }

  lemma {:induction false} ObjectStep(data: bytes, n: nat, p: nat, raw: seq<Entry>)
    requires p <= |data| && JsReadHead(data, 0).Done? && JsReadHead(data, 0).next == p
    requires JsReadHead(data, 0).value.major == MT_MAP && JsReadHead(data, 0).value.arg == n
    requires JsReadEntries(data, p, n, []) == JsDone(raw, |data|)
    ensures JsDecode(data) == if ToCborMap(raw).Some? then JsDone(Map(ToCborMap(raw).value), |data|) else Outside
  {
  }

  lemma {:induction false} ShapedBelowSortedEntries(v: Value, es: seq<Entry>, s: seq<Entry>)
    requires v == Map(es) && AllTexts(es) && SafeParts(es) && forall x :: x in s <==> x in es
    ensures ShapedBelow(v, s) && forall j :: 0 <= j < |s| ==> JsSafe(s[j].val)
  {
    forall j | 0 <= j < |s| ensures s[j].val < v && s[j].key < v && JsKey(s[j].key) && JsSafe(s[j].key)
      && JsSafe(s[j].val) && JsShaped(s[j].val)
    {
      assert s[j] in es;
      EntryBelow(v, es, s[j]);
      SafeImage(s[j].val);
    }
  }

  lemma {:induction false} SafeEntriesImage(es: seq<Entry>)
    requires forall i :: 0 <= i < |es| ==> JsSafe(es[i].val)
    ensures LowerEntries(CanonEntries(es)) == CanonEntries(es)
  {
    if es == [] {
    } else {
      SafeImage(es[0].val);
      SafeEntriesImage(es[1..]);
      assert CanonEntries(es)[1..] == CanonEntries(es[1..]);
    }
  }

  /** The one entry with this name keeps its kind of value. */
  lemma {:induction false} ProtoAmongCanon(es: seq<Entry>, s: seq<Entry>, canon: seq<Entry>, i: nat)
    requires DistinctKeys(es) && i < |es| && NamesProto(es[i]) && AllTexts(es)
    requires (forall x :: x in s <==> x in es) && canon == CanonEntries(s) && SameKeys(s, canon)
    ensures AllTexts(canon)
    ensures Primitive(es[i].val) <==> forall j :: 0 <= j < |canon| && NamesProto(canon[j]) ==> Primitive(canon[j].val)
  {
    forall j | 0 <= j < |canon| ensures canon[j].key.Tstr? {
      assert s[j] in es;
    }
    forall j | 0 <= j < |canon| && NamesProto(canon[j]) ensures Primitive(canon[j].val) <==> Primitive(es[i].val) {
      assert s[j] in es;
      CanonEntryAt(s, j);
    }
    assert es[i] in s;
    var j :| 0 <= j < |s| && s[j] == es[i];
    assert NamesProto(canon[j]);
  }

  lemma {:induction false} CanonEntryAt(es: seq<Entry>, j: nat)
    requires j < |es|
    ensures CanonEntries(es)[j] == CanonEntry(es[j])
    ensures Primitive(Canon(es[j].val)) <==> Primitive(es[j].val)
  {
    if j == 0 {
    } else {
      CanonEntryAt(es[1..], j - 1);
    }
  }

  lemma {:induction false} DroppedCollect(es: seq<Entry>, canon: seq<Entry>)
    requires DistinctKeys(es) && SameKeys(es, canon)
    ensures Collect(WithoutProto(canon)) == WithoutProto(canon)
  {
    DroppedDistinct(canon);
    DistinctCollect(WithoutProto(canon));
  }

  lemma {:induction false} DroppedDistinct(es: seq<Entry>)
    requires DistinctKeys(es)
    ensures DistinctKeys(WithoutProto(es)) && forall e :: e in WithoutProto(es) ==> e in es
  {
    if es == [] {
    } else {
      var rest, r := WithoutProto(es[1..]), WithoutProto(es);
      DroppedDistinct(es[1..]);
      forall i, j | 0 <= i < j < |r| ensures KeyClass(r[i].key) != KeyClass(r[j].key) {
        if r != rest {
          assert r == [es[0]] + rest && r[j] == rest[j - 1] && rest[j - 1] in es[1..];
        }
      }
    }
  }

  /** The smallest such input: one decoder returns an empty object, the other one the entry. */
  lemma {:induction false} ProtoAlone(x: Value)
    requires Profile(x) && JsSafe(x) && Primitive(x)
    ensures var v := Map([Entry(Tstr(PROTO_NAME), x)]);
      && Profile(v) && JsDecode(Enc(v)) == JsDone(Map([]), |Enc(v)|)
      && CborDecode(Enc(v)) == Ok(v)
  {
    ShortName(PROTO_NAME);
    NamedAlone(PROTO_NAME, x, Map([Entry(Tstr(PROTO_NAME), x)]));
  }

  lemma {:induction false} NamedAlone(name: string, x: Value, v: Value)
    requires name == PROTO_NAME && JsSafe(Tstr(name)) && Encodable(Tstr(name))
    requires Profile(x) && JsSafe(x) && Primitive(x) && v == Map([Entry(Tstr(name), x)])
    ensures Profile(v) && JsDecode(Enc(v)) == JsDone(Map([]), |Enc(v)|) && CborDecode(Enc(v)) == Ok(v)
  {
    AloneIsProfile(name, x);
    AloneIsCanonical(name, x);
    AloneIsSafe([Entry(Tstr(name), x)], Entry(Tstr(name), x));
    AloneIsDropped(v, [Entry(Tstr(name), x)], Entry(Tstr(name), x));
    RoundTrip(v);
  }

  lemma {:induction false} AloneIsProfile(name: string, x: Value)
    requires Encodable(Tstr(name)) && Profile(x)
    ensures Profile(Map([Entry(Tstr(name), x)]))
  {
  }

  lemma {:induction false} AloneIsSafe(es: seq<Entry>, e: Entry)
    requires es == [e] && JsSafe(e.key) && JsSafe(e.val) && e.key.Tstr?
    ensures SafeParts(es) && AllTexts(es)
  {
  }

  lemma {:induction false} AloneIsDropped(v: Value, es: seq<Entry>, e: Entry)
    requires v == Map(es) && es == [e] && Profile(v) && Canon(v) == v && NamesProto(e)
    requires SafeParts(es) && AllTexts(es) && Primitive(e.val)
    ensures JsDecode(Enc(v)) == JsDone(Map([]), |Enc(v)|)
  {
    DropsOnly(e);
    ProtoIsDropped(v, es, 0);
  }

  lemma {:induction false} ShortName(t: string)
    requires 0 < |t| <= 32 && t[0] < BYTE_ORDER_MARK
    ensures JsSafe(Tstr(t)) && Encodable(Tstr(t))
  {
  }

  lemma {:induction false} AloneIsCanonical(name: string, x: Value)
    requires Profile(x) && Primitive(x)
    ensures Canon(Map([Entry(Tstr(name), x)])) == Map([Entry(Tstr(name), x)])
  {
    var es := [Entry(Tstr(name), x)];
    assert CanonEntries(es) == [CanonEntry(es[0])] + CanonEntries(es[1..]);
    assert CanonEntries(es) == es;
    assert Sorting.Sort(es, EntryLe) == es;
  }

  lemma {:induction false} DropsOnly(e: Entry)
    requires NamesProto(e)
    ensures WithoutProto([e]) == []
  {
    assert [e][1..] == [];
  }

  /** An integer survives exactly when it is safe: a time stamp between 2038 and 2106 comes back negative. */
  lemma {:induction false} LoweredMeaning(i: int)
    ensures Lowered(i) == i <==> SafeInt(i)
    ensures !SafeInt(i) ==> (i >= 0 <==> Lowered(i) < 0)
    ensures -0x1_0000_0000 <= i <= 0xFFFF_FFFF ==> -0x8000_0000 <= Lowered(i) < 0x8000_0000
    ensures !SafeInt(i) ==> -0x8000_0000 <= Lowered(i) < 0x8000_0000
  {
  }

  /** `cborDecode` as its callers see it; an outcome that is not modelled counts as a failure. */
  function JsCbor(data: bytes): Result<Value>
  {
    match JsDecode(data)
    case JsDone(v, _) => Ok(v)
    case JsFail(e) => Err(e)
    case Outside => Err(OutsideModel)
  }

  lemma {:induction false} JsCborIff(v: Value)
    requires Profile(v)
    ensures JsCbor(Enc(v)) == Ok(Canon(v)) <==> JsSafe(v)
    ensures JsShaped(v) ==> JsCbor(Enc(v)) == Ok(JsImage(v))
  {
    JsRoundTrip(v);
    if JsShaped(v) {
      JsDecodesImage(v);
    }
    if !JsSafe(v) {
      UnsafeIsLost(v, Enc(v), 0);
    }
  }
}
