/** Field schemas, value binding, and the contract of the field engines. */
module Fields {
  import opened Bytes
  import opened Cbor
  import opened CborDecoder
  import St = Statements
  import SO = SignedObjects

  const FIELD_TYPES: seq<string> := [
    "text", "textarea", "select", "selectv2", "number", "date", "datetime", "datetimeEpoch", "location", "secretInput",
    "attachment"]

  const BINDING_FIELD_TYPES: seq<string> := ["secretInput", "text", "select", "number", "date"]

  /** A schema entry of a TCert. `raw` is the whole entry, which the engines read their rules from. */
  datatype FieldSchema = FieldSchema(
    ftype: string,
    name: string,
    caption: string,
    required: bool,
    binding: Option<Value>,
    default: Option<Value>,
    raw: Value)

  function TextOr(v: Option<Value>): string { if v.Some? && v.value.Tstr? then v.value.s else "" }

  function FieldOf(v: Value): FieldSchema
  {
    var es := if v.Map? then v.entries else [];
    var rules := St.Get(es, "inputRules");
    FieldSchema(
      TextOr(St.Get(es, "type")), TextOr(St.Get(es, "name")), TextOr(St.Get(es, "label")),
      rules.Some? && rules.value.Map? && St.Get(rules.value.entries, "required") == Some(Bool(true)),
      St.Get(es, "binding"), St.Get(es, "default"), v)
  }

  function FieldsOf(items: seq<Value>): (r: seq<FieldSchema>)
    ensures |r| == |items|
  {
    if items == [] then [] else [FieldOf(items[0])] + FieldsOf(items[1..])
  }

  /** The document schema of a TCert; a missing or empty one is `None`. */
  function SchemaOf(tcert: SO.SignedObject): Option<seq<FieldSchema>>
  {
    match St.Get(tcert.data, "schema")
    case None => None
    case Some(v) => if v.Array? && v.items != [] then Some(FieldsOf(v.items)) else None
  }

  /* ----------------------------------- binding ---------------------------------- */

  predicate IsBound(f: FieldSchema)
  {
    f.ftype in BINDING_FIELD_TYPES && (f.ftype == "secretInput" || f.binding.Some?)
  }

  function EffectiveBinding(f: FieldSchema): Value
  {
    if f.binding.Some? then f.binding.value else Tstr(if f.ftype == "secretInput" then "stripped" else "inline")
  }

  /** Signed but not stored. */
  predicate IsStripped(f: FieldSchema) { IsBound(f) && EffectiveBinding(f) == Tstr("stripped") }

  /** Stored, and compared with what the verifier enters. */
  predicate IsInline(f: FieldSchema) { IsBound(f) && EffectiveBinding(f) == Tstr("inline") }

  /** No field is bound in both ways, and a secret input without a declared binding is never stored. */
  lemma {:induction false} BindingsExclude(f: FieldSchema)
    ensures !(IsStripped(f) && IsInline(f))
    ensures f.ftype == "secretInput" && f.binding.None? ==> IsStripped(f)
    ensures f.binding.None? ==> !IsInline(f)
  {
    var inline, stripped := "inline", "stripped";
    assert |inline| == 6 && |stripped| == 8;
    assert f.ftype == "secretInput" ==> f.ftype in BINDING_FIELD_TYPES by {
      assert BINDING_FIELD_TYPES[0] == "secretInput";
    }
  }

  /** Which fields are stripped, and which are bound inline, by their type and declared binding. */
  lemma {:induction false} BindingMeaning(f: FieldSchema)
    ensures IsStripped(f)
      <==> || (f.ftype == "secretInput" && f.binding in {None, Some(Tstr("stripped"))})
           || (f.ftype in {"text", "select", "number", "date"} && f.binding == Some(Tstr("stripped")))
    ensures IsInline(f)
      <==> f.ftype in {"secretInput", "text", "select", "number", "date"} && f.binding == Some(Tstr("inline"))
  {
    BindingTypes(f.ftype);
    var inline, stripped := "inline", "stripped";
    assert |inline| == 6 && |stripped| == 8;
  }

  lemma {:induction false} BindingTypes(t: string)
    ensures t in BINDING_FIELD_TYPES <==> t in {"secretInput", "text", "select", "number", "date"}
  {
    var a, b, c, d, e := "secretInput", "text", "select", "number", "date";
    assert BINDING_FIELD_TYPES == [a, b, c, d, e];
  }

  /** What a schema entry says, property by property; a missing or ill-typed text reads as empty. */
  lemma {:induction false} EntryMeaning(es: seq<Entry>)
    ensures var f := FieldOf(Map(es));
      && (forall x :: St.Get(es, "type") == Some(Tstr(x)) ==> f.ftype == x)
      && (forall x :: St.Get(es, "name") == Some(Tstr(x)) ==> f.name == x)
      && (forall x :: St.Get(es, "label") == Some(Tstr(x)) ==> f.caption == x)
      && (f.required <==> exists rules ::
            St.Get(es, "inputRules") == Some(Map(rules)) && St.Get(rules, "required") == Some(Bool(true)))
      && f.binding == St.Get(es, "binding") && f.default == St.Get(es, "default") && f.raw == Map(es)
  {
    var rules := St.Get(es, "inputRules");
    if rules.Some? && rules.value.Map? {
      assert rules == Some(Map(rules.value.entries));
    }
  }

  /** The schema of a TCert is the non-empty list under `schema`, entry by entry. */
  lemma {:induction false} SchemaMeaning(t: SO.SignedObject)
    ensures SchemaOf(t).Some? <==> exists items :: St.Get(t.data, "schema") == Some(Array(items)) && items != []
    ensures forall items :: St.Get(t.data, "schema") == Some(Array(items)) && items != [] ==>
      |SchemaOf(t).value| == |items| && forall i :: 0 <= i < |items| ==> SchemaOf(t).value[i] == FieldOf(items[i])
  {
    var v := St.Get(t.data, "schema");
    if v.Some? && v.value.Array? {
      FieldsAt(v.value.items);
      assert v == Some(Array(v.value.items));
    }
  }

  lemma {:induction false} FieldsAt(items: seq<Value>)
    ensures forall i :: 0 <= i < |items| ==> FieldsOf(items)[i] == FieldOf(items[i])
  {
    if items == [] {
    } else {
      FieldsAt(items[1..]);
    }
  }

  /* ----------------------------------- engines ---------------------------------- */

  datatype FieldState =
    | FieldValid | FieldInvalid | FieldCannotVerify | MissingContext | ContextDenied
    | NotSupported | FieldMalformed | Unavailable

  /** What engines can ask the verifier's device for; `None` is an answer of null. */
  datatype Context = Context(now: int, location: Option<(int, int)>)

  /** The engine of one field type. `None` is a thrown error. */
  datatype Engine = Engine(
    validateInput: (FieldSchema, Value) -> bool,
    encode: (FieldSchema, Value) -> Option<Value>,
    decode: (FieldSchema, Value) -> Option<string>,
    validateField: (FieldSchema, Value, Context) -> Option<FieldState>)

  /**
   * The engine registry and the platform's text functions. `inherited` is what a record of values
   * answers for a name it does not have itself: nothing, but for the names every object has.
   */
  datatype FieldEnv = FieldEnv(
    engine: string -> Option<Engine>,
    inherited: string -> Option<Value>,
    text: Value -> string,
    trim: string -> string,
    nowText: (string, int) -> string)

  /**
   * The location engine asks for the position first; `within` is its distance test, `None` an
   * unreadable stored position.
   */
  function LocationVerdict(ctx: Context, within: ((int, int)) -> Option<bool>): Option<FieldState>
  {
    match ctx.location
    case None => Some(FieldCannotVerify)
    case Some(here) => match within(here) case None => None case Some(ok) =>
      Some(if ok then FieldValid else FieldInvalid)
  }

  /** `resolveFieldDefault`: `{ kind: 'now' }` stands for the current time. */
  function DefaultValue(fe: FieldEnv, f: FieldSchema, def: Value, now: int): Value
  {
    if def.Map? && St.Get(def.entries, "kind") == Some(Tstr("now")) then Tstr(fe.nowText(f.ftype, now)) else def
  }

  /* ----------------------------------- secrets ---------------------------------- */

  /** `record[name] = text` on a plain object, which makes no property for the name of the prototype. */
  function SetProperty(record: seq<Entry>, name: string, text: string): seq<Entry>
  {
    if name == PROTO_NAME then record else Upsert(record, Tstr(name), Tstr(text))
  }

  /** The values of the first `n` fields that are signed but not stored, by field name. */
  function SecretMap(schema: seq<FieldSchema>, text: nat -> Option<string>, n: nat): seq<Entry>
    requires n <= |schema|
  {
    if n == 0 then []
    else
      var before := SecretMap(schema, text, n - 1);
      if IsStripped(schema[n - 1]) && text(n - 1).Some?
      then SetProperty(before, schema[n - 1].name, text(n - 1).value)
      else before
  }

  /** The COSE external AAD of a set of secrets: empty without secrets. */
  function Aad(secrets: seq<Entry>): Result<bytes>
  {
    if secrets == [] then Ok([]) else CborEncode(Map(secrets))
  }
}
