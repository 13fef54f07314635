/** The value codec of g_sorcery/serialization.py: converting values that may hold objects
    into the plain trees json can write, and back. */
module Serialization {
  import opened Wrappers
  import opened Values

  /** A class's deserialize classmethod. */
  type Deserializer = Value -> Result<Value>

  /** The classes decoding can reach: module name -> class name -> deserialize. It replaces
      importlib.import_module followed by getattr. */
  type Registry = map<string, map<string, Deserializer>>

  const ModuleKey := "python_module"
  const ClassKey := "python_class"
  const ValueKey := "value"

  predicate Registered(reg: Registry, t: Tag)
  {
    t.pyModule in reg && t.pyClass in reg[t.pyModule]
  }

  /** The tagged envelope written for an object that has both hooks. */
  function Envelope(t: Tag, payload: Value): Value
  {
    Map(map[ModuleKey := Str(t.pyModule), ClassKey := Str(t.pyClass), ValueKey := payload])
  }

  predicate IsScalar(v: Value)
  {
    v.Null? || v.Bool? || v.Int? || v.Float? || v.Str?
  }

  /** What json can write: scalars, lists and string-keyed dicts. */
  predicate IsRaw(v: Value)
  {
    match v
    case List(items) => forall i :: 0 <= i < |items| ==> IsRaw(items[i])
    case Map(m) => forall k :: k in m ==> IsRaw(m[k])
    case Tuple(_) => false
    case Obj(_, _, _) => false
    case _ => true
  }

  /** A raw tree none of whose dicts carries the class key, so decoding leaves it alone. */
  predicate Untagged(v: Value)
  {
    match v
    case List(items) => forall i :: 0 <= i < |items| ==> Untagged(items[i])
    case Map(m) => ClassKey !in m && forall k :: k in m ==> Untagged(m[k])
    case Tuple(_) => false
    case Obj(_, _, _) => false
    case _ => true
  }

  /** step_to_raw_serializable (and JSONSerializer.default before its fallback):
      the envelope for an object with both hooks, the bare serialize() result for a
      serialize-only object, None otherwise. */
  function StepEncode(v: Value): Option<Value>
  {
    match v
    case Obj(t, _, Serializable(out)) => Some(Envelope(t, out))
    case Obj(_, _, SerializeOnly(out)) => Some(out)
    case _ => None
  }

  /** to_raw_serializable. Every failure is the TypeError of a non-serializable object. */
  function Encode(v: Value): (r: Result<Value>)
    ensures r.Ok? ==> IsRaw(r.value)
    ensures r.Err? ==> r.error == TypeError
    decreases v, 1
  {
    match v
    case List(items) => EncodeList(items)
    case Tuple(elems) => EncodeList(elems)
    case Map(m) =>
      if exists k :: k in m && Encode(m[k]).Err? then Err(TypeError)
      else Ok(Map(EncodeFields(m)))
    case Obj(t, _, hooks) =>
      (match hooks
       case Serializable(out) =>
         (match Encode(out)
          case Ok(e) => Ok(Envelope(t, e))
          case Err(er) => Err(er))
       case SerializeOnly(out) => if Truthy(out) then Encode(out) else Err(TypeError)
       case NoHooks => Err(TypeError))
    case _ => Ok(v)
  }

  /** The dict comprehension of to_raw_serializable. */
  function EncodeFields(m: Props): (r: Props)
    requires forall k :: k in m ==> Encode(m[k]).Ok?
    ensures r.Keys == m.Keys && forall k :: k in m ==> Encode(m[k]) == Ok(r[k])
    ensures forall k :: k in r ==> IsRaw(r[k])
    decreases Map(m), 0
  {
    map k | k in m :: Encode(m[k]).value
  }

  /** Lists and tuples alike become a list of the encoded items. */
  function EncodeList(items: seq<Value>): (r: Result<Value>)
    ensures r.Ok? ==> IsRaw(r.value) && r.value.List?
    ensures r.Err? ==> r.error == TypeError
    decreases items, 1
  {
    match EncodeItems(items)
    case Ok(es) => Ok(List(es))
    case Err(e) => Err(e)
  }

  /** The list comprehension of to_raw_serializable, item by item. */
  function EncodeItems(items: seq<Value>): (r: Result<seq<Value>>)
    ensures r.Ok? ==> |r.value| == |items| && forall i :: 0 <= i < |r.value| ==> IsRaw(r.value[i])
    ensures r.Err? ==> r.error == TypeError
    decreases items, 0
  {
    if |items| == 0 then Ok([])
    else
      match Encode(items[0])
      case Err(e) => Err(e)
      case Ok(d) =>
        (match EncodeItems(items[1..])
         case Ok(ds) => Ok([d] + ds)
         case Err(e) => Err(e))
  }

  /** step_from_raw_serializable, which is also the json object_hook deserializeHook:
      a dict with the class key is handed to the registered class's deserialize. */
  function StepDecode(reg: Registry, res: Props): Result<Value>
  {
    if ClassKey !in res then Ok(Map(res))
    else if ModuleKey !in res then Err(KeyError)
    else if !res[ModuleKey].Str? then Err(AttributeError)
    else if res[ModuleKey].s !in reg then Err(ImportError)
    else if !res[ClassKey].Str? then Err(TypeError)
    else if res[ClassKey].s !in reg[res[ModuleKey].s] then Err(AttributeError)
    else if ValueKey !in res then Err(KeyError)
    else reg[res[ModuleKey].s][res[ClassKey].s](res[ValueKey])
  }

  /** from_raw_serializable: bottom-up, children first. A list fails with its first
      failing item's error; when several entries of a dict fail the model reports one of
      their errors (PickError), since dict order is not modelled. */
  function Decode(reg: Registry, v: Value): Result<Value>
    decreases v, 1
  {
    match v
    case List(items) =>
      (match DecodeItems(reg, items)
       case Ok(ds) => Ok(List(ds))
       case Err(e) => Err(e))
    case Map(m) =>
      var errs := FieldErrors(reg, m);
      if errs != {} then Err(PickError(errs)) else StepDecode(reg, DecodeFields(reg, m))
    case _ => Ok(v)
  }

  /** The errors of the dict entries that fail to decode. */
  function FieldErrors(reg: Registry, m: Props): (r: set<Error>)
    ensures r == {} <==> forall k :: k in m ==> Decode(reg, m[k]).Ok?
    decreases Map(m), 0
  {
    var errs := set k | k in m && Decode(reg, m[k]).Err? :: Decode(reg, m[k]).error;
    assert forall k :: k in m && Decode(reg, m[k]).Err? ==> Decode(reg, m[k]).error in errs;
    errs
  }

  /** The dict comprehension of from_raw_serializable. */
  function DecodeFields(reg: Registry, m: Props): (r: Props)
    requires forall k :: k in m ==> Decode(reg, m[k]).Ok?
    ensures r.Keys == m.Keys && forall k :: k in m ==> Decode(reg, m[k]) == Ok(r[k])
    decreases Map(m), 0
  {
    map k | k in m :: Decode(reg, m[k]).value
  }

  /** The list comprehension of from_raw_serializable, item by item. */
  function DecodeItems(reg: Registry, items: seq<Value>): (r: Result<seq<Value>>)
    ensures r.Ok? ==> |r.value| == |items|
    decreases items, 0
  {
    if |items| == 0 then Ok([])
    else
      match Decode(reg, items[0])
      case Err(e) => Err(e)
      case Ok(d) =>
        (match DecodeItems(reg, items[1..])
         case Ok(ds) => Ok([d] + ds)
         case Err(e) => Err(e))
  }

  /** The values that survive an encode/decode round trip: no tuples, no plain dict with
      the class key, and only objects with both hooks whose class is registered and whose
      deserialize rebuilds the object from its serialize() result. */
  predicate RoundTrips(reg: Registry, v: Value)
  {
    match v
    case List(items) => forall i :: 0 <= i < |items| ==> RoundTrips(reg, items[i])
    case Map(m) => ClassKey !in m && forall k :: k in m ==> RoundTrips(reg, m[k])
    case Tuple(_) => false
    case Obj(t, _, hooks) =>
      hooks.Serializable? && Registered(reg, t)
      && reg[t.pyModule][t.pyClass](hooks.out) == Ok(v)
      && RoundTrips(reg, hooks.out)
    case _ => true
  }

  lemma ScalarsEncodeToThemselves(v: Value)
    requires IsScalar(v)
    ensures Encode(v) == Ok(v)
  {
  }

  lemma TuplesEncodeAsLists(elems: seq<Value>)
    ensures Encode(Tuple(elems)) == Encode(List(elems))
    ensures Encode(Tuple(elems)).Ok? ==> Encode(Tuple(elems)).value.List?
  {
  }

  /** An object with both hooks becomes the envelope around its encoded serialize() result. */
  lemma EnvelopeShape(t: Tag, fields: Props, out: Value)
    requires Encode(out).Ok?
    ensures Encode(Obj(t, fields, Serializable(out))) == Ok(Envelope(t, Encode(out).value))
    ensures Encode(Obj(t, fields, Serializable(out))).value.m.Keys == {ModuleKey, ClassKey, ValueKey}
  {
  }

  /** Objects the encoder refuses. */
  lemma EncodeRejects(t: Tag, fields: Props, out: Value)
    ensures Encode(Obj(t, fields, NoHooks)) == Err(TypeError)
    ensures !Truthy(out) ==> Encode(Obj(t, fields, SerializeOnly(out))) == Err(TypeError)
  {
  }

  /** Encoding an envelope encodes its payload and keeps the two tag strings. */
  lemma EncodeEnvelope(t: Tag, payload: Value)
    ensures Encode(payload).Ok? ==> Encode(Envelope(t, payload)) == Ok(Envelope(t, Encode(payload).value))
    ensures Encode(payload).Err? ==> Encode(Envelope(t, payload)) == Err(TypeError)
  {
    if Encode(payload).Ok? {
      EnvelopeFieldsEncode(t, payload);
    } else {
      var m := Envelope(t, payload).m;
      assert ValueKey in m && Encode(m[ValueKey]).Err?;
    }
  }

  lemma EnvelopeFieldsEncode(t: Tag, payload: Value)
    requires Encode(payload).Ok?
    ensures forall k :: k in Envelope(t, payload).m ==> Encode(Envelope(t, payload).m[k]).Ok?
    ensures EncodeFields(Envelope(t, payload).m) == Envelope(t, Encode(payload).value).m
  {
    var m := Envelope(t, payload).m;
    assert m.Keys == {ModuleKey, ClassKey, ValueKey};
    assert Encode(m[ModuleKey]) == Ok(Str(t.pyModule));
    assert Encode(m[ClassKey]) == Ok(Str(t.pyClass));
    assert Encode(m[ValueKey]) == Encode(payload);
  }

  /** Encoding an object is encoding the result of one step, as to_raw_serializable does:
      a missing step result or a false one is a TypeError. */
  lemma EncodeObjFollowsStep(v: Value)
    requires v.Obj?
    ensures StepEncode(v).None? ==> Encode(v) == Err(TypeError)
    ensures StepEncode(v).Some? && !Truthy(StepEncode(v).value) ==> Encode(v) == Err(TypeError)
    ensures StepEncode(v).Some? && Truthy(StepEncode(v).value) ==> Encode(v) == Encode(StepEncode(v).value)
  {
    if v.hooks.Serializable? {
      EncodeEnvelope(v.tag, v.hooks.out);
    }
  }

  /** Decoding leaves an untagged raw tree unchanged: plain dicts come back as dicts. */
  lemma {:induction false} DecodeUntagged(reg: Registry, v: Value)
    requires Untagged(v)
    ensures Decode(reg, v) == Ok(v)
    decreases v
  {
    match v
    case List(items) =>
      DecodeItemsUntagged(reg, items);
    case Map(m) =>
      forall k | k in m ensures Decode(reg, m[k]) == Ok(m[k]) {
        DecodeUntagged(reg, m[k]);
      }
      assert DecodeFields(reg, m) == m;
    case _ =>
  }

  lemma {:induction false} DecodeItemsUntagged(reg: Registry, items: seq<Value>)
    requires forall i :: 0 <= i < |items| ==> Untagged(items[i])
    ensures DecodeItems(reg, items) == Ok(items)
    decreases items, 0
  {
    if |items| > 0 {
      DecodeUntagged(reg, items[0]);
      DecodeItemsUntagged(reg, items[1..]);
      assert [items[0]] + items[1..] == items;
    }
  }

  /** The decoded form of an envelope's three entries. */
  lemma DecodeEnvelopeEntries(reg: Registry, t: Tag, payload: Value)
    requires Decode(reg, payload).Ok?
    ensures forall k :: k in Envelope(t, payload).m ==> Decode(reg, Envelope(t, payload).m[k]).Ok?
    ensures DecodeFields(reg, Envelope(t, payload).m) == Envelope(t, Decode(reg, payload).value).m
  {
    assert Decode(reg, Str(t.pyModule)) == Ok(Str(t.pyModule));
    assert Decode(reg, Str(t.pyClass)) == Ok(Str(t.pyClass));
  }

  /** Decoding an envelope decodes its payload first and hands the result to the
      registered deserialize; an unknown module or class is refused. */
  lemma DecodeEnvelope(reg: Registry, t: Tag, payload: Value)
    requires Decode(reg, payload).Ok?
    ensures Decode(reg, Envelope(t, payload)) == StepDecode(reg, Envelope(t, Decode(reg, payload).value).m)
    ensures Registered(reg, t) ==>
      Decode(reg, Envelope(t, payload)) == reg[t.pyModule][t.pyClass](Decode(reg, payload).value)
    ensures t.pyModule !in reg ==> Decode(reg, Envelope(t, payload)) == Err(ImportError)
    ensures t.pyModule in reg && t.pyClass !in reg[t.pyModule] ==>
      Decode(reg, Envelope(t, payload)) == Err(AttributeError)
  {
    DecodeEnvelopeEntries(reg, t, payload);
  }

  /** A tagged dict that is not a well-formed envelope: a missing module or value key is
      a KeyError, importing a module name that is not a string an AttributeError, and
      looking up a class name that is not a string a TypeError. */
  lemma StepDecodeMalformed(reg: Registry, res: Props)
    requires ClassKey in res
    ensures ModuleKey !in res ==> StepDecode(reg, res) == Err(KeyError)
    ensures ModuleKey in res && !res[ModuleKey].Str? ==> StepDecode(reg, res) == Err(AttributeError)
    ensures ModuleKey in res && res[ModuleKey].Str? && res[ModuleKey].s in reg && !res[ClassKey].Str? ==>
      StepDecode(reg, res) == Err(TypeError)
    ensures (ModuleKey in res && res[ModuleKey].Str? && res[ModuleKey].s in reg && res[ClassKey].Str? &&
             res[ClassKey].s in reg[res[ModuleKey].s] && ValueKey !in res) ==>
      StepDecode(reg, res) == Err(KeyError)
  {
  }

  /** decode(encode(x)) == x for every value the round-trip predicate admits. */
  lemma {:induction false} RoundTrip(reg: Registry, v: Value)
    requires RoundTrips(reg, v)
    ensures Encode(v).Ok?
    ensures Decode(reg, Encode(v).value) == Ok(v)
    decreases v
  {
    match v
    case List(items) =>
      RoundTripItems(reg, items);
    case Map(m) =>
      forall k | k in m ensures Encode(m[k]).Ok? && Decode(reg, Encode(m[k]).value) == Ok(m[k]) {
        RoundTrip(reg, m[k]);
      }
      var enc := EncodeFields(m);
      assert Encode(v) == Ok(Map(enc));
      assert forall k :: k in enc ==> Decode(reg, enc[k]) == Ok(m[k]);
      assert DecodeFields(reg, enc) == m;
    case Obj(t, fields, hooks) =>
      RoundTrip(reg, hooks.out);
      DecodeEnvelope(reg, t, Encode(hooks.out).value);
    case _ =>
  }

  lemma {:induction false} RoundTripItems(reg: Registry, items: seq<Value>)
    requires forall i :: 0 <= i < |items| ==> RoundTrips(reg, items[i])
    ensures EncodeItems(items).Ok?
    ensures DecodeItems(reg, EncodeItems(items).value) == Ok(items)
    decreases items, 0
  {
    if |items| > 0 {
      RoundTrip(reg, items[0]);
      RoundTripItems(reg, items[1..]);
      var es := EncodeItems(items).value;
      assert es[1..] == EncodeItems(items[1..]).value;
      assert [items[0]] + items[1..] == items;
    }
  }

  /** A serialize-only object is written as its serialize() result and read back as that
      plain value, not as the object. */
  lemma SerializeOnlyReadsBackPlain(reg: Registry, t: Tag, fields: Props, out: Value)
    requires Truthy(out) && RoundTrips(reg, out)
    ensures Encode(Obj(t, fields, SerializeOnly(out))).Ok?
    ensures Decode(reg, Encode(Obj(t, fields, SerializeOnly(out))).value) == Ok(out)
  {
    RoundTrip(reg, out);
  }
}
