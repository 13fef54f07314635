/** The dynamically typed values that flow through g-sorcery: record properties, configs,
    the parsed JSON trees of its files, and the objects stored in them. */
module Values {
  import opened Wrappers
  import opened Strings

  /** A Python class named by its module and class name, the pair the codec's envelope
      records and decoding looks up. */
  datatype Tag = Tag(pyModule: string, pyClass: string)

  /** What the class of an object offers to the codec. */
  datatype Hooks =
    | NoHooks                   // no serialize method
    | SerializeOnly(out: Value) // serialize() returns out; no deserialize classmethod
    | Serializable(out: Value)  // serialize() returns out; deserialize exists

  /** A Python value. Dict keys are strings, as in every JSON-backed map of the system.
      An object carries its class, its instance attributes and its serialization hooks. */
  datatype Value =
    | Null
    | Bool(b: bool)
    | Int(i: int)
    | Float(r: real)
    | Str(s: string)
    | List(items: seq<Value>)
    | Tuple(elems: seq<Value>)
    | Map(m: map<string, Value>)
    | Obj(tag: Tag, fields: map<string, Value>, hooks: Hooks)

  /** The class serializable_elist of g_sorcery/g_collections.py, the only modelled class
      that can be iterated (its __iter__ walks its data list). */
  const ElistTag := Tag("g_sorcery.g_collections", "serializable_elist")

  /** The properties of a record, and every other string-keyed dict. */
  type Props = map<string, Value>

  /** Python truthiness. Objects of the modelled classes define neither __bool__ nor
      __len__, so they are always true. */
  predicate Truthy(v: Value)
  {
    match v
    case Null => false
    case Bool(b) => b
    case Int(i) => i != 0
    case Float(r) => r != 0.0
    case Str(s) => |s| > 0
    case List(items) => |items| > 0
    case Tuple(elems) => |elems| > 0
    case Map(m) => |m| > 0
    case Obj(_, _, _) => true
  }

  /** Python's dict.update: entries of `over` replace those of `base`. */
  function Update(base: Props, over: Props): (r: Props)
    ensures r.Keys == base.Keys + over.Keys
    ensures forall k :: k in over ==> r[k] == over[k]
    ensures forall k :: k in base && k !in over ==> r[k] == base[k]
  {
    base + over
  }

  /** Python's `for x in v`. Strings yield their one-character strings. Iterating a dict
      (over its keys, in insertion order) is not modelled and reported as TypeError. */
  function Iterate(v: Value): (r: Result<seq<Value>>)
    ensures v.List? ==> r == Ok(v.items)
    ensures v.Tuple? ==> r == Ok(v.elems)
    ensures r.Err? ==> r.error == TypeError
  {
    match v
    case List(items) => Ok(items)
    case Tuple(elems) => Ok(elems)
    case Str(s) => Ok(seq(|s|, i requires 0 <= i < |s| => Str([s[i]])))
    case Obj(tag, fields, _) =>
      if tag == ElistTag && "data" in fields && fields["data"].List? then Ok(fields["data"].items)
      else Err(TypeError)
    case _ => Err(TypeError)
  }

  /** Python's `key in container` for a string key. Equality of list elements is Dafny's
      structural equality. */
  function Contains(container: Value, key: string): (r: Result<bool>)
    ensures container.Map? ==> r == Ok(key in container.m)
  {
    match container
    case Map(m) => Ok(key in m)
    case List(items) => Ok(Str(key) in items)
    case Tuple(elems) => Ok(Str(key) in elems)
    case Str(s) => Ok(IsSubstring(key, s))
    case Obj(_, _, _) =>
      (match Iterate(container)
       case Ok(items) => Ok(Str(key) in items)
       case Err(e) => Err(e))
    case _ => Err(TypeError)
  }

  /** Python's container[key] for a string key. */
  function Lookup(container: Value, key: string): (r: Result<Value>)
    ensures r.Ok? <==> container.Map? && key in container.m
    ensures r.Ok? ==> r.value == container.m[key]
    ensures container.Map? && key !in container.m ==> r == Err(KeyError)
  {
    match container
    case Map(m) => if key in m then Ok(m[key]) else Err(KeyError)
    case _ => Err(TypeError)
  }

  /** Python's container[i] for a non-negative index. */
  function Index(container: Value, i: nat): (r: Result<Value>)
  {
    match container
    case List(items) => if i < |items| then Ok(items[i]) else Err(IndexError)
    case Tuple(elems) => if i < |elems| then Ok(elems[i]) else Err(IndexError)
    case Str(s) => if i < |s| then Ok(Str([s[i]])) else Err(IndexError)
    case Map(_) => Err(KeyError)
    case _ => Err(TypeError)
  }

  /** Python's getattr(v, name) on an instance attribute. */
  function GetAttr(v: Value, name: string): (r: Result<Value>)
    ensures r.Ok? <==> v.Obj? && name in v.fields
  {
    if v.Obj? && name in v.fields then Ok(v.fields[name]) else Err(AttributeError)
  }

  /** Python's `v == n` for an int literal n: booleans and floats compare by value too. */
  predicate NumEq(v: Value, n: int)
  {
    match v
    case Int(i) => i == n
    case Bool(b) => (if b then 1 else 0) == n
    case Float(r) => r == n as real
    case _ => false
  }
}
