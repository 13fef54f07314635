/** The collection classes of g_sorcery/g_collections.py: elist, serializable_elist,
    Package and Dependency. */
module Collections {
  import opened Wrappers
  import opened Strings
  import opened Values
  import opened Serialization

  const CollectionsModule := "g_sorcery.g_collections"
  const PackageTag := Tag(CollectionsModule, "Package")
  const DependencyTag := Tag(CollectionsModule, "Dependency")

  /** The separator an elist gets when none is given. */
  const DefaultSeparator := " "

  /** elist.__str__: the separator-joined str() of the items. `str` stands for Python's
      str() on the item values. */
  function ElistStr(items: seq<Value>, sep: string, str: Value -> string): (r: string)
    ensures |items| == 0 ==> r == ""
    ensures |items| == 1 ==> r == str(items[0])
  {
    Join(seq(|items|, i requires 0 <= i < |items| => str(items[i])), sep)
  }

  /** With a one-character separator that no item's text contains, the items' texts
      can be read back from str(elist) by splitting. */
  lemma ElistStrSplits(items: seq<Value>, c: char, str: Value -> string)
    requires |items| >= 1
    requires forall i :: 0 <= i < |items| ==> c !in str(items[i])
    ensures Split(ElistStr(items, [c], str), c) == seq(|items|, i requires 0 <= i < |items| => str(items[i]))
  {
    SplitJoin(seq(|items|, i requires 0 <= i < |items| => str(items[i])), c);
  }

  /** serializable_elist.serialize: {"separator": sep, "data": items}. The data is an
      elist, a list subclass, so it is a plain list here. */
  function ElistPayload(items: seq<Value>, sep: string): Value
  {
    Map(map["separator" := Str(sep), "data" := List(items)])
  }

  /** A serializable_elist object as a value: its data attribute and both hooks. */
  function ElistValue(items: seq<Value>, sep: string): (r: Value)
    ensures r.Obj? && r.tag == ElistTag && r.hooks.Serializable?
    ensures Iterate(r) == Ok(items)
  {
    Obj(ElistTag, map["data" := List(items), "separator" := Str(sep)],
        Serializable(ElistPayload(items, sep)))
  }

  /** serializable_elist.deserialize: value["data"] and value["separator"] are read in
      that order; a false data value gives an empty list (`iterable or []`). */
  function DeserializeElist(value: Value): (r: Result<Value>)
    ensures r.Ok? ==> r.value.Obj? && r.value.tag == ElistTag
    ensures !value.Map? ==> r == Err(TypeError)
    ensures value.Map? && "data" !in value.m ==> r == Err(KeyError)
  {
    var data :- Lookup(value, "data");
    var sep :- Lookup(value, "separator");
    if !sep.Str? then Err(TypeError)
    else if !Truthy(data) then Ok(ElistValue([], sep.s))
    else
      var items :- Iterate(data);
      Ok(ElistValue(items, sep.s))
  }

  /** deserialize(serialize(x)) keeps both the items and the separator. */
  lemma ElistSerializeRoundTrip(items: seq<Value>, sep: string)
    ensures DeserializeElist(ElistPayload(items, sep)) == Ok(ElistValue(items, sep))
  {
  }

  /** serializable_elist, whose data list the object updates in place. */
  class SerializableElist {
    var items: seq<Value>
    var separator: string

    /** serializable_elist(iterable, separator); a missing iterable is the empty list. */
    constructor(iterable: seq<Value>, separator: string)
      ensures items == iterable && this.separator == separator
    {
      items := iterable;
      this.separator := separator;
    }

    /** append: the new item goes at the end, nothing else changes. */
    method Append(x: Value)
      modifies this
      ensures items == old(items) + [x]
      ensures separator == old(separator)
    {
      items := items + [x];
    }

    /** The object as a value; iterating it yields the items in order. */
    function AsValue(): (r: Value)
      reads this
      ensures Iterate(r) == Ok(items)
      ensures r.Obj? && r.tag == ElistTag
    {
      ElistValue(items, separator)
    }

    /** serialize(); deserializing the result rebuilds this object. */
    function Serialize(): (r: Value)
      reads this
      ensures DeserializeElist(r) == Ok(AsValue())
    {
      ElistPayload(items, separator)
    }

    function ToString(str: Value -> string): (r: string)
      reads this
      ensures |items| == 1 ==> r == str(items[0])
    {
      ElistStr(items, separator, str)
    }
  }

  /** Package: a full package name category/name-version. */
  datatype Package = Package(category: string, name: string, version: string)

  /** Package.__str__. */
  function PackageStr(p: Package): string
  {
    p.category + "/" + p.name + "-" + p.version
  }

  /** The string form tells packages apart as long as categories have no '/' and
      versions no '-'. */
  lemma PackageStrInjective(p: Package, q: Package)
    requires '/' !in p.category && '/' !in q.category
    requires '-' !in p.version && '-' !in q.version
    requires PackageStr(p) == PackageStr(q)
    ensures p == q
  {
    assert PackageStr(p) == p.category + ['/'] + (p.name + "-" + p.version);
    assert PackageStr(q) == q.category + ['/'] + (q.name + "-" + q.version);
    FirstSeparatorSplits(p.category, p.name + "-" + p.version, q.category, q.name + "-" + q.version, '/');
    LastSeparatorSplits(p.name, p.version, q.name, q.version, '-');
  }

  /** Package.__eq__: componentwise. */
  predicate PackageEq(p: Package, q: Package)
  {
    p.category == q.category && p.name == q.name && p.version == q.version
  }

  lemma PackageEqIsIdentity(p: Package, q: Package)
    ensures PackageEq(p, q) <==> p == q
  {
  }

  /** The string Package.__hash__ hashes. */
  function HashKey(p: Package): string
  {
    p.category + p.name + p.version
  }

  /** Equal packages hash equally, whatever the string hash. */
  lemma EqualPackagesHashEqually(p: Package, q: Package, hash: string -> int)
    requires PackageEq(p, q)
    ensures hash(HashKey(p)) == hash(HashKey(q))
  {
  }

  /** The hashed string does not tell packages apart: two different packages share it. */
  lemma HashKeyCollision()
    ensures Package("a", "bc", "1") != Package("ab", "c", "1")
    ensures HashKey(Package("a", "bc", "1")) == HashKey(Package("ab", "c", "1"))
  {
  }

  /** Package.serialize: [category, name, version]. */
  function SerializePackage(p: Package): (r: Value)
    ensures r.List? && |r.items| == 3
  {
    List([Str(p.category), Str(p.name), Str(p.version)])
  }

  /** Package.deserialize: Package(*value), which needs exactly three items. */
  function DeserializePackage(value: Value): (r: Result<Package>)
    ensures value.List? && |value.items| != 3 ==> r == Err(TypeError)
  {
    var items :- Iterate(value);
    if |items| != 3 then Err(TypeError)
    else if !(items[0].Str? && items[1].Str? && items[2].Str?) then Err(TypeError)
    else Ok(Package(items[0].s, items[1].s, items[2].s))
  }

  lemma PackageSerializeRoundTrip(p: Package)
    ensures DeserializePackage(SerializePackage(p)) == Ok(p)
  {
  }

  /** A Package object as a value: its three attributes and both hooks. */
  function PackageValue(p: Package): (r: Value)
    ensures r.Obj? && r.tag == PackageTag && r.hooks == Serializable(SerializePackage(p))
  {
    Obj(PackageTag, map["category" := Str(p.category), "name" := Str(p.name), "version" := Str(p.version)],
        Serializable(SerializePackage(p)))
  }

  /** Package.deserialize as a registry entry. */
  function DeserializePackageValue(value: Value): Result<Value>
  {
    var p :- DeserializePackage(value);
    Ok(PackageValue(p))
  }

  /** The deserializers of this module, as the decoder finds them by class name. */
  function CollectionsRegistry(): (reg: Registry)
    ensures Registered(reg, PackageTag) && Registered(reg, ElistTag)
  {
    map[CollectionsModule := map["Package" := DeserializePackageValue, "serializable_elist" := DeserializeElist]]
  }

  /** A Package written through the codec reads back as the same Package. */
  lemma PackageCodecRoundTrip(p: Package)
    ensures Encode(PackageValue(p)).Ok?
    ensures Decode(CollectionsRegistry(), Encode(PackageValue(p)).value) == Ok(PackageValue(p))
  {
    PackageSerializeRoundTrip(p);
    RoundTrip(CollectionsRegistry(), PackageValue(p));
  }

  /** A serializable_elist of codec-safe items reads back with its items and separator. */
  lemma ElistCodecRoundTrip(items: seq<Value>, sep: string)
    requires forall i :: 0 <= i < |items| ==> RoundTrips(CollectionsRegistry(), items[i])
    ensures Encode(ElistValue(items, sep)).Ok?
    ensures Decode(CollectionsRegistry(), Encode(ElistValue(items, sep)).value) == Ok(ElistValue(items, sep))
  {
    var reg := CollectionsRegistry();
    var payload := ElistPayload(items, sep);
    ElistSerializeRoundTrip(items, sep);
    assert reg[ElistTag.pyModule][ElistTag.pyClass] == DeserializeElist;
    assert RoundTrips(reg, List(items));
    assert RoundTrips(reg, payload);
    RoundTrip(reg, ElistValue(items, sep));
  }

  /** Dependency: a dependency atom. Parsing an atom back (deserialize) is done by
      portage and is not part of this model. */
  datatype Dependency = Dependency(category: string, package: string, version: string, operator: string)

  /** The atom string built by the constructor: operator, category/package, and
      "-version" when the version is not empty. */
  function AtomString(d: Dependency): (r: string)
    ensures d.version == "" ==> r == d.operator + d.category + "/" + d.package
    ensures d.version != "" ==> r == d.operator + d.category + "/" + d.package + "-" + d.version
  {
    var base := d.operator + d.category + "/" + d.package;
    if d.version != "" then base + "-" + d.version else base
  }

  /** A Dependency object as a value: its attributes, and serialize() giving the atom. */
  function DependencyValue(d: Dependency): (r: Value)
    ensures GetAttr(r, "category") == Ok(Str(d.category))
    ensures GetAttr(r, "package") == Ok(Str(d.package))
    ensures Encode(r) == Ok(Envelope(DependencyTag, Str(AtomString(d))))
  {
    var r := Obj(DependencyTag,
                 map["category" := Str(d.category), "package" := Str(d.package),
                     "version" := Str(d.version), "operator" := Str(d.operator)],
                 Serializable(Str(AtomString(d))));
    EncodeEnvelope(DependencyTag, Str(AtomString(d)));
    r
  }
}
