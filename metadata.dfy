/** The metadata.xml generator of g_sorcery/metadata.py: XMLGenerator fills an element
    tree from a schema and a data dictionary, and MetadataGenerator turns the printed
    tree into the lines of the file. */
module Metadata {
  import opened Wrappers
  import opened Strings
  import opened Values

  /** One schema entry: the tag's name, whether it repeats, the attribute that tells
      repeated entries apart ("" for none), whether it is required, and its subtags. */
  datatype SchemaTag = SchemaTag(name: string, multiple: bool, attr: string, required: bool, subtags: seq<SchemaTag>)

  /** An ElementTree element: tag, attributes, text (None while unset) and children in
      document order. ElementTree accepts any value as text or attribute and only the
      printer objects, so both are kept as values. */
  datatype Element = Element(name: string, attrs: map<string, Value>, text: Option<Value>, children: seq<Element>)

  /** The children `elements` appended to `root`, or the error that stopped them. */
  function Appended(root: Element, elements: Result<seq<Element>>): (r: Result<Element>)
    ensures r.Ok? <==> elements.Ok?
    ensures r.Ok? ==> r.value == root.(children := root.children + elements.value)
  {
    if elements.Ok? then Ok(root.(children := root.children + elements.value)) else Err(elements.error)
  }

  // ---------------------------------------------------------------------------------
  // The tree, as a function of schema and values

  /** add_tag: the elements one schema entry adds under its parent. A missing tag is an
      error when required and adds nothing otherwise; a repeated tag adds one element per
      entry of its value, in order; any other tag adds exactly one. */
  function TagElements(tag: SchemaTag, values: Value): (r: Result<seq<Element>>)
    ensures Contains(values, tag.name) == Ok(false) ==> r == (if tag.required then Err(XMLGeneratorError) else Ok([]))
    ensures r.Ok? ==> forall e :: e in r.value ==> e.name == tag.name
    decreases tag, 3
  {
    var present :- Contains(values, tag.name);
    if !present then
      if tag.required then Err(XMLGeneratorError) else Ok([])
    else
      var value :- Lookup(values, tag.name);
      if tag.multiple then
        var entries :- Iterate(value);
        SingleElements(tag, entries, tag.attr)
      else
        var e :- SingleElement(tag, value, "");
        Ok([e])
  }

  /** A tag present in the values: it needs a value under its name; a single tag
      yields exactly one element, a repeated one exactly one per entry, in order. */
  lemma PresentTag(tag: SchemaTag, values: Value)
    requires Contains(values, tag.name) == Ok(true) && TagElements(tag, values).Ok?
    ensures Lookup(values, tag.name).Ok?
    ensures var r := TagElements(tag, values).value;
      !tag.multiple ==> |r| == 1 && Ok(r[0]) == SingleElement(tag, Lookup(values, tag.name).value, "")
    ensures var r := TagElements(tag, values).value;
      tag.multiple ==> (Iterate(Lookup(values, tag.name).value).Ok? &&
        var entries := Iterate(Lookup(values, tag.name).value).value;
        |r| == |entries| && forall k :: 0 <= k < |r| ==> Ok(r[k]) == SingleElement(tag, entries[k], tag.attr))
  {
    if tag.multiple {
      var entries := Iterate(Lookup(values, tag.name).value).value;
      assert TagElements(tag, values) == SingleElements(tag, entries, tag.attr);
    }
  }

  /** The loop of add_tag over the entries of a repeated tag. */
  function SingleElements(tag: SchemaTag, entries: seq<Value>, attr: string): (r: Result<seq<Element>>)
    ensures r.Ok? <==> forall k :: 0 <= k < |entries| ==> SingleElement(tag, entries[k], attr).Ok?
    ensures r.Ok? ==> |r.value| == |entries| && forall k :: 0 <= k < |entries| ==> Ok(r.value[k]) == SingleElement(tag, entries[k], attr)
    decreases tag, 2, |entries|
  {
    if entries == [] then Ok([])
    else
      var e :- SingleElement(tag, entries[0], attr);
      var rest :- SingleElements(tag, entries[1..], attr);
      Ok([e] + rest)
  }

  /** add_single_tag: with an attribute name, the value is a pair of attribute value and
      content; a tag with subtags takes its text from the content's "text" entry and its
      children from the subtags; a leaf tag's text is the content itself. */
  function SingleElement(tag: SchemaTag, value: Value, attr: string): (r: Result<Element>)
    ensures r.Ok? ==> r.value.name == tag.name
    ensures r.Ok? && attr == "" ==> r.value.attrs == map[]
    ensures r.Ok? && attr != "" ==> Index(value, 0).Ok? && Index(value, 1).Ok? && r.value.attrs == map[attr := Index(value, 0).value]
    ensures (r.Ok? && tag.subtags == []) ==>
      (r.value.children == [] && r.value.text == Some(if attr == "" then value else Index(value, 1).value))
    ensures (r.Ok? && tag.subtags != []) ==>
      var content := if attr == "" then value else Index(value, 1).value;
      (Contains(content, "text") == Ok(true) ==>
         Lookup(content, "text").Ok? && r.value.text == Some(Lookup(content, "text").value)) &&
      (Contains(content, "text") == Ok(false) ==> r.value.text == None) &&
      Children(tag, 0, content) == Ok(r.value.children)
    ensures tag.subtags != [] && (attr == "" || (Index(value, 0).Ok? && Index(value, 1).Ok?)) ==>
      var content := if attr == "" then value else Index(value, 1).value;
      (r.Ok? <==>
         (Contains(content, "text").Ok? &&
          (Contains(content, "text") == Ok(true) ==> Lookup(content, "text").Ok?) &&
          Children(tag, 0, content).Ok?))
    decreases tag, 1
  {
    var attrs: map<string, Value> :- if attr == "" then Ok(map[]) else
      var a :- Index(value, 0);
      Ok(map[attr := a]);
    var content :- if attr == "" then Ok(value) else Index(value, 1);
    if tag.subtags != [] then
      var hasText :- Contains(content, "text");
      var text :- if hasText then (var t :- Lookup(content, "text"); Ok(Some(t))) else Ok(None);
      var kids :- Children(tag, 0, content);
      Ok(Element(tag.name, attrs, text, kids))
    else
      Ok(Element(tag.name, attrs, Some(content), []))
  }

  /** The loop over the subtags of `parent` from the i-th on; the first failing subtag
      decides the error. Every child comes from one of those subtags. */
  function Children(parent: SchemaTag, i: nat, values: Value): (r: Result<seq<Element>>)
    requires i <= |parent.subtags|
    ensures r.Ok? <==> forall k :: i <= k < |parent.subtags| ==> TagElements(parent.subtags[k], values).Ok?
    decreases parent, 0, |parent.subtags| - i
  {
    if i == |parent.subtags| then Ok([])
    else
      var first :- TagElements(parent.subtags[i], values);
      var rest :- Children(parent, i + 1, values);
      Ok(first + rest)
  }

  /** The root behaves as a tag whose subtags are the schema. */
  function RootTag(external: string, schema: seq<SchemaTag>): SchemaTag
  {
    SchemaTag(external, false, "", false, schema)
  }

  /** XMLGenerator.generate: a root named `external`, without attributes or text, whose
      children are those of the schema entries in schema order. */
  function Generated(external: string, schema: seq<SchemaTag>, values: Value): (r: Result<Element>)
    ensures r.Ok? <==> forall k :: 0 <= k < |schema| ==> TagElements(schema[k], values).Ok?
    ensures r.Ok? ==> r.value.name == external && r.value.attrs == map[] && r.value.text == None
  {
    Appended(Element(external, map[], None, []), Children(RootTag(external, schema), 0, values))
  }

  /** Every child comes from one of the subtags from the i-th on. */
  lemma {:induction false} ChildrenNames(parent: SchemaTag, i: nat, values: Value)
    requires i <= |parent.subtags| && Children(parent, i, values).Ok?
    ensures forall e :: e in Children(parent, i, values).value ==>
      exists k :: i <= k < |parent.subtags| && e.name == parent.subtags[k].name
    decreases |parent.subtags| - i
  {
    if i < |parent.subtags| {
      ChildrenCons(parent, i, values);
      ChildrenNames(parent, i + 1, values);
    }
  }

  /** Every child of the root comes from a schema entry, and the root holds the
      children in schema order. */
  lemma GeneratedChildren(external: string, schema: seq<SchemaTag>, values: Value)
    requires Generated(external, schema, values).Ok?
    ensures forall e :: e in Generated(external, schema, values).value.children ==>
      exists k :: 0 <= k < |schema| && e.name == schema[k].name
    ensures DistinctNames(schema) ==> InTagOrder(schema, Generated(external, schema, values).value.children)
  {
    var parent := RootTag(external, schema);
    assert Generated(external, schema, values).value.children == Children(parent, 0, values).value;
    ChildrenNames(parent, 0, values);
    if DistinctNames(schema) {
      ChildrenInSchemaOrder(parent, 0, values);
    }
  }

  /** No two tags of the list share a name, as at every level of the default schema. */
  predicate DistinctNames(tags: seq<SchemaTag>)
  {
    forall a, b :: 0 <= a < b < |tags| ==> tags[a].name != tags[b].name
  }

  /** The position of the first tag of `tags` with the name, |tags| when there is none. */
  function Rank(tags: seq<SchemaTag>, name: string): (r: nat)
    ensures r <= |tags|
    decreases |tags|
  {
    if tags == [] then 0 else if tags[0].name == name then 0 else 1 + Rank(tags[1..], name)
  }

  /** With distinct names, the rank of a tag's name is the tag's position. */
  lemma {:induction false} RankOf(tags: seq<SchemaTag>, k: nat)
    requires DistinctNames(tags) && k < |tags|
    ensures Rank(tags, tags[k].name) == k
    decreases |tags|
  {
    if k > 0 {
      assert tags[0].name != tags[k].name;
      assert tags[1..][k - 1] == tags[k];
      RankOf(tags[1..], k - 1);
    }
  }

  /** A child at a later list position never comes from an earlier tag of `tags`. */
  predicate InTagOrder(tags: seq<SchemaTag>, cs: seq<Element>)
  {
    forall a, b :: 0 <= a < b < |cs| ==> Rank(tags, cs[a].name) <= Rank(tags, cs[b].name)
  }

  /** The children keep the schema's order: when the subtags have distinct names, a
      later child never comes from an earlier subtag than an earlier child. */
  lemma {:induction false} ChildrenInSchemaOrder(parent: SchemaTag, i: nat, values: Value)
    requires i <= |parent.subtags| && DistinctNames(parent.subtags)
    requires Children(parent, i, values).Ok?
    ensures InTagOrder(parent.subtags, Children(parent, i, values).value)
    ensures forall e :: e in Children(parent, i, values).value ==> i <= Rank(parent.subtags, e.name)
    decreases |parent.subtags| - i
  {
    if i < |parent.subtags| {
      ChildrenCons(parent, i, values);
      ChildrenInSchemaOrder(parent, i + 1, values);
      RankOf(parent.subtags, i);
      OrderedConcat(parent.subtags, i, TagElements(parent.subtags[i], values).value, Children(parent, i + 1, values).value);
    }
  }

  /** The children from the i-th subtag on: that subtag's elements, then the rest's. */
  lemma ChildrenCons(parent: SchemaTag, i: nat, values: Value)
    requires i < |parent.subtags| && Children(parent, i, values).Ok?
    ensures TagElements(parent.subtags[i], values).Ok? && Children(parent, i + 1, values).Ok?
    ensures Children(parent, i, values).value ==
      TagElements(parent.subtags[i], values).value + Children(parent, i + 1, values).value
  {
  }

  /** Elements of rank i, then elements in order of rank above i, are in order. */
  lemma OrderedConcat(tags: seq<SchemaTag>, i: nat, first: seq<Element>, rest: seq<Element>)
    requires i < |tags| && Rank(tags, tags[i].name) == i
    requires forall e :: e in first ==> e.name == tags[i].name
    requires forall e :: e in rest ==> i + 1 <= Rank(tags, e.name)
    requires InTagOrder(tags, rest)
    ensures InTagOrder(tags, first + rest)
    ensures forall e :: e in first + rest ==> i <= Rank(tags, e.name)
  {
    var cs := first + rest;
    forall a, b | 0 <= a < b < |cs| ensures Rank(tags, cs[a].name) <= Rank(tags, cs[b].name) {
      if b >= |first| {
        assert cs[b] == rest[b - |first|] && cs[b] in rest;
        if a < |first| {
          assert cs[a] in first;
        } else {
          assert cs[a] == rest[a - |first|];
        }
      } else {
        assert cs[a] in first && cs[b] in first;
      }
    }
  }

  /** One subtag's elements appended, then the rest's. */
  lemma AppendedChildren(root: Element, parent: SchemaTag, i: nat, values: Value)
    requires i < |parent.subtags|
    ensures Appended(root, Children(parent, i, values)) ==
      (var next :- Appended(root, TagElements(parent.subtags[i], values));
       Appended(next, Children(parent, i + 1, values)))
  {
    var first := TagElements(parent.subtags[i], values);
    var rest := Children(parent, i + 1, values);
    if first.Ok? && rest.Ok? {
      assert root.children + (first.value + rest.value) == (root.children + first.value) + rest.value;
    }
  }

  /** One entry's element appended, then the rest's. */
  lemma AppendedEntries(root: Element, tag: SchemaTag, entries: seq<Value>, attr: string)
    requires entries != []
    ensures Appended(root, SingleElements(tag, entries, attr)) ==
      (var next :- Appended(root, (var e :- SingleElement(tag, entries[0], attr); Ok([e])));
       Appended(next, SingleElements(tag, entries[1..], attr)))
  {
    var first := SingleElement(tag, entries[0], attr);
    var rest := SingleElements(tag, entries[1..], attr);
    if first.Ok? && rest.Ok? {
      EntriesStep(tag, entries, attr, first.value, rest.value, [first.value] + rest.value);
      SeqAssoc(root.children, [first.value], rest.value);
    }
  }

  // ---------------------------------------------------------------------------------
  // The generator, building the tree step by step

  /** XMLGenerator.generate: add every schema entry to the root in turn. */
  method Generate(external: string, schema: seq<SchemaTag>, values: Value) returns (r: Result<Element>)
    ensures r == Generated(external, schema, values)
  {
    var parent := RootTag(external, schema);
    var start := Element(external, map[], None, []);
    var root := start;
    var i := 0;
    while i < |schema|
      invariant 0 <= i <= |schema|
      invariant Appended(start, Children(parent, 0, values)) == Appended(root, Children(parent, i, values))
    {
      AppendedChildren(root, parent, i, values);
      root :- AddTag(root, schema[i], values);
      i := i + 1;
    }
    assert parent.subtags == schema;
    assert root.children + [] == root.children;
    return Ok(root);
  }

  /** add_tag, appending to `root` what the entry yields. */
  method AddTag(root: Element, tag: SchemaTag, values: Value) returns (r: Result<Element>)
    ensures r == Appended(root, TagElements(tag, values))
    decreases tag, 3
  {
    var present := Contains(values, tag.name);
    if present.Err? {
      return Err(present.error);
    }
    if !present.value {
      if tag.required {
        return Err(XMLGeneratorError);
      }
      assert root.(children := root.children + []) == root;
      return Ok(root);
    }
    var value := Lookup(values, tag.name);
    if value.Err? {
      return Err(value.error);
    }
    if !tag.multiple {
      r := AddSingleTag(root, tag, value.value, "");
      return;
    }
    var entries := Iterate(value.value);
    if entries.Err? {
      return Err(entries.error);
    }
    var current := root;
    var i := 0;
    while i < |entries.value|
      invariant 0 <= i <= |entries.value|
      invariant Appended(root, SingleElements(tag, entries.value, tag.attr)) ==
        Appended(current, SingleElements(tag, entries.value[i..], tag.attr))
    {
      assert entries.value[i..][1..] == entries.value[i + 1..];
      AppendedEntries(current, tag, entries.value[i..], tag.attr);
      current :- AddSingleTag(current, tag, entries.value[i], tag.attr);
      i := i + 1;
    }
    assert entries.value[i..] == [];
    assert current.children + [] == current.children;
    return Ok(current);
  }

  /** add_single_tag: a fresh child is filled in and appended to `root`. */
  method AddSingleTag(root: Element, tag: SchemaTag, value: Value, attr: string) returns (r: Result<Element>)
    ensures r == Appended(root, (var e :- SingleElement(tag, value, attr); Ok([e])))
    decreases tag, 1
  {
    var child := Element(tag.name, map[], None, []);
    var content := value;
    if attr != "" {
      var a := Index(value, 0);
      if a.Err? {
        return Err(a.error);
      }
      child := child.(attrs := child.attrs[attr := a.value]);
      var b := Index(value, 1);
      if b.Err? {
        return Err(b.error);
      }
      content := b.value;
    }
    if tag.subtags == [] {
      child := child.(text := Some(content));
      return Ok(root.(children := root.children + [child]));
    }
    var hasText := Contains(content, "text");
    if hasText.Err? {
      return Err(hasText.error);
    }
    if hasText.value {
      var t := Lookup(content, "text");
      if t.Err? {
        return Err(t.error);
      }
      child := child.(text := Some(t.value));
    }
    var filled := AddSubtags(child, tag, content);
    if filled.Err? {
      return Err(filled.error);
    }
    assert [] + Children(tag, 0, content).value == Children(tag, 0, content).value;
    return Ok(root.(children := root.children + [filled.value]));
  }

  /** The loop of add_single_tag over the subtags, each added to the new child in turn. */
  method AddSubtags(child: Element, tag: SchemaTag, content: Value) returns (r: Result<Element>)
    ensures r == Appended(child, Children(tag, 0, content))
    decreases tag, 0
  {
    var filled := child;
    var i := 0;
    while i < |tag.subtags|
      invariant 0 <= i <= |tag.subtags|
      invariant Appended(child, Children(tag, 0, content)) == Appended(filled, Children(tag, i, content))
    {
      AppendedChildren(filled, tag, i, content);
      filled :- AddTag(filled, tag.subtags[i], content);
      i := i + 1;
    }
    assert filled.children + [] == filled.children;
    return Ok(filled);
  }

  // ---------------------------------------------------------------------------------
  // The default schema and the metadata file

  /** default_schema, the tags of a Gentoo metadata.xml. */
  const DefaultSchema: seq<SchemaTag> := [
    SchemaTag("herd", true, "", false, []),
    SchemaTag("maintainer", true, "", false, [
      SchemaTag("email", false, "", true, []),
      SchemaTag("name", false, "", false, []),
      SchemaTag("description", false, "", false, [])]),
    SchemaTag("longdescription", false, "", false, []),
    SchemaTag("use", false, "", false, [
      SchemaTag("flag", true, "name", true, [])]),
    SchemaTag("upstream", false, "", false, [
      SchemaTag("maintainer", true, "", false, [
        SchemaTag("name", false, "", true, []),
        SchemaTag("email", false, "", false, [])]),
      SchemaTag("changelog", false, "", false, []),
      SchemaTag("doc", false, "", false, []),
      SchemaTag("bugs-to", false, "", false, []),
      SchemaTag("remote-id", false, "", false, [])])]

  const Doctype := "<!DOCTYPE pkgmetadata SYSTEM \"http://www.gentoo.org/dtd/metadata.dtd\">"

  /** MetadataGenerator's schema: the given one, or the default when it is empty. */
  function GeneratorSchema(schema: seq<SchemaTag>): (r: seq<SchemaTag>)
    ensures r != []
    ensures schema != [] ==> r == schema
  {
    if schema == [] then DefaultSchema else schema
  }

  /** Python's list.insert(i, x) for a non-negative i: past the end it appends. */
  function Insert(lines: seq<string>, i: nat, x: string): (r: seq<string>)
    ensures |r| == |lines| + 1
    ensures i <= |lines| ==> r[i] == x && r[..i] == lines[..i] && r[i + 1..] == lines[i..]
    ensures i > |lines| ==> r == lines + [x]
  {
    if i <= |lines| then lines[..i] + [x] + lines[i..] else lines + [x]
  }

  /** The lines of the printed tree, without the empty piece after a final newline. */
  function PrintedLines(printed: string): seq<string>
  {
    var lines := Split(printed, '\n');
    if lines[|lines| - 1] == "" then lines[..|lines| - 1] else lines
  }

  /** MetadataGenerator.generate after printing: split into lines, drop a final empty
      line, and put the DOCTYPE line second. */
  function MetadataLines(printed: string): (r: seq<string>)
    ensures |r| == |PrintedLines(printed)| + 1
    ensures |PrintedLines(printed)| >= 1 ==> r[1] == Doctype && r[0] == PrintedLines(printed)[0] && r[2..] == PrintedLines(printed)[1..]
    ensures PrintedLines(printed) == [] ==> r == [Doctype]
  {
    Insert(PrintedLines(printed), 1, Doctype)
  }

  /** MetadataGenerator.generate: the package's description through the generator with
      the root `pkgmetadata`, printed by `prettify`, then turned into lines. process and
      postprocess are the identity here, as in the base class. */
  function GenerateMetadata(description: Props, schema: seq<SchemaTag>, prettify: Element -> string): (r: Result<seq<string>>)
    ensures r.Ok? <==> Generated("pkgmetadata", GeneratorSchema(schema), Map(description)).Ok?
    ensures r.Ok? ==> r.value == MetadataLines(prettify(Generated("pkgmetadata", GeneratorSchema(schema), Map(description)).value))
  {
    var tree :- Generated("pkgmetadata", GeneratorSchema(schema), Map(description));
    Ok(MetadataLines(prettify(tree)))
  }

  /** Joined with newlines again, the lines without the DOCTYPE give the printed
      text back, less its final newline. */
  lemma MetadataLinesRoundTrip(printed: string)
    requires printed != ""
    ensures var r := MetadataLines(printed);
      Join(r[..1] + r[2..], "\n") + (if printed[|printed| - 1] == '\n' then "\n" else "") == printed
  {
    var lines := Split(printed, '\n');
    JoinSplit(printed, '\n');
    var kept := PrintedLines(printed);
    var r := MetadataLines(printed);
    if |kept| >= 1 {
      assert r[..1] + r[2..] == kept;
    }
    if lines[|lines| - 1] == "" {
      if |lines| == 1 {
        SplitSingle(printed, '\n');
        assert false;
      }
      JoinDropLast(lines, "\n");
      LastPieceEmpty(printed, '\n');
    } else {
      LastPieceNonEmpty(printed, '\n');
    }
  }

  /** A single empty piece comes only from the empty string. */
  lemma {:induction false} SplitSingle(s: string, c: char)
    requires s != ""
    ensures Split(s, c) != [""]
  {
    var rest := Split(s[1..], c);
    if s[0] == c {
      assert Split(s, c) == [""] + rest;
      assert |Split(s, c)| >= 2;
    } else {
      assert Split(s, c)[0] == [s[0]] + rest[0];
    }
  }

  /** The last piece of a split is empty exactly when the string ends with the separator
      or is empty. */
  lemma {:induction false} LastPieceEmpty(s: string, c: char)
    requires |Split(s, c)| >= 2 && Split(s, c)[|Split(s, c)| - 1] == ""
    ensures |s| > 0 && s[|s| - 1] == c
    decreases |s|
  {
    LastPieceClass(s, c);
  }

  lemma {:induction false} LastPieceNonEmpty(s: string, c: char)
    requires Split(s, c)[|Split(s, c)| - 1] != ""
    ensures |s| > 0 && s[|s| - 1] != c
  {
    LastPieceClass(s, c);
  }

  /** The last piece is empty exactly when the string is empty or ends with the separator. */
  lemma {:induction false} LastPieceClass(s: string, c: char)
    ensures (Split(s, c)[|Split(s, c)| - 1] == "") <==> (|s| == 0 || s[|s| - 1] == c)
    decreases |s|
  {
    if |s| > 0 {
      LastPieceClass(s[1..], c);
      var rest := Split(s[1..], c);
      if s[0] == c {
        assert Split(s, c) == [""] + rest;
        assert Split(s, c)[|Split(s, c)| - 1] == rest[|rest| - 1];
        if |s| == 1 {
          assert s[|s| - 1] == c;
        } else {
          assert s[1..][|s| - 2] == s[|s| - 1];
        }
      } else {
        var r := Split(s, c);
        if |rest| == 1 {
          assert r == [[s[0]] + rest[0]];
          assert r[|r| - 1] != "";
          if |s| > 1 {
            assert s[1..][|s| - 2] == s[|s| - 1];
          }
        } else {
          assert r[|r| - 1] == rest[|rest| - 1];
          assert |s| > 1;
          assert s[1..][|s| - 2] == s[|s| - 1];
        }
      }
    }
  }

  /** Joining all pieces is joining all but the last, the separator, and the last. */
  lemma {:induction false} JoinDropLast(parts: seq<string>, sep: string)
    requires |parts| >= 2
    ensures Join(parts, sep) == Join(parts[..|parts| - 1], sep) + sep + parts[|parts| - 1]
    decreases |parts|
  {
    if |parts| > 2 {
      JoinDropLast(parts[1..], sep);
      assert parts[1..][..|parts| - 2] == parts[..|parts| - 1][1..];
    }
  }

  // ---------------------------------------------------------------------------------
  // The generator's documented outputs

  const TestSchema: seq<SchemaTag> := [
    SchemaTag("desc", false, "", true, []),
    SchemaTag("contact", false, "", false, [
      SchemaTag("email", false, "", true, []),
      SchemaTag("phone", false, "", false, [])]),
    SchemaTag("multiple", true, "", false, []),
    SchemaTag("flag", true, "name", false, [])]

  function Leaf(name: string, text: string): Element
  {
    Element(name, map[], Some(Str(text)), [])
  }

  /** Without the required tag the generator raises. */
  lemma RequiredTagMissing()
    ensures Generated("test_ext", TestSchema, Map(map[])) == Err(XMLGeneratorError)
  {
    assert TagElements(TestSchema[0], Map(map[])) == Err(XMLGeneratorError);
  }

  /** One step of the loop over subtags, when both parts succeed. */
  lemma ChildrenStep(parent: SchemaTag, i: nat, values: Value, first: seq<Element>, rest: seq<Element>, all: seq<Element>)
    requires i < |parent.subtags| && all == first + rest
    requires TagElements(parent.subtags[i], values) == Ok(first) && Children(parent, i + 1, values) == Ok(rest)
    ensures Children(parent, i, values) == Ok(all)
  {
    assert Children(parent, i, values).value == first + rest;
  }

  /** One step of the loop over entries, when both parts succeed. */
  lemma EntriesStep(tag: SchemaTag, entries: seq<Value>, attr: string, first: Element, rest: seq<Element>, all: seq<Element>)
    requires entries != [] && all == [first] + rest
    requires SingleElement(tag, entries[0], attr) == Ok(first) && SingleElements(tag, entries[1..], attr) == Ok(rest)
    ensures SingleElements(tag, entries, attr) == Ok(all)
  {
    assert SingleElements(tag, entries, attr).value == [first] + rest;
  }

  /** The root holds exactly the schema's children. */
  lemma GeneratedFrom(external: string, schema: seq<SchemaTag>, values: Value, kids: seq<Element>)
    requires Children(RootTag(external, schema), 0, values) == Ok(kids)
    ensures Generated(external, schema, values) == Ok(Element(external, map[], None, kids))
  {
    assert [] + kids == kids;
  }

  /** A tag the values do not mention yields nothing. */
  lemma AbsentTag(parent: SchemaTag, i: nat, values: Value, rest: seq<Element>)
    requires i < |parent.subtags| && values.Map? && parent.subtags[i].name !in values.m
    requires !parent.subtags[i].required && Children(parent, i + 1, values) == Ok(rest)
    ensures Children(parent, i, values) == Ok(rest)
  {
    assert TagElements(parent.subtags[i], values) == Ok([]);
    ChildrenStep(parent, i, values, [], rest, rest);
  }

  /** A leaf tag given a string yields one element with that text. */
  lemma LeafTag(tag: SchemaTag, values: Value, text: string)
    requires values.Map? && tag.name in values.m && values.m[tag.name] == Str(text)
    requires tag.subtags == [] && !tag.multiple
    ensures TagElements(tag, values) == Ok([Leaf(tag.name, text)])
  {
    assert SingleElement(tag, Str(text), "") == Ok(Leaf(tag.name, text));
  }

  /** Only the given tag yields an element. */
  lemma OnlyGivenTags()
    ensures Generated("test_ext", TestSchema, Map(map["desc" := Str("test xml")])) ==
      Ok(Element("test_ext", map[], None, [Leaf("desc", "test xml")]))
  {
    var values := Map(map["desc" := Str("test xml")]);
    var parent := RootTag("test_ext", TestSchema);
    AbsentTag(parent, 3, values, []);
    AbsentTag(parent, 2, values, []);
    AbsentTag(parent, 1, values, []);
    LeafTag(TestSchema[0], values, "test xml");
    ChildrenStep(parent, 0, values, [Leaf("desc", "test xml")], [], [Leaf("desc", "test xml")]);
    GeneratedFrom("test_ext", TestSchema, values, [Leaf("desc", "test xml")]);
  }

  /** A tag with subtags gets one child per given subtag. */
  lemma NestedTags(contact: Value, values: Value)
    requires contact == Map(map["email" := Str("test@example.com"), "phone" := Str("00-0")])
    requires values == Map(map["desc" := Str("test xml"), "contact" := contact])
    ensures Generated("test_ext", TestSchema, values) ==
      Ok(Element("test_ext", map[], None, [
        Leaf("desc", "test xml"),
        Element("contact", map[], None, [Leaf("email", "test@example.com"), Leaf("phone", "00-0")])]))
  {
    ContactElement(contact);
    DescAndContact(values, "test xml", contact,
      Element("contact", map[], None, [Leaf("email", "test@example.com"), Leaf("phone", "00-0")]));
  }

  /** The test schema, for values holding only a description and a contact. */
  lemma DescAndContact(values: Value, desc: string, contact: Value, e: Element)
    requires values == Map(map["desc" := Str(desc), "contact" := contact])
    requires SingleElement(TestSchema[1], contact, "") == Ok(e)
    ensures Generated("test_ext", TestSchema, values) == Ok(Element("test_ext", map[], None, [Leaf("desc", desc), e]))
  {
    ContactOnly(values, contact, e);
    LeafTag(TestSchema[0], values, desc);
    GeneratedFirst("test_ext", TestSchema, values, [Leaf("desc", desc)], [e]);
    assert [Leaf("desc", desc)] + [e] == [Leaf("desc", desc), e];
  }

  /** The root's children are those of its first tag followed by those of the others. */
  lemma GeneratedFirst(external: string, schema: seq<SchemaTag>, values: Value, first: seq<Element>, rest: seq<Element>)
    requires |schema| > 0 && TagElements(schema[0], values) == Ok(first)
    requires Children(RootTag(external, schema), 1, values) == Ok(rest)
    ensures Generated(external, schema, values) == Ok(Element(external, map[], None, first + rest))
  {
    ChildrenStep(RootTag(external, schema), 0, values, first, rest, first + rest);
    GeneratedFrom(external, schema, values, first + rest);
  }

  /** The test schema after its first tag, for values whose only other tag is a contact. */
  lemma ContactOnly(values: Value, contact: Value, e: Element)
    requires values.Map? && "contact" in values.m && values.m["contact"] == contact
    requires "multiple" !in values.m && "flag" !in values.m
    requires SingleElement(TestSchema[1], contact, "") == Ok(e)
    ensures Children(RootTag("test_ext", TestSchema), 1, values) == Ok([e])
  {
    var parent := RootTag("test_ext", TestSchema);
    SingleTag(TestSchema[1], values, e);
    AbsentTag(parent, 3, values, []);
    AbsentTag(parent, 2, values, []);
    ChildrenStep(parent, 1, values, [e], [], [e]);
  }

  /** The contact tag of the test schema, given an email and a phone. */
  lemma ContactElement(contact: Value)
    requires contact == Map(map["email" := Str("test@example.com"), "phone" := Str("00-0")])
    ensures SingleElement(TestSchema[1], contact, "") ==
      Ok(Element("contact", map[], None, [Leaf("email", "test@example.com"), Leaf("phone", "00-0")]))
  {
    var c := TestSchema[1];
    var kids := [Leaf("email", "test@example.com"), Leaf("phone", "00-0")];
    LeafTag(c.subtags[1], contact, "00-0");
    ChildrenStep(c, 1, contact, [Leaf("phone", "00-0")], [], [Leaf("phone", "00-0")]);
    LeafTag(c.subtags[0], contact, "test@example.com");
    ChildrenStep(c, 0, contact, [Leaf("email", "test@example.com")], [Leaf("phone", "00-0")], kids);
    assert Contains(contact, "text") == Ok(false);
  }

  /** A single tag present in the values yields the one element built from its value. */
  lemma SingleTag(tag: SchemaTag, values: Value, e: Element)
    requires values.Map? && tag.name in values.m && !tag.multiple
    requires SingleElement(tag, values.m[tag.name], "") == Ok(e)
    ensures TagElements(tag, values) == Ok([e])
  {
  }

  /** The repeated leaf of the test schema, given three strings. */
  lemma RepeatedEntries(values: Value)
    requires values.Map? && "multiple" in values.m
    requires values.m["multiple"] == List([Str("test1"), Str("test2"), Str("test3")])
    ensures TagElements(TestSchema[2], values) == Ok([Leaf("multiple", "test1"), Leaf("multiple", "test2"), Leaf("multiple", "test3")])
  {
    var entries := [Str("test1"), Str("test2"), Str("test3")];
    var m := TestSchema[2];
    var l1, l2, l3 := Leaf("multiple", "test1"), Leaf("multiple", "test2"), Leaf("multiple", "test3");
    assert entries[1..][1..][1..] == [];
    EntriesStep(m, entries[1..][1..], "", l3, [], [l3]);
    EntriesStep(m, entries[1..], "", l2, [l3], [l2, l3]);
    EntriesStep(m, entries, "", l1, [l2, l3], [l1, l2, l3]);
  }

  /** A repeated tag yields one element per list entry, in order. */
  lemma RepeatedTag()
    ensures Generated("test_ext", TestSchema,
        Map(map["desc" := Str("test xml"), "multiple" := List([Str("test1"), Str("test2"), Str("test3")])])) ==
      Ok(Element("test_ext", map[], None, [
        Leaf("desc", "test xml"), Leaf("multiple", "test1"), Leaf("multiple", "test2"), Leaf("multiple", "test3")]))
  {
    RepeatedTagIn(Map(map["desc" := Str("test xml"), "multiple" := List([Str("test1"), Str("test2"), Str("test3")])]));
  }

  lemma RepeatedTagIn(values: Value)
    requires values.Map? && values.m.Keys == {"desc", "multiple"} && values.m["desc"] == Str("test xml")
    requires values.m["multiple"] == List([Str("test1"), Str("test2"), Str("test3")])
    ensures Generated("test_ext", TestSchema, values) ==
      Ok(Element("test_ext", map[], None, [
        Leaf("desc", "test xml"), Leaf("multiple", "test1"), Leaf("multiple", "test2"), Leaf("multiple", "test3")]))
  {
    var d, l1, l2, l3 := Leaf("desc", "test xml"), Leaf("multiple", "test1"), Leaf("multiple", "test2"), Leaf("multiple", "test3");
    RepeatedAfterDesc(values);
    LeafTag(TestSchema[0], values, "test xml");
    GeneratedFirst("test_ext", TestSchema, values, [d], [l1, l2, l3]);
    assert [d] + [l1, l2, l3] == [d, l1, l2, l3];
  }

  /** After the leading tag, only the repeated entries yield elements. */
  lemma RepeatedAfterDesc(values: Value)
    requires values.Map? && values.m.Keys == {"desc", "multiple"}
    requires values.m["multiple"] == List([Str("test1"), Str("test2"), Str("test3")])
    ensures Children(RootTag("test_ext", TestSchema), 1, values) ==
      Ok([Leaf("multiple", "test1"), Leaf("multiple", "test2"), Leaf("multiple", "test3")])
  {
    var parent := RootTag("test_ext", TestSchema);
    var l1, l2, l3 := Leaf("multiple", "test1"), Leaf("multiple", "test2"), Leaf("multiple", "test3");
    RepeatedEntries(values);
    AbsentTag(parent, 3, values, []);
    ChildrenStep(parent, 2, values, [l1, l2, l3], [], [l1, l2, l3]);
    AbsentTag(parent, 1, values, [l1, l2, l3]);
  }

  /** The attribute-tagged leaf of the test schema, given two pairs. */
  lemma FlagEntries(values: Value)
    requires values.Map? && "flag" in values.m
    requires values.m["flag"] == List([Tuple([Str("flag1"), Str("test1")]), Tuple([Str("flag2"), Str("test2")])])
    ensures TagElements(TestSchema[3], values) == Ok([
      Element("flag", map["name" := Str("flag1")], Some(Str("test1")), []),
      Element("flag", map["name" := Str("flag2")], Some(Str("test2")), [])])
  {
    var entries := [Tuple([Str("flag1"), Str("test1")]), Tuple([Str("flag2"), Str("test2")])];
    var f := TestSchema[3];
    var e1 := Element("flag", map["name" := Str("flag1")], Some(Str("test1")), []);
    var e2 := Element("flag", map["name" := Str("flag2")], Some(Str("test2")), []);
    assert SingleElement(f, entries[0], "name") == Ok(e1);
    assert SingleElement(f, entries[1], "name") == Ok(e2);
    assert entries[1..][1..] == [];
    EntriesStep(f, entries[1..], "name", e2, [], [e2]);
    EntriesStep(f, entries, "name", e1, [e2], [e1, e2]);
  }

  /** After the leading tag, only the attribute-tagged entries yield elements. */
  lemma FlagsAfterDesc(values: Value)
    requires values.Map? && values.m.Keys == {"desc", "flag"}
    requires values.m["flag"] == List([Tuple([Str("flag1"), Str("test1")]), Tuple([Str("flag2"), Str("test2")])])
    ensures Children(RootTag("test_ext", TestSchema), 1, values) == Ok([
      Element("flag", map["name" := Str("flag1")], Some(Str("test1")), []),
      Element("flag", map["name" := Str("flag2")], Some(Str("test2")), [])])
  {
    var parent := RootTag("test_ext", TestSchema);
    var e1 := Element("flag", map["name" := Str("flag1")], Some(Str("test1")), []);
    var e2 := Element("flag", map["name" := Str("flag2")], Some(Str("test2")), []);
    FlagsLast(values);
    AbsentTag(parent, 2, values, [e1, e2]);
    AbsentTag(parent, 1, values, [e1, e2]);
  }

  lemma FlagsLast(values: Value)
    requires values.Map? && "flag" in values.m
    requires values.m["flag"] == List([Tuple([Str("flag1"), Str("test1")]), Tuple([Str("flag2"), Str("test2")])])
    ensures Children(RootTag("test_ext", TestSchema), 3, values) == Ok([
      Element("flag", map["name" := Str("flag1")], Some(Str("test1")), []),
      Element("flag", map["name" := Str("flag2")], Some(Str("test2")), [])])
  {
    var parent := RootTag("test_ext", TestSchema);
    var e1 := Element("flag", map["name" := Str("flag1")], Some(Str("test1")), []);
    var e2 := Element("flag", map["name" := Str("flag2")], Some(Str("test2")), []);
    FlagEntries(values);
    assert Children(parent, 4, values) == Ok([]);
    ChildrenStep(parent, 3, values, [e1, e2], [], [e1, e2]);
  }

  /** A repeated tag with an attribute name takes the attribute from each pair's first
      element and the text from its second. */
  lemma AttributeTag()
    ensures Generated("test_ext", TestSchema,
        Map(map["desc" := Str("test xml"), "flag" := List([Tuple([Str("flag1"), Str("test1")]), Tuple([Str("flag2"), Str("test2")])])])) ==
      Ok(Element("test_ext", map[], None, [
        Leaf("desc", "test xml"),
        Element("flag", map["name" := Str("flag1")], Some(Str("test1")), []),
        Element("flag", map["name" := Str("flag2")], Some(Str("test2")), [])]))
  {
    AttributeTagIn(Map(map["desc" := Str("test xml"), "flag" := List([Tuple([Str("flag1"), Str("test1")]), Tuple([Str("flag2"), Str("test2")])])]));
  }

  lemma AttributeTagIn(values: Value)
    requires values.Map? && values.m.Keys == {"desc", "flag"} && values.m["desc"] == Str("test xml")
    requires values.m["flag"] == List([Tuple([Str("flag1"), Str("test1")]), Tuple([Str("flag2"), Str("test2")])])
    ensures Generated("test_ext", TestSchema, values) ==
      Ok(Element("test_ext", map[], None, [
        Leaf("desc", "test xml"),
        Element("flag", map["name" := Str("flag1")], Some(Str("test1")), []),
        Element("flag", map["name" := Str("flag2")], Some(Str("test2")), [])]))
  {
    var d := Leaf("desc", "test xml");
    var e1 := Element("flag", map["name" := Str("flag1")], Some(Str("test1")), []);
    var e2 := Element("flag", map["name" := Str("flag2")], Some(Str("test2")), []);
    FlagsAfterDesc(values);
    LeafTag(TestSchema[0], values, "test xml");
    GeneratedFirst("test_ext", TestSchema, values, [d], [e1, e2]);
    assert [d] + [e1, e2] == [d, e1, e2];
  }
}
