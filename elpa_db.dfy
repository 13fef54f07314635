/** The ELPA backend's database generator. The archive-contents file of an ELPA repository
    lists the repository's Emacs packages; process_data turns each entry that is not
    excluded by the configs into a package of category app-emacs. The s-expression file is
    taken as already parsed: a head value, which names the format, and one record per
    entry. The two copies of this generator in the repository (the gs-elpa and the g-elpa
    backends) do the same, so one module models both. */
module ElpaDb {
  import opened Wrappers
  import opened Strings
  import opened Values
  import opened Collections
  import opened PackageDb
  import opened Descriptions

  /** One entry of archive-contents: the package name, its version components, the names
      of its dependencies (their versions are not used), its description and its source
      kind. */
  datatype ArchiveEntry = ArchiveEntry(name: string, version: seq<int>, dependencies: seq<string>,
                                       description: string, sourceType: string)

  /** The parsed file: its car and the entries of its cdr. */
  datatype ArchiveContents = ArchiveContents(head: Value, entries: seq<ArchiveEntry>)

  const Category := "app-emacs"
  const DependencySeparator := "\n\t"
  const Maintainer: Value :=
    List([Map(map["email" := Str("piatlicki@gmail.com"), "name" := Str("Jauhien Piatlicki")])])
  const PropertyKeys: set<string> :=
    {"source_type", "description", "dependencies", "depend", "rdepend", "homepage",
     "repo_uri", "realname", "eclasses", "maintainer", "longdescription"}

  // Versions

  function VersionParts(components: seq<int>): seq<string>
  {
    seq(|components|, i requires 0 <= i < |components| => IntToString(components[i]))
  }

  /** '.'.join(map(str, components)). */
  function VersionString(components: seq<int>): string
  {
    Join(VersionParts(components), ".")
  }

  /** The dots of the version string are exactly the separators: splitting at them gives
      back the decimal form of every component. */
  lemma VersionRoundTrip(components: seq<int>)
    requires |components| > 0
    ensures Split(VersionString(components), '.') == VersionParts(components)
  {
    var parts := VersionParts(components);
    forall i | 0 <= i < |parts| ensures '.' !in parts[i] {
      assert parts[i] == IntToString(components[i]);
    }
    SplitJoin(parts, '.');
  }

  /** The version string is empty exactly when the entry has no version components. */
  lemma VersionEmpty(components: seq<int>)
    ensures VersionString(components) == "" <==> |components| == 0
  {
    var parts := VersionParts(components);
    if |parts| > 1 {
      assert Join(parts, ".") == parts[0] + "." + Join(parts[1..], ".");
    } else if |parts| == 1 {
      assert parts[0] == IntToString(components[0]);
    }
  }

  // Dependencies

  /** convert_internal_dependency: the dependency on app-emacs/name. */
  function InternalDependency(name: string): (r: Value)
    ensures GetAttr(r, "category") == Ok(Str(Category))
    ensures GetAttr(r, "package") == Ok(Str(name))
    ensures Truthy(r)
  {
    DependencyValue(Dependency(Category, name, "", ""))
  }

  /** convert_dependency(configs, name, external=False) with this generator's internal
      hook: a name the configs map to a truthy "external" entry gives None. */
  function ConvertedDependency(configs: seq<Value>, name: string): Result<Option<Value>>
  {
    var t :- Translated(configs, "external", name, Str(""));
    if Truthy(t) then Ok(None) else Ok(Some(InternalDependency(name)))
  }

  function Converter(configs: seq<Value>): string -> Result<Option<Value>>
  {
    name => ConvertedDependency(configs, name)
  }

  /** The configs leave `name` an internal dependency. */
  predicate Internal(configs: seq<Value>, name: string)
  {
    ConvertedDependency(configs, name) == Ok(Some(InternalDependency(name)))
  }

  /** `if dep: dependencies.append(dep)`. */
  function Kept(d: Option<Value>): seq<Value>
  {
    if d.Some? && Truthy(d.value) then [d.value] else []
  }

  function KeptAll(ds: seq<Option<Value>>): seq<Value>
    decreases |ds|
  {
    if |ds| == 0 then [] else KeptAll(ds[..|ds| - 1]) + Kept(ds[|ds| - 1])
  }

  /** The dependency loop of process_data: the names converted in order, the first error
      ending it, and the converted values that are not None kept. */
  function Dependencies(configs: seq<Value>, names: seq<string>): Result<seq<Value>>
  {
    var converted :- MapAll(Converter(configs), names);
    Ok(KeptAll(converted))
  }

  lemma {:induction false} KeptAllMembers(ds: seq<Option<Value>>)
    ensures forall v :: v in KeptAll(ds) <==> exists k :: 0 <= k < |ds| && ds[k] == Some(v) && Truthy(v)
    decreases |ds|
  {
    if |ds| > 0 {
      var init := ds[..|ds| - 1];
      KeptAllMembers(init);
      assert forall k :: 0 <= k < |init| ==> init[k] == ds[k];
    }
  }

  /** Without a rule that can raise, the dependency loop runs to its end. */
  lemma DependenciesOk(configs: seq<Value>, names: seq<string>)
    requires forall i :: 0 <= i < |configs| ==> TableConfig(configs[i], "external")
    ensures Dependencies(configs, names).Ok?
  {
    var f := Converter(configs);
    forall k | 0 <= k < |names| ensures f(names[k]).Ok? {
      TranslatedLastMatch(configs, "external", names[k], Str(""));
    }
    MapAllPointwise(f, names);
  }

  /** Without a rule that can raise, the dependency list holds the internal dependency of
      every name the configs leave internal, and nothing else. */
  lemma DependenciesMembers(configs: seq<Value>, names: seq<string>)
    requires forall i :: 0 <= i < |configs| ==> TableConfig(configs[i], "external")
    ensures Dependencies(configs, names).Ok?
    ensures forall v :: v in Dependencies(configs, names).value ==>
      exists n :: n in names && Internal(configs, n) && v == InternalDependency(n)
    ensures forall n :: n in names && Internal(configs, n) ==> InternalDependency(n) in Dependencies(configs, names).value
  {
    var f := Converter(configs);
    DependenciesOk(configs, names);
    MapAllPointwise(f, names);
    var converted := MapAll(f, names).value;
    KeptAllMembers(converted);
    forall v | v in KeptAll(converted)
      ensures exists n :: n in names && Internal(configs, n) && v == InternalDependency(n)
    {
      var k :| 0 <= k < |converted| && converted[k] == Some(v) && Truthy(v);
      assert f(names[k]).value == converted[k];
      assert Internal(configs, names[k]);
    }
    forall n | n in names && Internal(configs, n) ensures InternalDependency(n) in KeptAll(converted) {
      var k :| 0 <= k < |names| && names[k] == n;
      assert converted[k] == f(names[k]).value;
    }
  }

  /** A name that no config maps is internal; otherwise the last config that maps it
      decides, by the truth of its entry. */
  lemma InternalIff(configs: seq<Value>, name: string)
    requires forall i :: 0 <= i < |configs| ==> TableConfig(configs[i], "external")
    ensures (forall i :: 0 <= i < |configs| ==> !Matches(configs[i], "external", name)) ==> Internal(configs, name)
    ensures forall i :: (0 <= i < |configs| && Matches(configs[i], "external", name) &&
      (forall j :: i < j < |configs| ==> !Matches(configs[j], "external", name))) ==>
      (Internal(configs, name) <==> !Truthy(configs[i].m["external"].m[name]))
  {
    TranslatedLastMatch(configs, "external", name, Str(""));
  }

  // Entries

  /** The package an entry is stored as. */
  function PackageOf(e: ArchiveEntry): Package
  {
    Package(Category, e.name, VersionString(e.version))
  }

  /** The property map built for an entry. */
  function Properties(e: ArchiveEntry, repoUri: Value, deps: seq<Value>): Props
  {
    var description := Str(Filtered(e.description));
    var dependencies := ElistValue(deps, DependencySeparator);
    map["source_type" := Str(e.sourceType), "description" := description,
        "dependencies" := dependencies, "depend" := dependencies, "rdepend" := dependencies,
        "homepage" := repoUri, "repo_uri" := repoUri, "realname" := Str(e.name),
        "eclasses" := List([Str("g-elpa")]), "maintainer" := Maintainer,
        "longdescription" := description]
  }

  /** One turn of the entry loop up to add_package: None for an excluded entry, else the
      package and its properties. */
  function EntryRecord(configs: seq<Value>, repoUri: Value, e: ArchiveEntry): Result<Option<(Package, Props)>>
  {
    var excluded :- InConfigs(configs, "exclude", e.name);
    if excluded then Ok(None)
    else
      var deps :- Dependencies(configs, e.dependencies);
      Ok(Some((PackageOf(e), Properties(e, repoUri, deps))))
  }

  /** The entry reaches add_package. */
  predicate Added(configs: seq<Value>, repoUri: Value, e: ArchiveEntry)
  {
    EntryRecord(configs, repoUri, e).Ok? && EntryRecord(configs, repoUri, e).value.Some?
  }

  /** A record that reaches add_package is the entry's package with the property map of
      its dependency list. */
  lemma EntryRecordAdded(configs: seq<Value>, repoUri: Value, e: ArchiveEntry)
    requires Added(configs, repoUri, e)
    ensures Dependencies(configs, e.dependencies).Ok?
    ensures EntryRecord(configs, repoUri, e) ==
      Ok(Some((PackageOf(e), Properties(e, repoUri, Dependencies(configs, e.dependencies).value))))
  {
  }

  /** What the property map holds: the filtered description as both descriptions, one
      dependency list under three keys, the repository URI as homepage, and the fixed
      eclass and maintainer. */
  lemma PropertiesFields(e: ArchiveEntry, repoUri: Value, deps: seq<Value>)
    ensures Properties(e, repoUri, deps).Keys == PropertyKeys
    ensures var d := Properties(e, repoUri, deps);
      d["description"] == Str(Filtered(e.description)) && d["longdescription"] == d["description"]
    ensures var d := Properties(e, repoUri, deps);
      d["dependencies"] == ElistValue(deps, DependencySeparator) &&
      d["depend"] == d["dependencies"] && d["rdepend"] == d["dependencies"]
    ensures var d := Properties(e, repoUri, deps);
      d["homepage"] == repoUri && d["repo_uri"] == repoUri && d["realname"] == Str(e.name) &&
      d["eclasses"] == List([Str("g-elpa")]) && d["maintainer"] == Maintainer
  {
    PropertiesKeys(e, repoUri, deps);
    PropertiesDescriptions(e, repoUri, deps);
    PropertiesDependencies(e, repoUri, deps);
    PropertiesFixed(e, repoUri, deps);
  }

  lemma PropertiesKeys(e: ArchiveEntry, repoUri: Value, deps: seq<Value>)
    ensures Properties(e, repoUri, deps).Keys == PropertyKeys
  {
  }

  lemma PropertiesDescriptions(e: ArchiveEntry, repoUri: Value, deps: seq<Value>)
    ensures var d := Properties(e, repoUri, deps);
      d["description"] == Str(Filtered(e.description)) && d["longdescription"] == d["description"]
  {
  }

  lemma PropertiesDependencies(e: ArchiveEntry, repoUri: Value, deps: seq<Value>)
    ensures var d := Properties(e, repoUri, deps);
      d["dependencies"] == ElistValue(deps, DependencySeparator) &&
      d["depend"] == d["dependencies"] && d["rdepend"] == d["dependencies"]
  {
  }

  lemma PropertiesFixed(e: ArchiveEntry, repoUri: Value, deps: seq<Value>)
    ensures var d := Properties(e, repoUri, deps);
      d["homepage"] == repoUri && d["repo_uri"] == repoUri && d["realname"] == Str(e.name) &&
      d["eclasses"] == List([Str("g-elpa")]) && d["maintainer"] == Maintainer
  {
  }

  /** An entry whose name some config lists under "exclude" is skipped; any other reaches
      add_package when no config rule can raise. */
  lemma EntryExcluded(configs: seq<Value>, repoUri: Value, e: ArchiveEntry)
    requires forall i :: 0 <= i < |configs| ==> ListConfig(configs[i], "exclude", e.name)
    requires forall i :: 0 <= i < |configs| ==> TableConfig(configs[i], "external")
    ensures (exists i :: 0 <= i < |configs| && Listed(configs[i], "exclude", e.name)) ==>
      EntryRecord(configs, repoUri, e) == Ok(None)
    ensures !(exists i :: 0 <= i < |configs| && Listed(configs[i], "exclude", e.name)) ==>
      Added(configs, repoUri, e)
  {
    InConfigsIff(configs, "exclude", e.name);
    DependenciesOk(configs, e.dependencies);
  }

  // The entry loop

  /** One entry's effect on the store. */
  function IngestStep(s: Store, configs: seq<Value>, repoUri: Value, e: ArchiveEntry): Result<Store>
  {
    var rec :- EntryRecord(configs, repoUri, e);
    if rec.None? then Ok(s) else WithPackage(s, rec.value.0, rec.value.1)
  }

  /** The entry loop: the store after the entries in order, and the outcome; an error
      ends the loop and leaves the packages added before it. */
  function Ingested(s: Store, configs: seq<Value>, repoUri: Value, entries: seq<ArchiveEntry>): (Store, Result<()>)
    decreases |entries|
  {
    if |entries| == 0 then (s, Ok(()))
    else
      match IngestStep(s, configs, repoUri, entries[0])
      case Err(e) => (s, Err(e))
      case Ok(next) => Ingested(next, configs, repoUri, entries[1..])
  }

  lemma IngestStepChanges(s: Store, configs: seq<Value>, repoUri: Value, e: ArchiveEntry)
    requires IngestStep(s, configs, repoUri, e).Ok?
    ensures IngestStep(s, configs, repoUri, e).value.categories == s.categories
    ensures Consistent(s) ==> Consistent(IngestStep(s, configs, repoUri, e).value)
    ensures forall c, n, v :: VersionOf(IngestStep(s, configs, repoUri, e).value.database, c, n, v) != VersionOf(s.database, c, n, v) ==>
      Added(configs, repoUri, e) && Package(c, n, v) == PackageOf(e)
  {
  }

  /** The entry loop keeps the categories, and the store's consistency. */
  lemma {:induction false} IngestedCategories(s: Store, configs: seq<Value>, repoUri: Value, entries: seq<ArchiveEntry>)
    ensures Ingested(s, configs, repoUri, entries).0.categories == s.categories
    ensures Consistent(s) ==> Consistent(Ingested(s, configs, repoUri, entries).0)
    decreases |entries|
  {
    if |entries| > 0 && IngestStep(s, configs, repoUri, entries[0]).Ok? {
      var next := IngestStep(s, configs, repoUri, entries[0]).value;
      IngestStepChanges(s, configs, repoUri, entries[0]);
      IngestedCategories(next, configs, repoUri, entries[1..]);
    }
  }

  /** Only versions of entries that reach add_package change. */
  lemma {:induction false} IngestedChanges(s: Store, configs: seq<Value>, repoUri: Value, entries: seq<ArchiveEntry>)
    ensures forall c, n, v :: VersionOf(Ingested(s, configs, repoUri, entries).0.database, c, n, v) != VersionOf(s.database, c, n, v) ==>
      exists i :: 0 <= i < |entries| && Added(configs, repoUri, entries[i]) && Package(c, n, v) == PackageOf(entries[i])
    decreases |entries|
  {
    if |entries| > 0 && IngestStep(s, configs, repoUri, entries[0]).Ok? {
      var next := IngestStep(s, configs, repoUri, entries[0]).value;
      var rest := entries[1..];
      IngestStepChanges(s, configs, repoUri, entries[0]);
      IngestedChanges(next, configs, repoUri, rest);
      var result := Ingested(s, configs, repoUri, entries).0;
      forall c, n, v | VersionOf(result.database, c, n, v) != VersionOf(s.database, c, n, v)
        ensures exists i :: 0 <= i < |entries| && Added(configs, repoUri, entries[i]) && Package(c, n, v) == PackageOf(entries[i])
      {
        if VersionOf(result.database, c, n, v) != VersionOf(next.database, c, n, v) {
          var j :| 0 <= j < |rest| && Added(configs, repoUri, rest[j]) && Package(c, n, v) == PackageOf(rest[j]);
          assert rest[j] == entries[j + 1];
        } else {
          assert Added(configs, repoUri, entries[0]) && Package(c, n, v) == PackageOf(entries[0]);
        }
      }
    }
  }

  /** When the loop runs to its end, an entry that reaches add_package and is not
      followed by another entry for the same package is stored with its record. */
  lemma {:induction false} IngestedStores(s: Store, configs: seq<Value>, repoUri: Value, entries: seq<ArchiveEntry>, i: nat)
    requires Ingested(s, configs, repoUri, entries).1.Ok?
    requires i < |entries| && Added(configs, repoUri, entries[i])
    requires forall j :: i < j < |entries| && Added(configs, repoUri, entries[j]) ==> PackageOf(entries[j]) != PackageOf(entries[i])
    ensures var p := PackageOf(entries[i]);
      VersionOf(Ingested(s, configs, repoUri, entries).0.database, p.category, p.name, p.version) ==
      Some(EntryRecord(configs, repoUri, entries[i]).value.value.1)
    decreases |entries|
  {
    var next := IngestStep(s, configs, repoUri, entries[0]).value;
    var rest := entries[1..];
    var p := PackageOf(entries[i]);
    if i == 0 {
      IngestedChanges(next, configs, repoUri, rest);
      assert forall j :: 0 <= j < |rest| ==> rest[j] == entries[j + 1];
    } else {
      forall j | i - 1 < j < |rest| && Added(configs, repoUri, rest[j]) ensures PackageOf(rest[j]) != PackageOf(rest[i - 1]) {
        assert rest[j] == entries[j + 1];
      }
      IngestedStores(next, configs, repoUri, rest, i - 1);
    }
  }

  /** From a store that holds the category, the loop runs to its end exactly when every
      entry that is not excluded has a name and at least one version component, as long
      as no config rule can raise. */
  lemma {:induction false} IngestedSucceeds(s: Store, configs: seq<Value>, repoUri: Value, entries: seq<ArchiveEntry>)
    requires Category in s.categories
    requires forall i, k :: 0 <= i < |configs| && 0 <= k < |entries| ==> ListConfig(configs[i], "exclude", entries[k].name)
    requires forall i :: 0 <= i < |configs| ==> TableConfig(configs[i], "external")
    ensures Ingested(s, configs, repoUri, entries).1.Ok? <==>
      forall k :: 0 <= k < |entries| ==>
        (InConfigs(configs, "exclude", entries[k].name) == Ok(true) || (entries[k].name != "" && |entries[k].version| > 0))
    decreases |entries|
  {
    if |entries| > 0 {
      var e := entries[0];
      var rest := entries[1..];
      assert forall k :: 0 <= k < |rest| ==> rest[k] == entries[k + 1];
      IngestStepSucceeds(s, configs, repoUri, e);
      if IngestStep(s, configs, repoUri, e).Ok? {
        IngestedSucceeds(IngestStep(s, configs, repoUri, e).value, configs, repoUri, rest);
      }
    }
  }

  /** One entry passes exactly when it is excluded or has a name and a version. */
  lemma IngestStepSucceeds(s: Store, configs: seq<Value>, repoUri: Value, e: ArchiveEntry)
    requires Category in s.categories
    requires forall i :: 0 <= i < |configs| ==> ListConfig(configs[i], "exclude", e.name)
    requires forall i :: 0 <= i < |configs| ==> TableConfig(configs[i], "external")
    ensures IngestStep(s, configs, repoUri, e).Ok? <==>
      (InConfigs(configs, "exclude", e.name) == Ok(true) || (e.name != "" && |e.version| > 0))
    ensures IngestStep(s, configs, repoUri, e).Ok? ==> IngestStep(s, configs, repoUri, e).value.categories == s.categories
  {
    EntryRecordOutcome(configs, repoUri, e);
    VersionEmpty(e.version);
    IngestStepOf(s, configs, repoUri, e, EntryRecord(configs, repoUri, e).value);
  }

  /** IngestStep once the entry's record is known. */
  lemma IngestStepOf(s: Store, configs: seq<Value>, repoUri: Value, e: ArchiveEntry, rec: Option<(Package, Props)>)
    requires EntryRecord(configs, repoUri, e) == Ok(rec)
    ensures rec.None? ==> IngestStep(s, configs, repoUri, e) == Ok(s)
    ensures rec.Some? ==> IngestStep(s, configs, repoUri, e) == WithPackage(s, rec.value.0, rec.value.1)
  {
  }

  /** With well-formed configs, an entry's record is None exactly when it is excluded,
      and otherwise names the entry's package. */
  lemma EntryRecordOutcome(configs: seq<Value>, repoUri: Value, e: ArchiveEntry)
    requires forall i :: 0 <= i < |configs| ==> ListConfig(configs[i], "exclude", e.name)
    requires forall i :: 0 <= i < |configs| ==> TableConfig(configs[i], "external")
    ensures EntryRecord(configs, repoUri, e).Ok?
    ensures EntryRecord(configs, repoUri, e).value.None? <==> InConfigs(configs, "exclude", e.name) == Ok(true)
    ensures EntryRecord(configs, repoUri, e).value.Some? ==> EntryRecord(configs, repoUri, e).value.value.0 == PackageOf(e)
  {
    InConfigsIff(configs, "exclude", e.name);
    DependenciesOk(configs, e.dependencies);
    EntryRecordCases(configs, repoUri, e, InConfigs(configs, "exclude", e.name).value,
      Dependencies(configs, e.dependencies).value);
  }

  /** EntryRecord once the exclusion test and the dependency loop have succeeded. */
  lemma EntryRecordCases(configs: seq<Value>, repoUri: Value, e: ArchiveEntry, excluded: bool, deps: seq<Value>)
    requires InConfigs(configs, "exclude", e.name) == Ok(excluded)
    requires Dependencies(configs, e.dependencies) == Ok(deps)
    ensures excluded ==> EntryRecord(configs, repoUri, e) == Ok(None)
    ensures !excluded ==> EntryRecord(configs, repoUri, e) == Ok(Some((PackageOf(e), Properties(e, repoUri, deps))))
  {
  }

  /** Names some config excludes keep whatever versions the store had. */
  lemma ExcludedUntouched(s: Store, configs: seq<Value>, repoUri: Value, entries: seq<ArchiveEntry>, name: string)
    requires InConfigs(configs, "exclude", name) == Ok(true)
    ensures forall v ::
      VersionOf(Ingested(s, configs, repoUri, entries).0.database, Category, name, v) == VersionOf(s.database, Category, name, v)
  {
    IngestedChanges(s, configs, repoUri, entries);
  }

  // process_data

  /** process_data: data['archive-contents'] and config["repo_uri"] are looked up first; a
      head other than 1 raises SyncError (a TypeError when the URI is not a string, since
      the message concatenates it) before anything changes; otherwise app-emacs is added
      and the entries are processed with [common_config, config]. */
  function Processed(s: Store, data: map<string, ArchiveContents>, commonConfig: Value, config: Value): (Store, Result<()>)
  {
    if "archive-contents" !in data then (s, Err(KeyError))
    else
      var archive := data["archive-contents"];
      match Lookup(config, "repo_uri")
      case Err(e) => (s, Err(e))
      case Ok(uri) =>
        if !NumEq(archive.head, 1) then (s, Err(if uri.Str? then SyncError else TypeError))
        else Ingested(WithCategory(s, Category, Null), [commonConfig, config], uri, archive.entries)
  }

  /** process_data either leaves the store alone, or registers app-emacs (and only it); it
      succeeds only on a format-1 archive, leaving app-emacs registered. */
  lemma ProcessedCategories(s: Store, data: map<string, ArchiveContents>, commonConfig: Value, config: Value)
    ensures Processed(s, data, commonConfig, config).0 == s ||
      Processed(s, data, commonConfig, config).0.categories.Keys == s.categories.Keys + {Category}
    ensures Processed(s, data, commonConfig, config).1.Ok? ==>
      "archive-contents" in data && NumEq(data["archive-contents"].head, 1) &&
      Category in Processed(s, data, commonConfig, config).0.categories
    ensures "archive-contents" in data && !NumEq(data["archive-contents"].head, 1) ==>
      Processed(s, data, commonConfig, config).0 == s && Processed(s, data, commonConfig, config).1.Err?
  {
    if "archive-contents" in data && Lookup(config, "repo_uri").Ok? && NumEq(data["archive-contents"].head, 1) {
      IngestedCategories(WithCategory(s, Category, Null), [commonConfig, config],
                         Lookup(config, "repo_uri").value, data["archive-contents"].entries);
    }
  }

  method ConvertDependencies(configs: seq<Value>, names: seq<string>) returns (r: Result<seq<Value>>)
    ensures r == Dependencies(configs, names)
  {
    var deps: seq<Value> := [];
    ghost var converted: seq<Option<Value>> := [];
    var i := 0;
    while i < |names|
      invariant 0 <= i <= |names|
      invariant MapAll(Converter(configs), names[..i]) == Ok(converted)
      invariant deps == KeptAll(converted)
    {
      var d := ConvertDependency(configs, names[i], false, InternalDependency, v => v);
      DependencyStep(configs, names, i, converted, d);
      if d.Err? {
        return Err(d.error);
      }
      deps := deps + Kept(d.value);
      converted := converted + [d.value];
      i := i + 1;
    }
    DependenciesDone(configs, names, converted);
    r := Ok(deps);
  }

  /** One turn of the dependency loop: the converted list grows by one, or the walk fails. */
  lemma DependencyStep(configs: seq<Value>, names: seq<string>, i: nat, converted: seq<Option<Value>>,
                       d: Result<Option<Value>>)
    requires i < |names| && MapAll(Converter(configs), names[..i]) == Ok(converted)
    requires d == ConvertedDependency(configs, names[i])
    ensures d.Ok? ==> MapAll(Converter(configs), names[..i + 1]) == Ok(converted + [d.value])
    ensures d.Ok? ==> KeptAll(converted + [d.value]) == KeptAll(converted) + Kept(d.value)
    ensures d.Err? ==> Dependencies(configs, names) == Err(d.error)
  {
    assert d == Converter(configs)(names[i]);
    MapAllSnoc(Converter(configs), names, i, converted);
    if d.Ok? {
      assert (converted + [d.value])[..|converted|] == converted;
    }
  }

  lemma DependenciesDone(configs: seq<Value>, names: seq<string>, converted: seq<Option<Value>>)
    requires MapAll(Converter(configs), names[..|names|]) == Ok(converted)
    ensures Dependencies(configs, names) == Ok(KeptAll(converted))
  {
    assert names[..|names|] == names;
  }

  method Record(configs: seq<Value>, repoUri: Value, e: ArchiveEntry) returns (r: Result<Option<(Package, Props)>>)
    ensures r == EntryRecord(configs, repoUri, e)
  {
    var excluded := InConfig(configs, "exclude", e.name);
    if excluded.Err? {
      return Err(excluded.error);
    }
    if excluded.value {
      return Ok(None);
    }
    var deps := ConvertDependencies(configs, e.dependencies);
    if deps.Err? {
      return Err(deps.error);
    }
    return Ok(Some((PackageOf(e), Properties(e, repoUri, deps.value))));
  }

  /** ElpaDBGenerator.process_data on the package database. */
  method ProcessData(db: PackageDB, data: map<string, ArchiveContents>, commonConfig: Value, config: Value)
    returns (r: Result<()>)
    modifies db
    ensures (db.Contents(), r) == Processed(old(db.Contents()), data, commonConfig, config)
  {
    if "archive-contents" !in data {
      return Err(KeyError);
    }
    var archive := data["archive-contents"];
    var uri := Lookup(config, "repo_uri");
    if uri.Err? {
      return Err(uri.error);
    }
    if !NumEq(archive.head, 1) {
      return Err(if uri.value.Str? then SyncError else TypeError);
    }
    db.AddCategory(Category, Null);
    r := Ingest(db, [commonConfig, config], uri.value, archive.entries);
  }

  /** The entry loop of process_data. */
  method Ingest(db: PackageDB, configs: seq<Value>, repoUri: Value, entries: seq<ArchiveEntry>) returns (r: Result<()>)
    modifies db
    ensures (db.Contents(), r) == Ingested(old(db.Contents()), configs, repoUri, entries)
  {
    var i := 0;
    while i < |entries|
      invariant 0 <= i <= |entries|
      invariant Ingested(old(db.Contents()), configs, repoUri, entries) == Ingested(db.Contents(), configs, repoUri, entries[i..])
    {
      assert entries[i..][0] == entries[i] && entries[i..][1..] == entries[i + 1..];
      var rec := Record(configs, repoUri, entries[i]);
      if rec.Err? {
        return Err(rec.error);
      }
      if rec.value.Some? {
        var res := db.AddPackage(rec.value.value.0, rec.value.value.1);
        if res.Err? {
          return res;
        }
      }
      i := i + 1;
    }
    r := Ok(());
  }
}
