/** The on-disk layout of the package database (g_sorcery/db_layout.py): file names,
    layout versions, the metadata file, the manifest of content hashes, and reading and
    writing a whole database directory. */
module DbLayout {
  import opened Wrappers
  import opened Strings
  import opened Values
  import opened Serialization
  import opened FileSystem
  import opened FileUtils

  const CategoriesFileName := "categories"
  const ManifestFileName := "manifest"
  const MetadataFileName := "metadata"
  const PackagesFileName := "packages"
  const JsonSuffix := "json"
  const BsonSuffix := "bson"

  /** The packages-file formats: JSON always, BSON only when its library imports. */
  const SupportedFileFormats: set<string> := {JsonSuffix}

  /** file_name: a name and a suffix joined by a dot. */
  function FileName(name: string, suffix: string): (r: string)
    ensures |r| == |name| + 1 + |suffix|
    ensures r[|name|] == '.'
  {
    name + "." + suffix
  }

  /** A dot-free suffix can be told apart from the name again. */
  lemma FileNameInjective(n1: string, s1: string, n2: string, s2: string)
    requires '.' !in s1 && '.' !in s2
    requires FileName(n1, s1) == FileName(n2, s2)
    ensures n1 == n2 && s1 == s2
  {
    assert FileName(n1, s1) == n1 + ['.'] + s1;
    assert FileName(n2, s2) == n2 + ['.'] + s2;
    LastSeparatorSplits(n1, s1, n2, s2, '.');
  }

  const CategoriesFile := FileName(CategoriesFileName, JsonSuffix)
  const ManifestFile := FileName(ManifestFileName, JsonSuffix)
  const MetadataFile := FileName(MetadataFileName, JsonSuffix)

  lemma FileNameConstants()
    ensures CategoriesFile == "categories.json"
    ensures ManifestFile == "manifest.json"
    ensures MetadataFile == "metadata.json"
    ensures FileName(PackagesFileName, JsonSuffix) == "packages.json"
  {
  }

  /** None of the top-level file names contains a '/'. */
  lemma TopNamesFlat()
    ensures '/' !in CategoriesFile && '/' !in ManifestFile && '/' !in MetadataFile
    ensures '/' !in ClassKey
  {
    FileNameConstants();
    assert forall i :: 0 <= i < |"categories.json"| ==> "categories.json"[i] != '/';
    assert forall i :: 0 <= i < |"manifest.json"| ==> "manifest.json"[i] != '/';
    assert forall i :: 0 <= i < |"metadata.json"| ==> "metadata.json"[i] != '/';
    assert forall i :: 0 <= i < |"python_class"| ==> "python_class"[i] != '/';
  }

  /** What get_layout returns: the packages-file suffix of the category class, and the
      files the manifest must list. */
  datatype Layout = Layout(categoryFormat: string, mandatoryFiles: seq<string>)

  /** get_layout as written. The error message of the last branch is built as
      string + layout_version, and the format error as string + category_format, so
      a value that is not a string raises TypeError instead of DBLayoutError. */
  function GetLayoutAsWritten(metadata: Value): Result<Layout>
  {
    var version :- Lookup(metadata, "layout_version");
    if NumEq(version, 0) then Ok(Layout(JsonSuffix, [CategoriesFile]))
    else if NumEq(version, 1) then
      var format :- Lookup(metadata, "category_format");
      if format.Str? && format.s in SupportedFileFormats then
        Ok(Layout(format.s, [CategoriesFile, MetadataFile]))
      else if format.Str? then Err(DBLayoutError)
      else Err(TypeError)
    else if version.Str? then Err(DBLayoutError)
    else Err(TypeError)
  }

  /** get_layout as intended: every unsupported layout version or packages format is a
      DBLayoutError. */
  function GetLayout(metadata: Value): (r: Result<Layout>)
    ensures r.Ok? ==> CategoriesFile in r.value.mandatoryFiles && r.value.categoryFormat in SupportedFileFormats
    ensures r.Ok? ==> |r.value.mandatoryFiles| in {1, 2}
    ensures r.Ok? ==>
      metadata.Map? && "layout_version" in metadata.m &&
      (MetadataFile in r.value.mandatoryFiles <==> !NumEq(metadata.m["layout_version"], 0))
    ensures !metadata.Map? ==> r == Err(TypeError)
    ensures metadata.Map? && "layout_version" !in metadata.m ==> r == Err(KeyError)
    ensures metadata.Map? && r.Err? ==> r.error == DBLayoutError || r.error == KeyError
  {
    var version :- Lookup(metadata, "layout_version");
    if NumEq(version, 0) then Ok(Layout(JsonSuffix, [CategoriesFile]))
    else if NumEq(version, 1) then
      var format :- Lookup(metadata, "category_format");
      if format.Str? && format.s in SupportedFileFormats then
        Ok(Layout(format.s, [CategoriesFile, MetadataFile]))
      else Err(DBLayoutError)
    else Err(DBLayoutError)
  }

  /** The two definitions agree wherever the source does not build an error message. */
  lemma GetLayoutAgrees(metadata: Value)
    ensures GetLayoutAsWritten(metadata).Ok? <==> GetLayout(metadata).Ok?
    ensures GetLayoutAsWritten(metadata).Ok? ==> GetLayoutAsWritten(metadata) == GetLayout(metadata)
  {
  }

  /** The input that shows the difference: layout version 2. */
  lemma GetLayoutUnknownVersion()
    ensures GetLayoutAsWritten(Map(map["layout_version" := Int(2)])) == Err(TypeError)
    ensures GetLayout(Map(map["layout_version" := Int(2)])) == Err(DBLayoutError)
  {
  }

  /** The resources the layout code needs: the decoding registry and the file hash. */
  datatype Env = Env(reg: Registry, md5: Hasher)

  function ManifestJson(dir: string): FileJson
  {
    FileJson(dir, ManifestFile, [])
  }

  function CategoriesJson(dir: string): FileJson
  {
    FileJson(dir, CategoriesFile, [])
  }

  const MetadataKeys := ["db_version", "layout_version", "category_format"]

  function MetadataJson(dir: string): FileJson
  {
    FileJson(dir, MetadataFile, MetadataKeys)
  }

  /** The packages file of one category in the given format (CategoryJSON). */
  function CategoryJson(dir: string, category: string, format: string): FileJson
  {
    FileJson(PathJoin(dir, category), FileName(PackagesFileName, format), [])
  }

  /** The metadata a database without a metadata file has: the legacy layout. */
  const LegacyMetadata := Map(map["db_version" := Int(0), "layout_version" := Int(0), "category_format" := Str(JsonSuffix)])

  lemma LegacyMetadataLayout()
    ensures GetLayout(LegacyMetadata) == Ok(Layout(JsonSuffix, [CategoriesFile]))
    ensures CheckKeys(LegacyMetadata, MetadataKeys).Ok?
  {
  }

  /** The result of FileJSON.read as a function of the files before the call. */
  function ReadOutcome(f: FileJson, files: map<string, FileData>, reg: Registry): Result<Value>
  {
    if f.Path() in files then ReadContent(files[f.Path()], reg, f.mandatories)
    else Ok(EmptyContent(f.mandatories))
  }

  /** The files after FileJSON.read: a missing file has been created. */
  function AfterRead(f: FileJson, files: map<string, FileData>): (r: map<string, FileData>)
    ensures r.Keys == files.Keys + {f.Path()}
    ensures forall p :: p in files ==> r[p] == files[p]
  {
    if f.Path() in files then files else files[f.Path() := Json(EmptyContent(f.mandatories))]
  }

  /** Metadata.read: an absent file means the legacy layout and is not created; a
      present file must hold all three keys. */
  function MetadataOutcome(dir: string, files: map<string, FileData>, reg: Registry): (r: Result<Value>)
    ensures MetadataJson(dir).Path() !in files ==> r == Ok(LegacyMetadata)
    ensures r.Ok? && r.value.Map? ==> forall k :: k in MetadataKeys ==> k in r.value.m
  {
    if MetadataJson(dir).Path() in files then ReadContent(files[MetadataJson(dir).Path()], reg, MetadataKeys)
    else Ok(LegacyMetadata)
  }

  method ReadMetadata(dir: string, disk: Disk, reg: Registry) returns (r: Result<Value>)
    modifies disk
    ensures r == MetadataOutcome(dir, old(disk.files), reg)
    ensures disk.files == old(disk.files) && disk.dirs == old(disk.dirs) + {dir}
  {
    disk.MakeDirs(dir);
    var f := MetadataJson(dir);
    if f.Path() !in disk.files {
      return Ok(LegacyMetadata);
    }
    var data := disk.files[f.Path()];
    if data.Unparsable? {
      return Err(ValueError);
    }
    var decoded := Decode(reg, data.tree);
    if decoded.Err? {
      return decoded;
    }
    var checked := CheckMandatories(decoded.value, MetadataKeys);
    if checked.Err? {
      return Err(checked.error);
    }
    return decoded;
  }

  /** `for category in categories` over the decoded categories file: the keys of a
      dict. Iterating any other value is not modelled and reported as TypeError. */
  function CategoryNames(categories: Value): (r: Result<set<string>>)
    ensures categories.Map? <==> r.Ok?
    ensures r.Ok? ==> r.value == categories.m.Keys
  {
    if categories.Map? then Ok(categories.m.Keys) else Err(TypeError)
  }

  /** The hash comparison of Manifest.check over the recorded entries: a listed file
      that is missing is an IOError; otherwise the result is the set of names whose
      recorded value differs from the current hash. */
  function ManifestErrors(files: map<string, FileData>, dir: string, m: Props, md5: Hasher): (r: Result<set<string>>)
    ensures r.Ok? <==> forall n :: n in m ==> PathJoin(dir, n) in files
    ensures r.Err? ==> r.error == IOError
    ensures r.Ok? ==> forall n :: n in r.value <==> n in m && m[n] != Str(md5(files[PathJoin(dir, n)]))
  {
    if exists n :: n in m && PathJoin(dir, n) !in files then Err(IOError)
    else Ok(set n | n in m && m[n] != Str(md5(files[PathJoin(dir, n)])))
  }

  /** Manifest.check: read the manifest, which must list categories.json, then compare
      every entry with the current hash of its file. */
  function CheckOutcome(files: map<string, FileData>, dir: string, env: Env): (r: Result<set<string>>)
    ensures r.Ok? ==> ManifestJson(dir).Path() in files
    ensures r.Ok? ==> CategoriesJson(dir).Path() in files
  {
    var manifest :- ReadOutcome(ManifestJson(dir), files, env.reg);
    var listed :- Contains(manifest, CategoriesFile);
    if !listed then Err(DBLayoutError)
    else if !manifest.Map? then Err(AttributeError)
    else ManifestErrors(files, dir, manifest.m, env.md5)
  }

  /** The loop of Manifest.check over manifest.items(), in any order. */
  method CompareHashes(disk: Disk, dir: string, m: Props, md5: Hasher) returns (r: Result<set<string>>)
    ensures r == ManifestErrors(disk.files, dir, m, md5)
  {
    var todo := m.Keys;
    var errors: set<string> := {};
    while todo != {}
      invariant todo <= m.Keys
      invariant forall n :: n in m && n !in todo ==> PathJoin(dir, n) in disk.files
      invariant errors == set n | n in m && n !in todo && m[n] != Str(md5(disk.files[PathJoin(dir, n)]))
      decreases todo
    {
      var n :| n in todo;
      var h := disk.HashFile(PathJoin(dir, n), md5);
      if h.Err? {
        return Err(IOError);
      }
      if m[n] != Str(h.value) {
        errors := errors + {n};
      }
      todo := todo - {n};
    }
    var expected := ManifestErrors(disk.files, dir, m, md5);
    assert forall n :: n in m ==> PathJoin(dir, n) in disk.files;
    assert expected.Ok?;
    assert forall n :: n in errors <==> n in expected.value;
    assert errors == expected.value;
    return Ok(errors);
  }

  /** Manifest.check. */
  method CheckManifestFile(dir: string, disk: Disk, env: Env) returns (r: Result<set<string>>)
    modifies disk
    ensures r == CheckOutcome(old(disk.files), dir, env)
    ensures disk.files == AfterRead(ManifestJson(dir), old(disk.files))
    ensures disk.dirs == old(disk.dirs) + {dir}
  {
    var manifest := ManifestJson(dir).Read(disk, env.reg);
    if manifest.Err? {
      return Err(manifest.error);
    }
    var listed := Contains(manifest.value, CategoriesFile);
    if listed.Err? {
      return Err(listed.error);
    }
    if !listed.value {
      return Err(DBLayoutError);
    }
    if !manifest.value.Map? {
      return Err(AttributeError);
    }
    r := CompareHashes(disk, dir, manifest.value.m, env.md5);
  }

  /** `p` lies below the directory of one of the categories. */
  predicate InSomeCategory(p: string, dir: string, names: set<string>)
  {
    exists c :: c in names && Under(p, PathJoin(dir, c))
  }

  /** The manifest keys os.walk produces for the category directories: the paths,
      relative to the database directory, of every file below one of them. */
  function CategoryFileKeys(files: map<string, FileData>, dir: string, names: set<string>): set<string>
  {
    set p | p in files && Under(p, dir) && InSomeCategory(p, dir, names) :: RelPath(p, dir)
  }

  /** What a category key looks like: it names a file below a category directory, and
      so it contains a '/'. */
  lemma CategoryKeyFacts(files: map<string, FileData>, dir: string, names: set<string>, k: string)
    requires k in CategoryFileKeys(files, dir, names)
    ensures PathJoin(dir, k) in files
    ensures '/' in k
  {
    var p :| p in files && Under(p, dir) && InSomeCategory(p, dir, names) && k == RelPath(p, dir);
    var c :| c in names && Under(p, PathJoin(dir, c));
    RelPathUnderSub(p, dir, c);
    assert k[|c|] == '/';
  }

  lemma CategoryFileKeysAdd(files: map<string, FileData>, dir: string, names: set<string>, c: string)
    ensures CategoryFileKeys(files, dir, names + {c}) ==
            CategoryFileKeys(files, dir, names) + CategoryFileKeys(files, dir, {c})
  {
    forall p | p in files && Under(p, dir)
      ensures InSomeCategory(p, dir, names + {c}) <==> InSomeCategory(p, dir, names) || InSomeCategory(p, dir, {c})
    {
      if InSomeCategory(p, dir, names + {c}) {
        var d :| d in names + {c} && Under(p, PathJoin(dir, d));
        if d != c {
          assert InSomeCategory(p, dir, names);
        } else {
          assert InSomeCategory(p, dir, {c});
        }
      }
    }
  }

  /** The keys of the manifest digest writes: the mandatory files and the category files. */
  function DigestKeys(files: map<string, FileData>, dir: string, mandatory: seq<string>, names: set<string>): set<string>
  {
    (set n | n in mandatory) + CategoryFileKeys(files, dir, names)
  }

  /** Each key whose file exists, mapped to the hash of that file. */
  function HashesOf(files: map<string, FileData>, dir: string, keys: set<string>, md5: Hasher): (r: Props)
    ensures forall k :: k in r <==> k in keys && PathJoin(dir, k) in files
    ensures forall k :: k in r ==> r[k] == Str(md5(files[PathJoin(dir, k)]))
  {
    map k | k in keys && PathJoin(dir, k) in files :: Str(md5(files[PathJoin(dir, k)]))
  }

  lemma HashesOfUnion(files: map<string, FileData>, dir: string, a: set<string>, b: set<string>, md5: Hasher)
    ensures HashesOf(files, dir, a, md5) + HashesOf(files, dir, b, md5) == HashesOf(files, dir, a + b, md5)
  {
  }

  lemma CategoryKeysPresent(files: map<string, FileData>, dir: string, names: set<string>)
    ensures forall k :: k in CategoryFileKeys(files, dir, names) ==> PathJoin(dir, k) in files && '/' in k
  {
    forall k | k in CategoryFileKeys(files, dir, names) ensures PathJoin(dir, k) in files && '/' in k {
      CategoryKeyFacts(files, dir, names, k);
    }
  }

  /** Manifest.digest as a function of the disk before the call: the manifest it writes,
      or the error it raises. */
  function DigestOutcome(files: map<string, FileData>, dirs: set<string>, dir: string,
                         mandatory: seq<string>, env: Env): (r: Result<Props>)
    ensures CategoriesFile !in mandatory ==> r == Err(DBLayoutError)
    ensures r.Ok? ==> CategoriesFile in r.value
    ensures r.Ok? ==> forall n :: n in mandatory ==> n in r.value
  {
    if CategoriesFile !in mandatory then Err(DBLayoutError)
    else
      var files1 := AfterRead(CategoriesJson(dir), files);
      var categories :- ReadOutcome(CategoriesJson(dir), files, env.reg);
      if exists n :: n in mandatory && PathJoin(dir, n) !in files1 then Err(IOError)
      else
        var names :- CategoryNames(categories);
        if exists c :: c in names && PathJoin(dir, c) !in dirs then Err(DBStructureError)
        else Ok(HashesOf(files1, dir, DigestKeys(files1, dir, mandatory, names), env.md5))
  }

  /** A manifest of file names and hash strings encodes and decodes as itself. */
  lemma HashManifestCodec(m: Props, reg: Registry)
    requires ClassKey !in m
    requires forall k :: k in m ==> m[k].Str?
    ensures Encode(Map(m)) == Ok(Map(m))
    ensures Decode(reg, Map(m)) == Ok(Map(m))
  {
    assert forall k :: k in m ==> Encode(m[k]) == Ok(m[k]);
    assert EncodeFields(m) == m;
    DecodeUntagged(reg, Map(m));
  }

  /** The first loop of digest: the hash of every mandatory file, in list order. */
  method HashMandatoryFiles(disk: Disk, dir: string, mandatory: seq<string>, md5: Hasher) returns (r: Result<Props>)
    ensures (exists n :: n in mandatory && PathJoin(dir, n) !in disk.files) ==> r == Err(IOError)
    ensures !(exists n :: n in mandatory && PathJoin(dir, n) !in disk.files) ==>
      r == Ok(HashesOf(disk.files, dir, (set n | n in mandatory), md5))
  {
    var manifest: Props := map[];
    var i := 0;
    while i < |mandatory|
      invariant 0 <= i <= |mandatory|
      invariant forall j :: 0 <= j < i ==> PathJoin(dir, mandatory[j]) in disk.files
      invariant manifest == HashesOf(disk.files, dir, (set n | n in mandatory[..i]), md5)
    {
      var h := disk.HashFile(PathJoin(dir, mandatory[i]), md5);
      if h.Err? {
        return Err(IOError);
      }
      assert mandatory[..i + 1] == mandatory[..i] + [mandatory[i]];
      manifest := manifest[mandatory[i] := Str(h.value)];
      i := i + 1;
    }
    assert mandatory[..i] == mandatory;
    return Ok(manifest);
  }

  /** The second loop of digest: for every category, in any order, its directory must
      exist, and every file below it is hashed under its relative path. */
  method HashCategoryFiles(disk: Disk, dir: string, names: set<string>, md5: Hasher) returns (r: Result<Props>)
    ensures (exists c :: c in names && PathJoin(dir, c) !in disk.dirs) ==> r == Err(DBStructureError)
    ensures !(exists c :: c in names && PathJoin(dir, c) !in disk.dirs) ==>
      r == Ok(HashesOf(disk.files, dir, CategoryFileKeys(disk.files, dir, names), md5))
  {
    var manifest: Props := map[];
    var todo := names;
    while todo != {}
      invariant todo <= names
      invariant forall c :: c in names && c !in todo ==> PathJoin(dir, c) in disk.dirs
      invariant manifest == HashesOf(disk.files, dir, CategoryFileKeys(disk.files, dir, names - todo), md5)
      decreases todo
    {
      var c :| c in todo;
      if PathJoin(dir, c) !in disk.dirs {
        return Err(DBStructureError);
      }
      var walked := CategoryFileKeys(disk.files, dir, {c});
      manifest := manifest + HashesOf(disk.files, dir, walked, md5);
      HashesOfUnion(disk.files, dir, CategoryFileKeys(disk.files, dir, names - todo), walked, md5);
      CategoryFileKeysAdd(disk.files, dir, names - todo, c);
      assert (names - todo) + {c} == names - (todo - {c});
      todo := todo - {c};
    }
    assert names - todo == names;
    return Ok(manifest);
  }

  /** The branches of DigestOutcome, one lemma each, so that the method can name the
      one it takes. */
  lemma DigestOutcomeReadFails(files: map<string, FileData>, dirs: set<string>, dir: string, mandatory: seq<string>, env: Env)
    requires CategoriesFile in mandatory
    requires ReadOutcome(CategoriesJson(dir), files, env.reg).Err?
    ensures DigestOutcome(files, dirs, dir, mandatory, env) == Err(ReadOutcome(CategoriesJson(dir), files, env.reg).error)
  {
  }

  lemma DigestOutcomeHashFails(files: map<string, FileData>, dirs: set<string>, dir: string, mandatory: seq<string>, env: Env)
    requires CategoriesFile in mandatory
    requires ReadOutcome(CategoriesJson(dir), files, env.reg).Ok?
    requires exists n :: n in mandatory && PathJoin(dir, n) !in AfterRead(CategoriesJson(dir), files)
    ensures DigestOutcome(files, dirs, dir, mandatory, env) == Err(IOError)
  {
  }

  lemma DigestOutcomeLater(files: map<string, FileData>, dirs: set<string>, dir: string, mandatory: seq<string>, env: Env)
    requires CategoriesFile in mandatory
    requires ReadOutcome(CategoriesJson(dir), files, env.reg).Ok?
    requires !exists n :: n in mandatory && PathJoin(dir, n) !in AfterRead(CategoriesJson(dir), files)
    ensures var categories := ReadOutcome(CategoriesJson(dir), files, env.reg).value;
      var names := CategoryNames(categories);
      var files1 := AfterRead(CategoriesJson(dir), files);
      DigestOutcome(files, dirs, dir, mandatory, env) ==
        if names.Err? then Err(names.error)
        else if exists c :: c in names.value && PathJoin(dir, c) !in dirs then Err(DBStructureError)
        else Ok(HashesOf(files1, dir, DigestKeys(files1, dir, mandatory, names.value), env.md5))
  {
  }

  /** Manifest.digest. */
  method Digest(dir: string, mandatory: seq<string>, disk: Disk, env: Env) returns (r: Result<()>)
    modifies disk
    requires ManifestFile !in mandatory && ClassKey !in mandatory
    ensures var out := DigestOutcome(old(disk.files), old(disk.dirs), dir, mandatory, env);
      (out.Err? ==> r == Err(out.error)) &&
      (out.Ok? ==>
         r == Ok(()) &&
         disk.files == AfterRead(CategoriesJson(dir), old(disk.files))[ManifestJson(dir).Path() := Json(Map(out.value))])
    ensures CategoriesFile in mandatory ==> disk.dirs == old(disk.dirs) + {dir}
    ensures CategoriesFile !in mandatory ==> disk.files == old(disk.files) && disk.dirs == old(disk.dirs)
  {
    ghost var files0, dirs0 := disk.files, disk.dirs;
    if CategoriesFile !in mandatory {
      return Err(DBLayoutError);
    }
    var categories := CategoriesJson(dir).Read(disk, env.reg);
    if categories.Err? {
      DigestOutcomeReadFails(files0, dirs0, dir, mandatory, env);
      return Err(categories.error);
    }
    var fixed := HashMandatoryFiles(disk, dir, mandatory, env.md5);
    if fixed.Err? {
      DigestOutcomeHashFails(files0, dirs0, dir, mandatory, env);
      return Err(fixed.error);
    }
    DigestOutcomeLater(files0, dirs0, dir, mandatory, env);
    var names := CategoryNames(categories.value);
    if names.Err? {
      return Err(names.error);
    }
    assert forall c :: PathJoin(dir, c) in disk.dirs <==> PathJoin(dir, c) in dirs0;
    var walked := HashCategoryFiles(disk, dir, names.value, env.md5);
    if walked.Err? {
      return Err(walked.error);
    }
    var manifest := fixed.value + walked.value;
    HashesOfUnion(disk.files, dir, (set n | n in mandatory), CategoryFileKeys(disk.files, dir, names.value), env.md5);
    assert manifest == DigestOutcome(files0, dirs0, dir, mandatory, env).value;
    CategoryKeysPresent(disk.files, dir, names.value);
    TopNamesFlat();
    HashManifestCodec(manifest, env.reg);
    var written := ManifestJson(dir).Write(disk, Map(manifest));
    return Ok(());
  }

  /** The top-level file names are pairwise different. */
  lemma TopNamesDistinct()
    ensures ManifestFile != CategoriesFile && ManifestFile != MetadataFile && CategoriesFile != MetadataFile
    ensures ManifestFile != ClassKey && CategoriesFile != ClassKey
  {
    FileNameConstants();
    assert ManifestFile[2] != MetadataFile[2];
  }

  /** A manifest that records the current hash of every file it lists, and lists
      categories.json, passes Manifest.check with no errors once written. */
  lemma FreshManifestChecks(files: map<string, FileData>, dir: string, m: Props, env: Env)
    requires CategoriesFile in m && ManifestFile !in m && ClassKey !in m
    requires forall k :: k in m ==> PathJoin(dir, k) in files && m[k] == Str(env.md5(files[PathJoin(dir, k)]))
    ensures CheckOutcome(files[ManifestJson(dir).Path() := Json(Map(m))], dir, env) == Ok({})
  {
    var final := files[ManifestJson(dir).Path() := Json(Map(m))];
    HashManifestCodec(m, env.reg);
    assert ReadOutcome(ManifestJson(dir), final, env.reg) == Ok(Map(m));
    forall k | k in m
      ensures PathJoin(dir, k) in final && final[PathJoin(dir, k)] == files[PathJoin(dir, k)]
    {
      PathJoinDistinct(dir, k, ManifestFile);
    }
    var errors := ManifestErrors(final, dir, m, env.md5);
    assert errors.Ok?;
    assert forall n :: n !in errors.value;
    assert errors.value == {};
  }

  /** A manifest that digest has just written passes Manifest.check with no errors. */
  lemma DigestThenCheck(files: map<string, FileData>, dirs: set<string>, dir: string, mandatory: seq<string>, env: Env)
    requires ManifestFile !in mandatory && ClassKey !in mandatory
    requires DigestOutcome(files, dirs, dir, mandatory, env).Ok?
    ensures var m := DigestOutcome(files, dirs, dir, mandatory, env).value;
      CheckOutcome(AfterRead(CategoriesJson(dir), files)[ManifestJson(dir).Path() := Json(Map(m))], dir, env) == Ok({})
  {
    var m := DigestOutcome(files, dirs, dir, mandatory, env).value;
    var files1 := AfterRead(CategoriesJson(dir), files);
    DigestOutcomeLater(files, dirs, dir, mandatory, env);
    var names := CategoryNames(ReadOutcome(CategoriesJson(dir), files, env.reg).value).value;
    assert m == HashesOf(files1, dir, DigestKeys(files1, dir, mandatory, names), env.md5);
    CategoryKeysPresent(files1, dir, names);
    TopNamesFlat();
    TopNamesDistinct();
    assert ManifestFile !in m && ClassKey !in m;
    FreshManifestChecks(files1, dir, m, env);
  }

  /** DBLayout.check_manifest as a function of the files: a manifest that lists a
      changed file is an IntegrityError. */
  function ManifestSane(files: map<string, FileData>, dir: string, env: Env): (r: Result<()>)
    ensures r.Ok? <==> CheckOutcome(files, dir, env) == Ok({})
    ensures CheckOutcome(files, dir, env).Err? ==> r == Err(CheckOutcome(files, dir, env).error)
    ensures r.Ok? ==> r == Ok(())
  {
    var errors :- CheckOutcome(files, dir, env);
    if errors != {} then Err(IntegrityError) else Ok(())
  }

  /** What DBLayout.read has found before it reads the category files. */
  datatype Head = Head(metadata: Value, format: string, categories: Value, names: set<string>)

  /** The first steps of DBLayout.read, in their order: check the manifest, read the
      metadata, resolve the layout, read categories.json. */
  function ReadHead(files: map<string, FileData>, dir: string, env: Env): (r: Result<Head>)
    ensures r.Ok? ==> CheckOutcome(files, dir, env) == Ok({})
    ensures r.Ok? ==> r.value.categories.Map? && r.value.names == r.value.categories.m.Keys
    ensures r.Ok? ==> GetLayout(r.value.metadata).Ok? && GetLayout(r.value.metadata).value.categoryFormat == r.value.format
    ensures ManifestSane(files, dir, env).Err? ==> r == Err(ManifestSane(files, dir, env).error)
  {
    var _ :- ManifestSane(files, dir, env);
    var metadata :- MetadataOutcome(dir, files, env.reg);
    var layout :- GetLayout(metadata);
    var categories :- ReadOutcome(CategoriesJson(dir), files, env.reg);
    var names :- CategoryNames(categories);
    Ok(Head(metadata, layout.categoryFormat, categories, names))
  }

  /** One iteration of the category loop of DBLayout.read: the directory must exist and
      its packages file must hold something truthy. A missing packages file reads as
      the empty dict, which is refused. */
  function CategoryOutcome(files: map<string, FileData>, dirs: set<string>, dir: string,
                           category: string, format: string, reg: Registry): (r: Result<Value>)
    ensures PathJoin(dir, category) !in dirs ==> r == Err(DBLayoutError)
    ensures r.Ok? ==> Truthy(r.value) && CategoryJson(dir, category, format).Path() in files
    ensures r.Ok? ==> ReadContent(files[CategoryJson(dir, category, format).Path()], reg, []) == r
  {
    if PathJoin(dir, category) !in dirs then Err(DBLayoutError)
    else
      var packages :- ReadOutcome(CategoryJson(dir, category, format), files, reg);
      if !Truthy(packages) then Err(DBLayoutError) else Ok(packages)
  }

  /** The packages dict DBLayout.read returns: every category to what its file holds. */
  function CategoryPackages(files: map<string, FileData>, dirs: set<string>, dir: string,
                            names: set<string>, format: string, reg: Registry): (r: Props)
    requires forall c :: c in names ==> CategoryOutcome(files, dirs, dir, c, format, reg).Ok?
    ensures r.Keys == names
    ensures forall c :: c in r ==> r[c] == CategoryOutcome(files, dirs, dir, c, format, reg).value
  {
    map c | c in names :: CategoryOutcome(files, dirs, dir, c, format, reg).value
  }

  /** The paths of the packages files of the categories. */
  function CategoryPaths(dir: string, format: string, names: set<string>): set<string>
  {
    set c | c in names :: CategoryJson(dir, c, format).Path()
  }

  /** The category directories. */
  function CategoryDirs(dir: string, names: set<string>): set<string>
  {
    set c | c in names :: PathJoin(dir, c)
  }

  /** Nothing outside directory `d` differs between the two file maps. */
  ghost predicate SameOutside(a: map<string, FileData>, b: map<string, FileData>, d: string)
  {
    forall p :: p != d && !Under(p, d) ==> (p in a <==> p in b) && (p in a ==> a[p] == b[p])
  }

  /** Different categories have different packages files. */
  lemma CategoryPathsDistinct(dir: string, format: string, c: string, d: string)
    requires c != d
    ensures CategoryJson(dir, c, format).Path() != CategoryJson(dir, d, format).Path()
  {
    if CategoryJson(dir, c, format).Path() == CategoryJson(dir, d, format).Path() {
      NestedPathInjective(dir, c, d, FileName(PackagesFileName, format));
    }
  }

  /** The dict a value holds, or no entries. */
  function Entries(v: Value): (r: Props)
    ensures v.Map? ==> r == v.m
    ensures !v.Map? ==> r == map[]
  {
    if v.Map? then v.m else map[]
  }

  /** The packages files the category loop of DBLayout.write leaves. */
  function CategoryFiles(dir: string, format: string, names: set<string>, packages: Props): (r: map<string, FileData>)
    requires names <= packages.Keys
    ensures r.Keys == CategoryPaths(dir, format, names)
    ensures forall c :: c in names ==> r[CategoryJson(dir, c, format).Path()] == Stored(packages[c])
  {
    forall c, d | c in names && d in names && c != d
      ensures CategoryJson(dir, c, format).Path() != CategoryJson(dir, d, format).Path()
    {
      CategoryPathsDistinct(dir, format, c, d);
    }
    map c | c in names :: CategoryJson(dir, c, format).Path() := Stored(packages[c])
  }

  lemma CategoryFilesAdd(dir: string, format: string, names: set<string>, c: string, packages: Props)
    requires names + {c} <= packages.Keys
    ensures CategoryFiles(dir, format, names + {c}, packages) ==
            CategoryFiles(dir, format, names, packages)[CategoryJson(dir, c, format).Path() := Stored(packages[c])]
  {
    var a := CategoryFiles(dir, format, names + {c}, packages);
    var b := CategoryFiles(dir, format, names, packages)[CategoryJson(dir, c, format).Path() := Stored(packages[c])];
    CategoryPathsAdd(dir, format, names, c);
    forall q | q in a ensures a[q] == b[q] {
      CategoryFileAt(dir, format, names, c, packages, q);
    }
    SameMaps(a, b);
  }

  lemma CategoryPathsAdd(dir: string, format: string, names: set<string>, c: string)
    ensures CategoryPaths(dir, format, names + {c}) == CategoryPaths(dir, format, names) + {CategoryJson(dir, c, format).Path()}
  {
  }

  lemma CategoryFileAt(dir: string, format: string, names: set<string>, c: string, packages: Props, q: string)
    requires names + {c} <= packages.Keys
    requires q in CategoryPaths(dir, format, names + {c})
    ensures var b := CategoryFiles(dir, format, names, packages)[CategoryJson(dir, c, format).Path() := Stored(packages[c])];
      q in b && CategoryFiles(dir, format, names + {c}, packages)[q] == b[q]
  {
    var d :| d in names + {c} && q == CategoryJson(dir, d, format).Path();
    if d != c {
      CategoryPathsDistinct(dir, format, c, d);
    }
  }

  /** The packages files lie inside the database directory and are none of its
      top-level files. */
  lemma CategoryFilesInside(dir: string, format: string, names: set<string>)
    ensures forall p :: p in CategoryPaths(dir, format, names) ==>
      Under(p, dir) && p != dir && p != MetadataJson(dir).Path() && p != CategoriesJson(dir).Path() && p != ManifestJson(dir).Path()
  {
    TopNamesFlat();
    forall p | p in CategoryPaths(dir, format, names)
      ensures Under(p, dir) && p != dir && p != MetadataJson(dir).Path() && p != CategoriesJson(dir).Path() && p != ManifestJson(dir).Path()
    {
      var c :| c in names && p == CategoryJson(dir, c, format).Path();
      var name := FileName(PackagesFileName, format);
      NestedPathFacts(dir, c, name, MetadataFile);
      NestedPathFacts(dir, c, name, CategoriesFile);
      NestedPathFacts(dir, c, name, ManifestFile);
    }
  }

  /** The files after the cleaning and the top-level writes of DBLayout.write. */
  function TopWrites(files: map<string, FileData>, dir: string, metadata: Value, categories: Value, withMetadata: bool): map<string, FileData>
  {
    var pruned := Pruned(files, dir);
    var staged := if withMetadata then pruned[MetadataJson(dir).Path() := Stored(metadata)] else pruned;
    staged[CategoriesJson(dir).Path() := Stored(categories)]
  }

  /** What DBLayout.write needs to put every file down: the layout resolves, the
      metadata holds its keys and encodes when the layout keeps a metadata file,
      categories.json encodes and is a dict, and every category has a packages entry
      that encodes. */
  predicate Writable(metadata: Value, categories: Value, packages: Value)
  {
    GetLayout(metadata).Ok? && categories.Map? &&
    (MetadataFile in GetLayout(metadata).value.mandatoryFiles ==>
       CheckKeys(metadata, MetadataKeys).Ok? && Encode(metadata).Ok?) &&
    Encode(categories).Ok? &&
    categories.m.Keys <= Entries(packages).Keys &&
    forall c :: c in categories.m ==> Encode(Entries(packages)[c]).Ok?
  }

  /** Exactly the files DBLayout.write leaves before the digest: the old files outside
      the directory, the top-level files and every packages file. */
  function StagedFiles(files: map<string, FileData>, dir: string, metadata: Value, categories: Value,
                       packages: Value): map<string, FileData>
    requires Writable(metadata, categories, packages)
  {
    var layout := GetLayout(metadata).value;
    TopWrites(files, dir, metadata, categories, MetadataFile in layout.mandatoryFiles) +
    CategoryFiles(dir, layout.categoryFormat, categories.m.Keys, Entries(packages))
  }

  /** Cleaning an already cleaned directory changes nothing of what the writes leave. */
  lemma CleanedTwice(files: map<string, FileData>, dirs: set<string>, dir: string,
                     metadata: Value, categories: Value, packages: Value)
    requires Writable(metadata, categories, packages)
    ensures StagedFiles(Pruned(files, dir), dir, metadata, categories, packages) == StagedFiles(files, dir, metadata, categories, packages)
    ensures StagedDirs((set x | x in dirs && x != dir && !Under(x, dir)), dir, categories) == StagedDirs(dirs, dir, categories)
  {
    assert Pruned(Pruned(files, dir), dir) == Pruned(files, dir);
  }

  /** The directories after the writes: the old ones outside the database directory,
      the directory itself and every category directory. */
  function StagedDirs(dirs: set<string>, dir: string, categories: Value): set<string>
    requires categories.Map?
  {
    (set x | x in dirs && x != dir && !Under(x, dir)) + {dir} + CategoryDirs(dir, categories.m.Keys)
  }

  /** The database directory is among the directories the writes leave in any case. */
  lemma StagedDirsKeepDirectory(dirs: set<string>, dir: string, categories: Value)
    requires categories.Map?
    ensures StagedDirs(dirs + {dir}, dir, categories) == StagedDirs(dirs, dir, categories)
  {
    var a := set x | x in dirs + {dir} && x != dir && !Under(x, dir);
    var b := set x | x in dirs && x != dir && !Under(x, dir);
    assert a == b;
  }

  /** The files DBLayout.write has put down before the manifest: the metadata file
      exactly when the layout lists it, categories.json, and the packages file of
      every category in its directory. */
  ghost predicate Staged(files: map<string, FileData>, dirs: set<string>, dir: string,
                   metadata: Value, categories: Value, packages: Value)
  {
    GetLayout(metadata).Ok? && categories.Map? &&
    var layout := GetLayout(metadata).value;
    (MetadataJson(dir).Path() in files <==> MetadataFile in layout.mandatoryFiles) &&
    (MetadataFile in layout.mandatoryFiles ==>
       files[MetadataJson(dir).Path()] == Stored(metadata) && CheckKeys(metadata, MetadataKeys).Ok?) &&
    CategoriesJson(dir).Path() in files && files[CategoriesJson(dir).Path()] == Stored(categories) &&
    forall c :: c in categories.m ==>
      c in Entries(packages) && PathJoin(dir, c) in dirs &&
      CategoryJson(dir, c, layout.categoryFormat).Path() in files &&
      files[CategoryJson(dir, c, layout.categoryFormat).Path()] == Stored(Entries(packages)[c])
  }

  /** What a successful DBLayout.write leaves on the disk: those files and a manifest
      that passes Manifest.check with no errors. */
  ghost predicate Written(files: map<string, FileData>, dirs: set<string>, dir: string, env: Env,
                    metadata: Value, categories: Value, packages: Value)
  {
    Staged(files, dirs, dir, metadata, categories, packages) && CheckOutcome(files, dir, env) == Ok({})
  }

  /** Writing the manifest keeps what has been staged. */
  lemma StagedKeptByManifest(files: map<string, FileData>, dirs: set<string>, dirs1: set<string>, dir: string,
                             metadata: Value, categories: Value, packages: Value, manifest: FileData)
    requires Staged(files, dirs, dir, metadata, categories, packages)
    requires dirs <= dirs1
    ensures Staged(files[ManifestJson(dir).Path() := manifest], dirs1, dir, metadata, categories, packages)
  {
    TopNamesFlat();
    TopNamesDistinct();
    PathJoinDistinct(dir, ManifestFile, MetadataFile);
    PathJoinDistinct(dir, ManifestFile, CategoriesFile);
    var format := GetLayout(metadata).value.categoryFormat;
    forall c | c in categories.m
      ensures CategoryJson(dir, c, format).Path() != ManifestJson(dir).Path()
    {
      NestedPathFacts(dir, c, FileName(PackagesFileName, format), ManifestFile);
    }
  }

  /** A database directory (DBLayout). */
  datatype DBLayout = DBLayout(directory: string)
  {
    /** DBLayout.check_manifest. */
    method CheckManifest(disk: Disk, env: Env) returns (r: Result<()>)
      modifies disk
      ensures r == ManifestSane(old(disk.files), directory, env)
      ensures disk.files == AfterRead(ManifestJson(directory), old(disk.files))
      ensures disk.dirs == old(disk.dirs) + {directory}
    {
      var errors := CheckManifestFile(directory, disk, env);
      if errors.Err? {
        return Err(errors.error);
      }
      if errors.value != {} {
        return Err(IntegrityError);
      }
      return Ok(());
    }

    /** DBLayout.clean: remove the directory and everything in it. */
    method Clean(disk: Disk)
      modifies disk
      ensures disk.files == Pruned(old(disk.files), directory)
      ensures disk.dirs == set x | x in old(disk.dirs) && x != directory && !Under(x, directory)
    {
      disk.RemoveTree(directory);
    }

    /** One iteration of the category loop of DBLayout.read. */
    method ReadCategory(disk: Disk, c: string, format: string, reg: Registry) returns (r: Result<Value>)
      modifies disk
      ensures r == CategoryOutcome(old(disk.files), old(disk.dirs), directory, c, format, reg)
      ensures r.Ok? ==> disk.files == old(disk.files)
      ensures forall p :: p in old(disk.files) ==> p in disk.files && disk.files[p] == old(disk.files)[p]
      ensures disk.dirs == old(disk.dirs)
    {
      if PathJoin(directory, c) !in disk.dirs {
        return Err(DBLayoutError);
      }
      var packages := CategoryJson(directory, c, format).Read(disk, reg);
      if packages.Err? {
        return Err(packages.error);
      }
      if !Truthy(packages.value) {
        return Err(DBLayoutError);
      }
      return packages;
    }

    /** The loop of DBLayout.read over the categories, in any order. Every file read is
        present, so the loop changes the disk only when it fails on a missing file. */
    method ReadCategories(disk: Disk, names: set<string>, format: string, reg: Registry) returns (r: Result<Props>)
      modifies disk
      ensures r.Ok? <==> forall c :: c in names ==> CategoryOutcome(old(disk.files), old(disk.dirs), directory, c, format, reg).Ok?
      ensures r.Ok? ==> r.value == CategoryPackages(old(disk.files), old(disk.dirs), directory, names, format, reg)
      ensures r.Err? ==> exists c :: c in names && CategoryOutcome(old(disk.files), old(disk.dirs), directory, c, format, reg) == Err(r.error)
      ensures r.Ok? ==> disk.files == old(disk.files)
      ensures forall p :: p in old(disk.files) ==> p in disk.files && disk.files[p] == old(disk.files)[p]
      ensures disk.dirs == old(disk.dirs)
    {
      ghost var files0, dirs0 := disk.files, disk.dirs;
      var packages: Props := map[];
      var todo := names;
      ReadStart(files0, dirs0, directory, format, reg, names);
      while todo != {}
        invariant disk.files == files0 && disk.dirs == dirs0
        invariant ReadProgress(files0, dirs0, directory, format, reg, names, todo, packages)
        decreases todo
      {
        var c :| c in todo;
        var pkgs := ReadCategory(disk, c, format, reg);
        if pkgs.Err? {
          assert c in names;
          return Err(pkgs.error);
        }
        ReadStep(files0, dirs0, directory, format, reg, names, todo, packages, c);
        packages := packages[c := pkgs.value];
        todo := todo - {c};
      }
      ReadDone(files0, dirs0, directory, format, reg, names, packages);
      return Ok(packages);
    }

    /** DBLayout.read: the metadata, the categories and the packages of every category,
        after the manifest has been checked. */
    method Read(disk: Disk, env: Env) returns (r: Result<(Value, Value, Props)>)
      modifies disk
      ensures var head := ReadHead(old(disk.files), directory, env);
        (head.Err? ==> r == Err(head.error)) &&
        (head.Ok? ==>
           var h := head.value;
           (r.Ok? <==> forall c :: c in h.names ==> CategoryOutcome(old(disk.files), old(disk.dirs), directory, c, h.format, env.reg).Ok?) &&
           (r.Ok? ==> r.value == (h.metadata, h.categories, CategoryPackages(old(disk.files), old(disk.dirs), directory, h.names, h.format, env.reg))) &&
           (r.Err? ==> exists c :: c in h.names && CategoryOutcome(old(disk.files), old(disk.dirs), directory, c, h.format, env.reg) == Err(r.error)))
      ensures r.Ok? ==> disk.files == old(disk.files)
      ensures forall p :: p in old(disk.files) ==> p in disk.files && disk.files[p] == old(disk.files)[p]
      ensures disk.dirs == old(disk.dirs) + {directory}
    {
      ghost var files0, dirs0 := disk.files, disk.dirs;
      var sane := CheckManifest(disk, env);
      if sane.Err? {
        return Err(sane.error);
      }
      assert disk.files == files0;
      var metadata := ReadMetadata(directory, disk, env.reg);
      if metadata.Err? {
        return Err(metadata.error);
      }
      var layout := GetLayout(metadata.value);
      if layout.Err? {
        return Err(layout.error);
      }
      var categories := CategoriesJson(directory).Read(disk, env.reg);
      assert disk.files == files0;
      if categories.Err? {
        return Err(categories.error);
      }
      var names := CategoryNames(categories.value);
      if names.Err? {
        return Err(names.error);
      }
      forall c ensures PathJoin(directory, c) in disk.dirs <==> PathJoin(directory, c) in dirs0 {
        PathJoinUnder(directory, c);
      }
      ghost var dirs1 := disk.dirs;
      var packages := ReadCategories(disk, names.value, layout.value.categoryFormat, env.reg);
      CategoryOutcomeDirs(files0, dirs0, dirs1, directory, names.value, layout.value.categoryFormat, env.reg);
      if packages.Err? {
        return Err(packages.error);
      }
      return Ok((metadata.value, categories.value, packages.value));
    }

    /** One iteration of the category loop of DBLayout.write: packages[category] is
        written to the category's packages file. */
    method WriteCategory(disk: Disk, c: string, format: string, packages: Value) returns (r: Result<()>)
      modifies disk
      ensures r.Ok? <==> c in Entries(packages) && Encode(Entries(packages)[c]).Ok?
      ensures !packages.Map? ==> r == Err(TypeError)
      ensures packages.Map? && c !in packages.m ==> r == Err(KeyError)
      ensures r.Err? ==> r.error == KeyError || r.error == TypeError
      ensures c !in Entries(packages) ==> disk.files == old(disk.files) && disk.dirs == old(disk.dirs)
      ensures c in Entries(packages) ==>
        disk.files == old(disk.files)[CategoryJson(directory, c, format).Path() := Stored(Entries(packages)[c])] &&
        disk.dirs == old(disk.dirs) + {PathJoin(directory, c)}
    {
      var pkgs := Lookup(packages, c);
      if pkgs.Err? {
        return Err(pkgs.error);
      }
      r := CategoryJson(directory, c, format).Write(disk, pkgs.value);
    }

    /** The category loop of DBLayout.write, in any order. */
    method WriteCategories(disk: Disk, names: set<string>, format: string, packages: Value) returns (r: Result<()>)
      modifies disk
      ensures r.Ok? <==> names <= Entries(packages).Keys && forall c :: c in names ==> Encode(Entries(packages)[c]).Ok?
      ensures r.Err? ==> r.error == KeyError || r.error == TypeError
      ensures r.Ok? ==> disk.files == old(disk.files) + CategoryFiles(directory, format, names, Entries(packages))
      ensures r.Ok? ==> disk.dirs == old(disk.dirs) + CategoryDirs(directory, names)
    {
      ghost var files0, dirs0 := disk.files, disk.dirs;
      var todo := names;
      WriteStart(files0, dirs0, directory, format, names, Entries(packages));
      while todo != {}
        invariant WriteProgress(files0, dirs0, disk.files, disk.dirs, directory, format, names, todo, Entries(packages))
        decreases todo
      {
        var c :| c in todo;
        ghost var before, dirsBefore := disk.files, disk.dirs;
        var w := WriteCategory(disk, c, format, packages);
        if w.Err? {
          assert c in names;
          return w;
        }
        WriteStep(files0, dirs0, before, dirsBefore, disk.files, disk.dirs, directory, format, names, todo, c, Entries(packages));
        todo := todo - {c};
      }
      WriteDone(files0, dirs0, disk.files, disk.dirs, directory, format, names, Entries(packages));
      return Ok(());
    }

    /** The first writes of DBLayout.write: clean the directory, then write the
        metadata when the layout lists it, then categories.json. */
    method WriteTop(disk: Disk, metadata: Value, categories: Value, withMetadata: bool) returns (r: Result<()>)
      modifies disk
      ensures var metadataOk := !withMetadata || (CheckKeys(metadata, MetadataKeys).Ok? && Encode(metadata).Ok?);
        r.Ok? <==> metadataOk && Encode(categories).Ok?
      ensures r.Ok? ==> disk.files == TopWrites(old(disk.files), directory, metadata, categories, withMetadata)
      ensures r.Ok? ==> disk.dirs == (set x | x in old(disk.dirs) && x != directory && !Under(x, directory)) + {directory}
    {
      Clean(disk);
      if withMetadata {
        var w := MetadataJson(directory).Write(disk, metadata);
        if w.Err? {
          return w;
        }
      }
      r := CategoriesJson(directory).Write(disk, categories);
    }

    /** DBLayout.write: resolve the layout (before anything is removed), clean the
        directory, write the metadata when the layout lists it, categories.json and
        every packages file, and finish with a digest. */
    method Write(disk: Disk, env: Env, metadata: Value, categories: Value, packages: Value) returns (r: Result<()>)
      modifies disk
      ensures GetLayout(metadata).Err? ==>
        r == Err(GetLayout(metadata).error) && disk.files == old(disk.files) && disk.dirs == old(disk.dirs)
      ensures r.Ok? ==> Writable(metadata, categories, packages)
      ensures Writable(metadata, categories, packages) && RoundTrips(env.reg, categories) ==> r.Ok?
      ensures r.Ok? ==>
        disk.files - {ManifestJson(directory).Path()} == StagedFiles(old(disk.files), directory, metadata, categories, packages) &&
        disk.dirs == StagedDirs(old(disk.dirs), directory, categories)
      ensures r.Ok? ==> Written(disk.files, disk.dirs, directory, env, metadata, categories, packages)
      ensures r.Ok? ==> SameOutside(disk.files, old(disk.files), directory)
    {
      var layout := GetLayout(metadata);
      if layout.Err? {
        return Err(layout.error);
      }
      var mandatory := layout.value.mandatoryFiles;
      ghost var files0, dirs0 := disk.files, disk.dirs;
      var w := WriteStaged(disk, metadata, categories, packages);
      if w.Err? {
        return w;
      }
      ghost var files3, dirs3 := disk.files, disk.dirs;
      LayoutFilesNamed(metadata);
      if RoundTrips(env.reg, categories) {
        StagedDigests(files3, dirs3, directory, env, metadata, categories, packages);
      }
      r := Digest(directory, mandatory, disk, env);
      if r.Ok? {
        WriteCompletes(files0, dirs0, files3, dirs3, disk.files, disk.dirs, directory, env, metadata, categories, packages);
      }
    }

    /** The writes of DBLayout.write before the digest. */
    method WriteStaged(disk: Disk, metadata: Value, categories: Value, packages: Value) returns (r: Result<()>)
      modifies disk
      requires GetLayout(metadata).Ok?
      ensures r.Ok? <==> Writable(metadata, categories, packages)
      ensures r.Ok? ==> disk.files == StagedFiles(old(disk.files), directory, metadata, categories, packages)
      ensures r.Ok? ==> disk.dirs == StagedDirs(old(disk.dirs), directory, categories)
      ensures r.Ok? ==> Staged(disk.files, disk.dirs, directory, metadata, categories, packages)
      ensures r.Ok? ==> SameOutside(disk.files, old(disk.files), directory)
    {
      var layout := GetLayout(metadata).value;
      var format, mandatory := layout.categoryFormat, layout.mandatoryFiles;
      ghost var files0 := disk.files;
      var w := WriteTop(disk, metadata, categories, MetadataFile in mandatory);
      if w.Err? {
        return w;
      }
      var names := CategoryNames(categories);
      if names.Err? {
        return Err(names.error);
      }
      r := WriteCategories(disk, names.value, format, packages);
      if r.Ok? {
        StagedAfterWrites(files0, disk.dirs, directory, metadata, categories, packages);
      }
    }
  }

  /** The files a layout lists are the top-level data files. */
  lemma LayoutFilesNamed(metadata: Value)
    requires GetLayout(metadata).Ok?
    ensures var mandatory := GetLayout(metadata).value.mandatoryFiles;
      ManifestFile !in mandatory && ClassKey !in mandatory
  {
    TopNamesFlat();
    TopNamesDistinct();
  }

  /** On the staged files, digest succeeds when categories.json reads back as written. */
  lemma StagedDigests(files: map<string, FileData>, dirs: set<string>, dir: string, env: Env,
                      metadata: Value, categories: Value, packages: Value)
    requires Staged(files, dirs, dir, metadata, categories, packages)
    requires RoundTrips(env.reg, categories)
    ensures DigestOutcome(files, dirs, dir, GetLayout(metadata).value.mandatoryFiles, env).Ok?
  {
    var mandatory := GetLayout(metadata).value.mandatoryFiles;
    WriteThenRead(categories, env.reg, []);
    assert ReadOutcome(CategoriesJson(dir), files, env.reg) == Ok(categories);
    assert AfterRead(CategoriesJson(dir), files) == files;
    assert forall n :: n in mandatory ==> n == CategoriesFile || n == MetadataFile;
    DigestOutcomeLater(files, dirs, dir, mandatory, env);
  }

  /** The staged files hold no manifest: the old one is removed with the tree. */
  lemma ManifestNotStaged(files: map<string, FileData>, dir: string, metadata: Value, categories: Value, packages: Value)
    requires Writable(metadata, categories, packages)
    ensures ManifestJson(dir).Path() !in StagedFiles(files, dir, metadata, categories, packages)
  {
    var layout := GetLayout(metadata).value;
    CategoryFilesInside(dir, layout.categoryFormat, categories.m.Keys);
    PathJoinUnder(dir, ManifestFile);
    TopNamesDistinct();
    PathJoinDistinct(dir, ManifestFile, MetadataFile);
    PathJoinDistinct(dir, ManifestFile, CategoriesFile);
  }

  /** Taking the manifest out of the files after the digest gives the staged files. */
  lemma DropManifest(files3: map<string, FileData>, dir: string, manifest: FileData)
    requires ManifestJson(dir).Path() !in files3
    ensures files3[ManifestJson(dir).Path() := manifest] - {ManifestJson(dir).Path()} == files3
  {
  }

  /** The files and directories after a successful DBLayout.write. */
  lemma WriteCompletes(files0: map<string, FileData>, dirs0: set<string>, files3: map<string, FileData>, dirs3: set<string>,
                       files4: map<string, FileData>, dirs4: set<string>, dir: string, env: Env,
                       metadata: Value, categories: Value, packages: Value)
    requires Writable(metadata, categories, packages)
    requires files3 == StagedFiles(files0, dir, metadata, categories, packages)
    requires dirs3 == StagedDirs(dirs0, dir, categories)
    requires Staged(files3, dirs3, dir, metadata, categories, packages) && SameOutside(files3, files0, dir)
    requires var mandatory := GetLayout(metadata).value.mandatoryFiles;
      ManifestFile !in mandatory && ClassKey !in mandatory &&
      DigestOutcome(files3, dirs3, dir, mandatory, env).Ok? && dirs4 == dirs3 + {dir} &&
      files4 == AfterRead(CategoriesJson(dir), files3)[ManifestJson(dir).Path() :=
        Json(Map(DigestOutcome(files3, dirs3, dir, mandatory, env).value))]
    ensures files4 - {ManifestJson(dir).Path()} == files3 && dirs4 == dirs3
    ensures Written(files4, dirs4, dir, env, metadata, categories, packages)
    ensures SameOutside(files4, files0, dir)
  {
    ManifestWritten(files0, files3, dirs3, files4, dirs4, dir, env, metadata, categories, packages);
    StagedPlusManifest(files0, files3, dirs3, files4, dir, env, metadata, categories, packages);
  }

  /** After a successful DBLayout.write the files are the staged files and the manifest. */
  lemma StagedPlusManifest(files0: map<string, FileData>, files3: map<string, FileData>, dirs3: set<string>,
                           files4: map<string, FileData>, dir: string, env: Env,
                           metadata: Value, categories: Value, packages: Value)
    requires Writable(metadata, categories, packages)
    requires files3 == StagedFiles(files0, dir, metadata, categories, packages)
    requires CategoriesJson(dir).Path() in files3
    requires var mandatory := GetLayout(metadata).value.mandatoryFiles;
      DigestOutcome(files3, dirs3, dir, mandatory, env).Ok? &&
      files4 == AfterRead(CategoriesJson(dir), files3)[ManifestJson(dir).Path() :=
        Json(Map(DigestOutcome(files3, dirs3, dir, mandatory, env).value))]
    ensures files4 - {ManifestJson(dir).Path()} == files3
  {
    var mandatory := GetLayout(metadata).value.mandatoryFiles;
    ManifestNotStaged(files0, dir, metadata, categories, packages);
    assert AfterRead(CategoriesJson(dir), files3) == files3;
    DropManifest(files3, dir, Json(Map(DigestOutcome(files3, dirs3, dir, mandatory, env).value)));
  }

  /** The digest written after the staged files completes a successful write. */
  lemma ManifestWritten(files0: map<string, FileData>, files3: map<string, FileData>, dirs3: set<string>,
                        files4: map<string, FileData>, dirs4: set<string>, dir: string, env: Env,
                        metadata: Value, categories: Value, packages: Value)
    requires Staged(files3, dirs3, dir, metadata, categories, packages) && SameOutside(files3, files0, dir)
    requires var mandatory := GetLayout(metadata).value.mandatoryFiles;
      ManifestFile !in mandatory && ClassKey !in mandatory &&
      DigestOutcome(files3, dirs3, dir, mandatory, env).Ok? && dirs3 <= dirs4 &&
      files4 == AfterRead(CategoriesJson(dir), files3)[ManifestJson(dir).Path() :=
        Json(Map(DigestOutcome(files3, dirs3, dir, mandatory, env).value))]
    ensures Written(files4, dirs4, dir, env, metadata, categories, packages)
    ensures SameOutside(files4, files0, dir)
  {
    var mandatory := GetLayout(metadata).value.mandatoryFiles;
    var manifest := Json(Map(DigestOutcome(files3, dirs3, dir, mandatory, env).value));
    DigestThenCheck(files3, dirs3, dir, mandatory, env);
    ManifestInside(files3, files4, dir, manifest);
    StagedKeptByManifest(files3, dirs3, dirs4, dir, metadata, categories, packages, manifest);
  }

  /** The category loop does not depend on the database directory being among the
      known directories: only the category directories matter. */
  lemma CategoryOutcomeDirs(files: map<string, FileData>, dirs: set<string>, dirs1: set<string>, dir: string,
                            names: set<string>, format: string, reg: Registry)
    requires forall c :: PathJoin(dir, c) in dirs1 <==> PathJoin(dir, c) in dirs
    ensures forall c :: CategoryOutcome(files, dirs1, dir, c, format, reg) == CategoryOutcome(files, dirs, dir, c, format, reg)
    ensures (forall c :: c in names ==> CategoryOutcome(files, dirs, dir, c, format, reg).Ok?) ==>
      CategoryPackages(files, dirs1, dir, names, format, reg) == CategoryPackages(files, dirs, dir, names, format, reg)
  {
  }

  /** The files the writes of DBLayout.write put down are the staged files; nothing
      outside the directory is touched. */
  lemma StagedAfterWrites(files: map<string, FileData>, dirs: set<string>, dir: string,
                          metadata: Value, categories: Value, packages: Value)
    requires GetLayout(metadata).Ok? && categories.Map?
    requires categories.m.Keys <= Entries(packages).Keys
    requires CategoryDirs(dir, categories.m.Keys) <= dirs
    requires MetadataFile in GetLayout(metadata).value.mandatoryFiles ==> CheckKeys(metadata, MetadataKeys).Ok?
    ensures var layout := GetLayout(metadata).value;
      var written := TopWrites(files, dir, metadata, categories, MetadataFile in layout.mandatoryFiles) +
                     CategoryFiles(dir, layout.categoryFormat, categories.m.Keys, Entries(packages));
      Staged(written, dirs, dir, metadata, categories, packages) && SameOutside(written, files, dir)
  {
    var layout := GetLayout(metadata).value;
    var format := layout.categoryFormat;
    var names := categories.m.Keys;
    var top := TopWrites(files, dir, metadata, categories, MetadataFile in layout.mandatoryFiles);
    var written := top + CategoryFiles(dir, format, names, Entries(packages));
    CategoryFilesInside(dir, format, names);
    TopNamesFlat();
    PathJoinUnder(dir, MetadataFile);
    PathJoinUnder(dir, CategoriesFile);
    TopNamesDistinct();
    PathJoinDistinct(dir, MetadataFile, CategoriesFile);
    assert MetadataJson(dir).Path() in written <==> MetadataFile in layout.mandatoryFiles;
    forall c | c in names ensures PathJoin(dir, c) in dirs {
      assert PathJoin(dir, c) in CategoryDirs(dir, names);
    }
  }

  /** The manifest lies inside the database directory. */
  lemma ManifestInside(files: map<string, FileData>, files1: map<string, FileData>, dir: string, manifest: FileData)
    requires files1 == AfterRead(CategoriesJson(dir), files)[ManifestJson(dir).Path() := manifest]
    requires CategoriesJson(dir).Path() in files
    ensures files1 == files[ManifestJson(dir).Path() := manifest]
    ensures forall files0 :: SameOutside(files, files0, dir) ==> SameOutside(files1, files0, dir)
  {
    PathJoinUnder(dir, ManifestFile);
  }

  /** One step of the category loop of DBLayout.write adds one packages file. */
  lemma WriteCategoryStep(files0: map<string, FileData>, before: map<string, FileData>, after: map<string, FileData>,
                          dir: string, format: string, done: set<string>, c: string, packages: Props)
    requires done + {c} <= packages.Keys
    requires before == files0 + CategoryFiles(dir, format, done, packages)
    requires after == before[CategoryJson(dir, c, format).Path() := Stored(packages[c])]
    ensures after == files0 + CategoryFiles(dir, format, done + {c}, packages)
  {
    CategoryFilesAdd(dir, format, done, c, packages);
    var x := CategoryFiles(dir, format, done, packages);
    var k := CategoryJson(dir, c, format).Path();
    MapUpdateUnion(files0, x, k, Stored(packages[c]));
  }

  /** What the category loop of DBLayout.read has collected once `todo` is left. */
  ghost predicate ReadProgress(files: map<string, FileData>, dirs: set<string>, dir: string, format: string,
                               reg: Registry, names: set<string>, todo: set<string>, packages: Props)
  {
    todo <= names &&
    (forall c :: c in names - todo ==> CategoryOutcome(files, dirs, dir, c, format, reg).Ok?) &&
    packages == CategoryPackages(files, dirs, dir, names - todo, format, reg)
  }

  lemma ReadStart(files: map<string, FileData>, dirs: set<string>, dir: string, format: string,
                  reg: Registry, names: set<string>)
    ensures ReadProgress(files, dirs, dir, format, reg, names, names, map[])
  {
    assert names - names == {};
  }

  lemma ReadStep(files: map<string, FileData>, dirs: set<string>, dir: string, format: string,
                 reg: Registry, names: set<string>, todo: set<string>, packages: Props, c: string)
    requires ReadProgress(files, dirs, dir, format, reg, names, todo, packages)
    requires c in todo && CategoryOutcome(files, dirs, dir, c, format, reg).Ok?
    ensures ReadProgress(files, dirs, dir, format, reg, names, todo - {c},
                         packages[c := CategoryOutcome(files, dirs, dir, c, format, reg).value])
  {
    RemovedOne(names, todo, c);
  }

  lemma ReadDone(files: map<string, FileData>, dirs: set<string>, dir: string, format: string,
                 reg: Registry, names: set<string>, packages: Props)
    requires ReadProgress(files, dirs, dir, format, reg, names, {}, packages)
    ensures forall c :: c in names ==> CategoryOutcome(files, dirs, dir, c, format, reg).Ok?
    ensures packages == CategoryPackages(files, dirs, dir, names, format, reg)
  {
    assert names - {} == names;
  }

  /** What the category loop of DBLayout.write has written once `todo` is left. */
  ghost predicate WriteProgress(files0: map<string, FileData>, dirs0: set<string>, files: map<string, FileData>,
                                dirs: set<string>, dir: string, format: string, names: set<string>,
                                todo: set<string>, packages: Props)
  {
    todo <= names && names - todo <= packages.Keys &&
    (forall c :: c in names - todo ==> Encode(packages[c]).Ok?) &&
    files == files0 + CategoryFiles(dir, format, names - todo, packages) &&
    dirs == dirs0 + CategoryDirs(dir, names - todo)
  }

  lemma WriteStart(files0: map<string, FileData>, dirs0: set<string>, dir: string, format: string,
                   names: set<string>, packages: Props)
    ensures WriteProgress(files0, dirs0, files0, dirs0, dir, format, names, names, packages)
  {
    assert names - names == {};
    assert CategoryFiles(dir, format, {}, packages) == map[];
  }

  lemma WriteStep(files0: map<string, FileData>, dirs0: set<string>, before: map<string, FileData>, dirsBefore: set<string>,
                  after: map<string, FileData>, dirsAfter: set<string>, dir: string, format: string,
                  names: set<string>, todo: set<string>, c: string, packages: Props)
    requires WriteProgress(files0, dirs0, before, dirsBefore, dir, format, names, todo, packages)
    requires c in todo && c in packages && Encode(packages[c]).Ok?
    requires after == before[CategoryJson(dir, c, format).Path() := Stored(packages[c])]
    requires dirsAfter == dirsBefore + {PathJoin(dir, c)}
    ensures WriteProgress(files0, dirs0, after, dirsAfter, dir, format, names, todo - {c}, packages)
  {
    var done := names - todo;
    RemovedOne(names, todo, c);
    WriteCategoryStep(files0, before, after, dir, format, done, c, packages);
    CategoryDirsAdd(dir, done, c);
  }

  lemma WriteDone(files0: map<string, FileData>, dirs0: set<string>, files: map<string, FileData>, dirs: set<string>,
                  dir: string, format: string, names: set<string>, packages: Props)
    requires WriteProgress(files0, dirs0, files, dirs, dir, format, names, {}, packages)
    ensures names <= packages.Keys && forall c :: c in names ==> Encode(packages[c]).Ok?
    ensures files == files0 + CategoryFiles(dir, format, names, packages)
    ensures dirs == dirs0 + CategoryDirs(dir, names)
  {
    assert names - {} == names;
  }

  /** Updating a union at one key updates its right operand there. */
  lemma MapUpdateUnion<K, V>(a: map<K, V>, b: map<K, V>, k: K, v: V)
    ensures (a + b)[k := v] == a + b[k := v]
  {
  }

  lemma CategoryDirsAdd(dir: string, names: set<string>, c: string)
    ensures CategoryDirs(dir, names) + {PathJoin(dir, c)} == CategoryDirs(dir, names + {c})
  {
  }

  /** The metadata DBLayout.read finds after DBLayout.write: what was written when the
      layout keeps a metadata file, the legacy metadata otherwise. */
  function MetadataAfterWrite(metadata: Value): Value
    requires GetLayout(metadata).Ok?
  {
    if MetadataFile in GetLayout(metadata).value.mandatoryFiles then metadata else LegacyMetadata
  }

  /** Both kinds of metadata resolve to the layout the database was written with. */
  lemma MetadataAfterWriteLayout(metadata: Value)
    requires GetLayout(metadata).Ok?
    ensures GetLayout(MetadataAfterWrite(metadata)) == GetLayout(metadata)
  {
    LegacyMetadataLayout();
  }

  /** Write then read: on the files a successful DBLayout.write leaves, DBLayout.read
      passes the manifest check and returns the categories and, for every category,
      the packages that were written, provided the codec round-trips them and no
      category is empty. */
  lemma WriteThenReadDb(files: map<string, FileData>, dirs: set<string>, dir: string, env: Env,
                        metadata: Value, categories: Value, packages: Value)
    requires Written(files, dirs, dir, env, metadata, categories, packages)
    requires RoundTrips(env.reg, categories)
    requires MetadataFile in GetLayout(metadata).value.mandatoryFiles ==> RoundTrips(env.reg, metadata)
    requires forall c :: c in categories.m && c in Entries(packages) ==>
      RoundTrips(env.reg, Entries(packages)[c]) && Truthy(Entries(packages)[c])
    ensures var format := GetLayout(metadata).value.categoryFormat;
      ReadHead(files, dir, env) == Ok(Head(MetadataAfterWrite(metadata), format, categories, categories.m.Keys))
    ensures forall c :: c in categories.m ==>
      CategoryOutcome(files, dirs, dir, c, GetLayout(metadata).value.categoryFormat, env.reg) == Ok(Entries(packages)[c])
  {
    var layout := GetLayout(metadata).value;
    var format := layout.categoryFormat;
    assert ManifestSane(files, dir, env) == Ok(());
    if MetadataFile in layout.mandatoryFiles {
      WriteThenRead(metadata, env.reg, MetadataKeys);
    }
    assert MetadataOutcome(dir, files, env.reg) == Ok(MetadataAfterWrite(metadata));
    MetadataAfterWriteLayout(metadata);
    WriteThenRead(categories, env.reg, []);
    assert ReadOutcome(CategoriesJson(dir), files, env.reg) == Ok(categories);
    forall c | c in categories.m
      ensures CategoryOutcome(files, dirs, dir, c, format, env.reg) == Ok(Entries(packages)[c])
    {
      WriteThenRead(Entries(packages)[c], env.reg, []);
    }
  }

  /** Changing a file the manifest lists, to content with another hash, makes the next
      manifest check fail with IntegrityError. */
  lemma TamperDetected(files: map<string, FileData>, dir: string, env: Env, k: string, data: FileData)
    requires CheckOutcome(files, dir, env) == Ok({})
    requires ReadOutcome(ManifestJson(dir), files, env.reg).Ok?
    requires ReadOutcome(ManifestJson(dir), files, env.reg).value.Map?
    requires k in ReadOutcome(ManifestJson(dir), files, env.reg).value.m && k != ManifestFile
    requires PathJoin(dir, k) in files && env.md5(data) != env.md5(files[PathJoin(dir, k)])
    ensures ManifestSane(files[PathJoin(dir, k) := data], dir, env) == Err(IntegrityError)
  {
    PathJoinDistinct(dir, k, ManifestFile);
    var tampered := files[PathJoin(dir, k) := data];
    assert ReadOutcome(ManifestJson(dir), tampered, env.reg) == ReadOutcome(ManifestJson(dir), files, env.reg);
    var m := ReadOutcome(ManifestJson(dir), files, env.reg).value.m;
    assert k !in ManifestErrors(files, dir, m, env.md5).value;
    assert k in ManifestErrors(tampered, dir, m, env.md5).value;
  }
}
