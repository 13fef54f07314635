/** The package database of g_sorcery/package_db.py: categories with their descriptions,
    and per category the common data and the packages, each package a dict from version
    to properties. PackageDB keeps the two dicts as fields and changes them in place;
    the functions here give each of its operations on the value of those fields. */
module PackageDb {
  import opened Wrappers
  import opened Strings
  import opened Values
  import opened Serialization
  import opened FileSystem
  import opened FileUtils
  import opened DbLayout
  import opened Collections

  /** The entry of one category: {'common_data': ..., 'packages': name -> version -> properties}. */
  datatype CategoryData = CategoryData(commonData: Props, packages: map<string, map<string, Props>>)

  type Database = map<string, CategoryData>

  /** The two fields of PackageDB: category -> description, and category -> entry. */
  datatype Store = Store(categories: Props, database: Database)

  /** Every category that has an entry is a registered category. */
  predicate Consistent(s: Store)
  {
    s.database.Keys <= s.categories.Keys
  }

  /** The properties stored for one version, if any. */
  function VersionOf(db: Database, category: string, name: string, version: string): Option<Props>
  {
    if category in db && name in db[category].packages && version in db[category].packages[name]
    then Some(db[category].packages[name][version])
    else None
  }

  /** The versions stored for one package, if the package is there. */
  function VersionsOf(db: Database, category: string, name: string): Option<map<string, Props>>
  {
    if category in db && name in db[category].packages then Some(db[category].packages[name]) else None
  }

  /** reset_db: both dicts emptied. */
  const EmptyStore := Store(map[], map[])

  /** add_category: the description, or {} when it is falsy, replaces any earlier one. */
  function WithCategory(s: Store, category: string, description: Value): (r: Store)
    ensures r.categories.Keys == s.categories.Keys + {category}
    ensures r.categories[category] == if Truthy(description) then description else Map(map[])
    ensures forall c :: c in s.categories && c != category ==> r.categories[c] == s.categories[c]
    ensures r.database == s.database
    ensures Consistent(s) ==> Consistent(r)
  {
    Store(s.categories[category := if Truthy(description) then description else Map(map[])], s.database)
  }

  /** set_common_data: only for a registered category; an absent entry is created with
      no packages. */
  function WithCommonData(s: Store, category: string, commonData: Props): (r: Result<Store>)
    ensures category !in s.categories <==> r == Err(InvalidKeyError)
    ensures r.Ok? ==> r.value.categories == s.categories
    ensures r.Ok? ==> r.value.database.Keys == s.database.Keys + {category}
    ensures r.Ok? ==> r.value.database[category].commonData == commonData
    ensures r.Ok? ==> forall n, v :: VersionOf(r.value.database, category, n, v) == VersionOf(s.database, category, n, v)
    ensures r.Ok? ==> forall c :: c in s.database && c != category ==> r.value.database[c] == s.database[c]
    ensures r.Ok? && category !in s.database ==> r.value.database[category].packages == map[]
    ensures r.Ok? && category in s.database ==> r.value.database[category].packages == s.database[category].packages
    ensures Consistent(s) && r.Ok? ==> Consistent(r.value)
  {
    if category !in s.categories then Err(InvalidKeyError)
    else if category !in s.database then
      Ok(Store(s.categories, s.database[category := CategoryData(commonData, map[])]))
    else
      Ok(Store(s.categories, s.database[category := s.database[category].(commonData := commonData)]))
  }

  /** get_common_data: {} for a registered category without an entry. */
  function CommonData(s: Store, category: string): (r: Result<Props>)
    ensures category !in s.categories <==> r == Err(InvalidKeyError)
    ensures category in s.categories && category !in s.database ==> r == Ok(map[])
    ensures category in s.categories && category in s.database ==> r == Ok(s.database[category].commonData)
  {
    if category !in s.categories then Err(InvalidKeyError)
    else if category !in s.database then Ok(map[])
    else Ok(s.database[category].commonData)
  }

  /** add_package: every field of the package must be non-empty and its category
      registered; then exactly that version entry is set (overwritten if present). */
  function WithPackage(s: Store, p: Package, ebuildData: Props): (r: Result<Store>)
    ensures p.category == "" || p.name == "" || p.version == "" ==> r == Err(DBError)
    ensures p.category != "" && p.name != "" && p.version != "" && p.category !in s.categories ==> r == Err(InvalidKeyError)
    ensures r.Ok? <==> p.category != "" && p.name != "" && p.version != "" && p.category in s.categories
    ensures r.Ok? ==> r.value.categories == s.categories
    ensures r.Ok? ==> r.value.database.Keys == s.database.Keys + {p.category}
    ensures r.Ok? ==> VersionOf(r.value.database, p.category, p.name, p.version) == Some(ebuildData)
    ensures r.Ok? ==> forall c, n, v :: (c, n, v) != (p.category, p.name, p.version) ==>
      VersionOf(r.value.database, c, n, v) == VersionOf(s.database, c, n, v)
    ensures r.Ok? ==> forall c :: c in s.database && c != p.category ==> r.value.database[c] == s.database[c]
    ensures r.Ok? ==> (r.value.database[p.category].packages.Keys ==
      (if p.category in s.database then s.database[p.category].packages.Keys else {}) + {p.name})
    ensures r.Ok? ==> (r.value.database[p.category].commonData ==
      (if p.category in s.database then s.database[p.category].commonData else map[]))
    ensures Consistent(s) && r.Ok? ==> Consistent(r.value)
  {
    if p.category == "" || p.name == "" || p.version == "" then Err(DBError)
    else if p.category !in s.categories then Err(InvalidKeyError)
    else
      var entry := if p.category in s.database then s.database[p.category] else CategoryData(map[], map[]);
      var versions := if p.name in entry.packages then entry.packages[p.name] else map[];
      var entry' := entry.(packages := entry.packages[p.name := versions[p.version := ebuildData]]);
      Ok(Store(s.categories, s.database[p.category := entry']))
  }

  /** The guard shared by the queries: an empty or unregistered category. */
  predicate KnownCategory(s: Store, category: string)
  {
    category != "" && category in s.categories
  }

  /** in_category: false when the category has no entry. */
  function InCategory(s: Store, category: string, name: string): (r: Result<bool>)
    ensures !KnownCategory(s, category) <==> r == Err(InvalidKeyError)
    ensures r.Ok? ==> (r.value <==> category in s.database && name in s.database[category].packages)
  {
    if !KnownCategory(s, category) then Err(InvalidKeyError)
    else if category !in s.database then Ok(false)
    else Ok(name in s.database[category].packages)
  }

  /** list_package_names, as a set: none when the category has no entry. */
  function PackageNames(s: Store, category: string): (r: Result<set<string>>)
    ensures !KnownCategory(s, category) <==> r == Err(InvalidKeyError)
    ensures r.Ok? ==> forall n :: n in r.value <==> InCategory(s, category, n) == Ok(true)
  {
    if !KnownCategory(s, category) then Err(InvalidKeyError)
    else if category !in s.database then Ok({})
    else Ok(s.database[category].packages.Keys)
  }

  /** list_catpkg_names, as a set. */
  function CatpkgNames(s: Store): (r: set<string>)
    ensures forall c, n :: c in s.database && n in s.database[c].packages ==> c + "/" + n in r
    ensures forall x :: x in r ==> exists c, n :: c in s.database && n in s.database[c].packages && x == c + "/" + n
  {
    set c, n | c in s.database && n in s.database[c].packages :: c + "/" + n
  }

  /** list_package_versions, as a set: the package must be there. */
  function PackageVersions(s: Store, category: string, name: string): (r: Result<set<string>>)
    ensures !KnownCategory(s, category) ==> r == Err(InvalidKeyError)
    ensures KnownCategory(s, category) && VersionsOf(s.database, category, name).None? ==> r == Err(InvalidKeyError)
    ensures r.Ok? <==> KnownCategory(s, category) && VersionsOf(s.database, category, name).Some?
    ensures r.Ok? ==> forall v :: v in r.value <==> VersionOf(s.database, category, name, v).Some?
  {
    if !KnownCategory(s, category) then Err(InvalidKeyError)
    else if category !in s.database || name !in s.database[category].packages then Err(InvalidKeyError)
    else Ok(s.database[category].packages[name].Keys)
  }

  /** list_all_packages, as a set. */
  function AllPackages(s: Store): (r: set<Package>)
    ensures forall p :: p in r <==> VersionOf(s.database, p.category, p.name, p.version).Some?
  {
    set c, n, v | c in s.database && n in s.database[c].packages && v in s.database[c].packages[n] :: Package(c, n, v)
  }

  /** get_package_description: the version's properties updated with the category's
      common data, so that common keys win. Any missing level is a KeyError. */
  function PackageDescription(s: Store, p: Package): (r: Result<Props>)
    ensures VersionOf(s.database, p.category, p.name, p.version).None? <==> r == Err(KeyError)
    ensures r.Ok? ==> (r.value.Keys ==
      VersionOf(s.database, p.category, p.name, p.version).value.Keys + s.database[p.category].commonData.Keys)
    ensures r.Ok? ==> forall k :: k in s.database[p.category].commonData ==> r.value[k] == s.database[p.category].commonData[k]
    ensures r.Ok? ==> forall k :: k in r.value && k !in s.database[p.category].commonData ==>
      r.value[k] == VersionOf(s.database, p.category, p.name, p.version).value[k]
  {
    match VersionOf(s.database, p.category, p.name, p.version)
    case None => Err(KeyError)
    case Some(props) => Ok(Update(props, s.database[p.category].commonData))
  }

  /** What iterating a PackageDB yields: every stored version with its description. The
      iterator's cursor, and its early stop on an empty category or package, are not
      modelled. */
  function Iterated(s: Store): set<(Package, Props)>
  {
    set c, n, v | c in s.database && n in s.database[c].packages && v in s.database[c].packages[n] ::
      (Package(c, n, v), Update(s.database[c].packages[n][v], s.database[c].commonData))
  }

  /** The iterator yields exactly the package descriptions, one per stored version. */
  lemma IteratedAreDescriptions(s: Store, p: Package, d: Props)
    ensures (p, d) in Iterated(s) <==> PackageDescription(s, p) == Ok(d)
  {
    if PackageDescription(s, p) == Ok(d) {
      assert (Package(p.category, p.name, p.version),
              Update(s.database[p.category].packages[p.name][p.version], s.database[p.category].commonData)) in Iterated(s);
    }
  }

  /** The iterator and list_all_packages agree on the packages. */
  lemma IteratedCoverAllPackages(s: Store, p: Package)
    ensures p in AllPackages(s) <==> exists d :: (p, d) in Iterated(s)
  {
    if p in AllPackages(s) {
      IteratedAreDescriptions(s, p, PackageDescription(s, p).value);
    }
    if d :| (p, d) in Iterated(s) {
      IteratedAreDescriptions(s, p, d);
    }
  }

  /** Adding a package makes it visible to every query. */
  lemma WithPackageVisible(s: Store, p: Package, ebuildData: Props)
    requires WithPackage(s, p, ebuildData).Ok?
    ensures var t := WithPackage(s, p, ebuildData).value;
      InCategory(t, p.category, p.name) == Ok(true) &&
      p.version in PackageVersions(t, p.category, p.name).value &&
      p in AllPackages(t) &&
      PackageDescription(t, p) == Ok(Update(ebuildData, CommonData(s, p.category).value))
  {
  }

  /** Setting the common data is what getting it returns, and it changes the description
      of every package of the category. */
  lemma CommonDataRoundTrip(s: Store, category: string, commonData: Props, p: Package)
    requires WithCommonData(s, category, commonData).Ok?
    ensures var t := WithCommonData(s, category, commonData).value;
      CommonData(t, category) == Ok(commonData) &&
      (p.category == category && PackageDescription(s, p).Ok? ==>
         PackageDescription(t, p) == Ok(Update(VersionOf(s.database, p.category, p.name, p.version).value, commonData)))
  {
  }

  // ---------------------------------------------------------------------------------
  // The structure versions of the files

  /** The preferences PackageDB is made with. */
  datatype Preferences = Preferences(layoutVersion: int, dbVersion: int, categoryFormat: string)

  const SupportedDbStructures: set<int> := {0, 1}
  /** SUPPORTED_DB_LAYOUTS is imported from db_layout.py but not defined there; the layout
      versions get_layout accepts are taken. */
  const SupportedDbLayouts: set<int> := {0, 1}

  /** The checks of PackageDB.__init__, in their order. */
  function CheckPreferences(prefs: Preferences): (r: Result<()>)
    ensures r.Ok? <==> (prefs.dbVersion in SupportedDbStructures && prefs.layoutVersion in SupportedDbLayouts &&
      prefs.categoryFormat in SupportedFileFormats && (prefs.layoutVersion == 0 ==> prefs.dbVersion == 0))
    ensures prefs.layoutVersion == 0 && prefs.dbVersion != 0 ==> r == Err(DBStructureError)
    ensures r.Ok? ==> r == Ok(())
  {
    if prefs.layoutVersion == 0 && prefs.dbVersion != 0 then Err(DBStructureError)
    else if prefs.dbVersion !in SupportedDbStructures then Err(DBStructureError)
    else if prefs.layoutVersion !in SupportedDbLayouts then Err(DBLayoutError)
    else if prefs.categoryFormat !in SupportedFileFormats then Err(DBLayoutError)
    else Ok(())
  }

  /** The metadata PackageDB.write hands to DBLayout.write. */
  function MetadataValue(prefs: Preferences): (r: Value)
    ensures CheckPreferences(prefs).Ok? ==> GetLayout(r).Ok? && GetLayout(r).value.categoryFormat == prefs.categoryFormat
    ensures CheckPreferences(prefs).Ok? ==> CheckKeys(r, MetadataKeys).Ok?
    ensures CheckPreferences(prefs).Ok? ==> (MetadataFile in GetLayout(r).value.mandatoryFiles <==> prefs.layoutVersion == 1)
  {
    Map(map["db_version" := Int(prefs.dbVersion), "layout_version" := Int(prefs.layoutVersion),
            "category_format" := Str(prefs.categoryFormat)])
  }

  /** One version dict as a value. */
  function VersionsValue(versions: map<string, Props>): (r: Value)
    ensures r.Map? && r.m.Keys == versions.Keys
    ensures forall v :: v in versions ==> r.m[v] == Map(versions[v])
  {
    Map(map v | v in versions :: Map(versions[v]))
  }

  /** A packages dict as a value. */
  function PackagesValue(packages: map<string, map<string, Props>>): (r: Value)
    ensures r.Map? && r.m.Keys == packages.Keys
    ensures forall n :: n in packages ==> r.m[n] == VersionsValue(packages[n])
  {
    Map(map n | n in packages :: VersionsValue(packages[n]))
  }

  /** A category entry in structure version 1. */
  function CategoryValue(entry: CategoryData): (r: Value)
    ensures r.Map? && r.m.Keys == {"common_data", "packages"} && Truthy(r)
    ensures r.m["common_data"] == Map(entry.commonData) && r.m["packages"] == PackagesValue(entry.packages)
  {
    Map(map["common_data" := Map(entry.commonData), "packages" := PackagesValue(entry.packages)])
  }

  /** The fold of PackageDB.write for structure version 0: the common data is merged
      into the properties of every version. The update happens in place, on the dicts
      the in-memory database shares. */
  function Folded(entry: CategoryData): (r: map<string, map<string, Props>>)
    ensures r.Keys == entry.packages.Keys
    ensures forall n :: n in r ==> r[n].Keys == entry.packages[n].Keys
    ensures forall n, v :: n in r && v in r[n] ==> r[n][v] == Update(entry.packages[n][v], entry.commonData)
  {
    map n | n in entry.packages :: map v | v in entry.packages[n] :: Update(entry.packages[n][v], entry.commonData)
  }

  /** The packages dict PackageDB.write hands to DBLayout.write. */
  function StructureValue(dbVersion: int, db: Database): (r: Value)
    ensures r.Map? && r.m.Keys == db.Keys
    ensures dbVersion == 0 ==> forall c :: c in db ==> r.m[c] == PackagesValue(Folded(db[c]))
    ensures dbVersion != 0 ==> forall c :: c in db ==> r.m[c] == CategoryValue(db[c])
  {
    if dbVersion == 0 then Map(map c | c in db :: PackagesValue(Folded(db[c])))
    else Map(map c | c in db :: CategoryValue(db[c]))
  }

  /** Reading one properties dict back. A value of another shape, which the source would
      keep and trip over later, is refused here. */
  function ParseVersions(v: Value): (r: Result<map<string, Props>>)
    ensures r.Ok? <==> v.Map? && forall k :: k in v.m ==> v.m[k].Map?
    ensures r.Err? ==> r.error == TypeError
    ensures r.Ok? ==> r.value.Keys == v.m.Keys && forall k :: k in v.m ==> r.value[k] == v.m[k].m
  {
    if v.Map? && forall k :: k in v.m ==> v.m[k].Map? then Ok(map k | k in v.m :: v.m[k].m)
    else Err(TypeError)
  }

  function ParsePackages(v: Value): (r: Result<map<string, map<string, Props>>>)
    ensures r.Ok? <==> v.Map? && forall n :: n in v.m ==> ParseVersions(v.m[n]).Ok?
    ensures r.Err? ==> r.error == TypeError
    ensures r.Ok? ==> r.value.Keys == v.m.Keys && forall n :: n in v.m ==> r.value[n] == ParseVersions(v.m[n]).value
  {
    if v.Map? && forall n :: n in v.m ==> ParseVersions(v.m[n]).Ok? then Ok(map n | n in v.m :: ParseVersions(v.m[n]).value)
    else Err(TypeError)
  }

  /** A category entry of structure version 1. */
  function ParseCategory(v: Value): (r: Result<CategoryData>)
    ensures r.Ok? ==> v.Map? && "common_data" in v.m && "packages" in v.m
    ensures r.Ok? ==> Map(r.value.commonData) == v.m["common_data"] && ParsePackages(v.m["packages"]) == Ok(r.value.packages)
  {
    var common :- Lookup(v, "common_data");
    var packages :- Lookup(v, "packages");
    if !common.Map? then Err(TypeError)
    else
      var parsed :- ParsePackages(packages);
      Ok(CategoryData(common.m, parsed))
  }

  /** The conversion of PackageDB.read: structure version 0 wraps each category as
      {common_data: {}, packages: ...}, version 1 is taken as it is, and any other
      version is a DBStructureError. */
  function ConvertCategory(dbVersion: Value, raw: Value): (r: Result<CategoryData>)
    ensures NumEq(dbVersion, 0) && r.Ok? ==> r.value.commonData == map[] && ParsePackages(raw) == Ok(r.value.packages)
    ensures NumEq(dbVersion, 1) ==> r == ParseCategory(raw)
    ensures !NumEq(dbVersion, 0) && !NumEq(dbVersion, 1) ==> r == Err(DBStructureError)
  {
    if NumEq(dbVersion, 0) then
      var packages :- ParsePackages(raw);
      Ok(CategoryData(map[], packages))
    else if NumEq(dbVersion, 1) then ParseCategory(raw)
    else Err(DBStructureError)
  }

  /** The database PackageDB.read makes of the packages DBLayout.read returns. Which
      failing category is reported is left open, as dict order is. */
  function ConvertedDatabase(dbVersion: Value, packages: Props): (r: Result<Database>)
    ensures !NumEq(dbVersion, 0) && !NumEq(dbVersion, 1) ==> r == Err(DBStructureError)
    ensures r.Ok? <==> ((NumEq(dbVersion, 0) || NumEq(dbVersion, 1)) &&
      forall c :: c in packages ==> ConvertCategory(dbVersion, packages[c]).Ok?)
    ensures r.Ok? ==> (r.value.Keys == packages.Keys &&
      forall c :: c in packages ==> r.value[c] == ConvertCategory(dbVersion, packages[c]).value)
  {
    if !NumEq(dbVersion, 0) && !NumEq(dbVersion, 1) then Err(DBStructureError)
    else if exists c :: c in packages && ConvertCategory(dbVersion, packages[c]).Err? then Err(TypeError)
    else Ok(map c | c in packages :: ConvertCategory(dbVersion, packages[c]).value)
  }

  lemma VersionsRoundTrip(versions: map<string, Props>)
    ensures ParseVersions(VersionsValue(versions)) == Ok(versions)
  {
    var r := ParseVersions(VersionsValue(versions));
    assert r.Ok?;
    assert r.value == versions;
  }

  lemma PackagesRoundTrip(packages: map<string, map<string, Props>>)
    ensures ParsePackages(PackagesValue(packages)) == Ok(packages)
  {
    forall n | n in packages ensures ParseVersions(PackagesValue(packages).m[n]) == Ok(packages[n]) {
      VersionsRoundTrip(packages[n]);
    }
    var r := ParsePackages(PackagesValue(packages));
    assert r.Ok?;
    assert r.value == packages;
  }

  /** Structure version 1 reads back as the database. */
  lemma StructureOneRoundTrip(db: Database)
    ensures ConvertedDatabase(Int(1), StructureValue(1, db).m) == Ok(db)
  {
    var packages := StructureValue(1, db).m;
    forall c | c in db ensures ConvertCategory(Int(1), packages[c]) == Ok(db[c]) {
      CategoryRoundTrip(db[c]);
    }
    ConvertedTo(Int(1), packages, db);
  }

  /** The conversion yields a given database when every category converts to its entry. */
  lemma ConvertedTo(dbVersion: Value, packages: Props, db: Database)
    requires NumEq(dbVersion, 0) || NumEq(dbVersion, 1)
    requires packages.Keys == db.Keys
    requires forall c :: c in packages ==> ConvertCategory(dbVersion, packages[c]) == Ok(db[c])
    ensures ConvertedDatabase(dbVersion, packages) == Ok(db)
  {
    SameMaps(ConvertedDatabase(dbVersion, packages).value, db);
  }

  lemma CategoryRoundTrip(entry: CategoryData)
    ensures ConvertCategory(Int(1), CategoryValue(entry)) == Ok(entry)
  {
    PackagesRoundTrip(entry.packages);
  }

  /** The database structure version 0 reads back as: no common data, and every
      version's properties with the common data merged in. */
  function LegacyImage(db: Database): (r: Database)
    ensures r.Keys == db.Keys
    ensures forall c :: c in db ==> r[c] == CategoryData(map[], Folded(db[c]))
  {
    map c | c in db :: CategoryData(map[], Folded(db[c]))
  }

  lemma StructureZeroRoundTrip(db: Database)
    ensures ConvertedDatabase(Int(0), StructureValue(0, db).m) == Ok(LegacyImage(db))
  {
    var packages := StructureValue(0, db).m;
    forall c | c in db ensures ConvertCategory(Int(0), packages[c]) == Ok(LegacyImage(db)[c]) {
      PackagesRoundTrip(Folded(db[c]));
    }
    ConvertedTo(Int(0), packages, LegacyImage(db));
  }

  /** Structure version 0 loses the common data as such, but every package description
      comes back the same. */
  lemma LegacyImageKeepsDescriptions(s: Store, p: Package)
    ensures PackageDescription(Store(s.categories, LegacyImage(s.database)), p) == PackageDescription(s, p)
  {
    var t := Store(s.categories, LegacyImage(s.database));
    if VersionOf(s.database, p.category, p.name, p.version).Some? {
      var props := s.database[p.category].packages[p.name][p.version];
      var common := s.database[p.category].commonData;
      assert VersionOf(t.database, p.category, p.name, p.version) == Some(Update(props, common));
      assert Update(Update(props, common), map[]) == Update(props, common);
    }
  }

  /** What the in-memory database holds after PackageDB.write with structure version 0:
      the fold updates the version dicts the database itself holds. */
  function FoldedInPlace(db: Database): (r: Database)
    ensures r.Keys == db.Keys
    ensures forall c :: c in db ==> r[c] == CategoryData(db[c].commonData, Folded(db[c]))
  {
    map c | c in db :: CategoryData(db[c].commonData, Folded(db[c]))
  }

  /** Folding the common data in place changes no package description. */
  lemma FoldedInPlaceKeepsDescriptions(s: Store, p: Package)
    ensures PackageDescription(Store(s.categories, FoldedInPlace(s.database)), p) == PackageDescription(s, p)
  {
    var t := Store(s.categories, FoldedInPlace(s.database));
    if VersionOf(s.database, p.category, p.name, p.version).Some? {
      var props := s.database[p.category].packages[p.name][p.version];
      var common := s.database[p.category].commonData;
      assert VersionOf(t.database, p.category, p.name, p.version) == Some(Update(props, common));
      assert Update(Update(props, common), common) == Update(props, common);
    }
  }

  /** The store PackageDB.read makes of the files, when every step succeeds: the
      manifest check, the metadata, categories.json, every category's packages file,
      the structure version and the conversion. */
  function StoreRead(files: map<string, FileData>, dirs: set<string>, dir: string, env: Env): (r: Option<Store>)
    ensures r.Some? ==> ReadHead(files, dir, env).Ok?
    ensures r.Some? ==> r.value.categories == ReadHead(files, dir, env).value.categories.m
    ensures r.Some? ==> r.value.database.Keys == r.value.categories.Keys
  {
    match ReadHead(files, dir, env)
    case Err(_) => None
    case Ok(h) =>
      if exists c :: c in h.names && CategoryOutcome(files, dirs, dir, c, h.format, env.reg).Err? then None
      else StoreFrom(h.metadata, h.categories.m, CategoryPackages(files, dirs, dir, h.names, h.format, env.reg))
  }

  /** The last steps of PackageDB.read, on what DBLayout.read returned. */
  function StoreFrom(metadata: Value, categories: Props, packages: Props): (r: Option<Store>)
    ensures r.Some? ==> r.value.categories == categories && r.value.database.Keys == packages.Keys
    ensures r.Some? <==> Lookup(metadata, "db_version").Ok? && ConvertedDatabase(Lookup(metadata, "db_version").value, packages).Ok?
    ensures r.Some? ==> r.value.database == ConvertedDatabase(Lookup(metadata, "db_version").value, packages).value
  {
    match Lookup(metadata, "db_version")
    case Err(_) => None
    case Ok(v) =>
      match ConvertedDatabase(v, packages)
      case Err(_) => None
      case Ok(db) => Some(Store(categories, db))
  }

  /** Every store read back is consistent. */
  lemma StoreReadConsistent(files: map<string, FileData>, dirs: set<string>, dir: string, env: Env)
    requires StoreRead(files, dirs, dir, env).Some?
    ensures Consistent(StoreRead(files, dirs, dir, env).value)
  {
  }

  /** The conversion loop of PackageDB.read, over the categories in any order. */
  method ConvertPackages(dbVersion: Value, packages: Props) returns (r: Result<Database>)
    ensures r.Ok? <==> ConvertedDatabase(dbVersion, packages).Ok?
    ensures r.Ok? ==> r == ConvertedDatabase(dbVersion, packages)
    ensures !NumEq(dbVersion, 0) && !NumEq(dbVersion, 1) ==> r == Err(DBStructureError)
  {
    if !NumEq(dbVersion, 0) && !NumEq(dbVersion, 1) {
      return Err(DBStructureError);
    }
    var db: Database := map[];
    var todo := packages.Keys;
    ghost var done: set<string> := {};
    while todo != {}
      invariant todo + done == packages.Keys && todo !! done
      invariant db.Keys == done
      invariant forall c :: c in done ==> ConvertCategory(dbVersion, packages[c]).Ok? && db[c] == ConvertCategory(dbVersion, packages[c]).value
      decreases todo
    {
      var c :| c in todo;
      var entry := ConvertCategory(dbVersion, packages[c]);
      if entry.Err? {
        return Err(entry.error);
      }
      db := db[c := entry.value];
      todo := todo - {c};
      done := done + {c};
    }
    assert db == ConvertedDatabase(dbVersion, packages).value;
    return Ok(db);
  }

  /** What structure version PackageDB.read finds: layout 1 keeps the metadata written,
      layout 0 reads the legacy metadata, whose structure version is 0 as well. */
  lemma DbVersionAfterWrite(prefs: Preferences)
    requires CheckPreferences(prefs).Ok?
    ensures Lookup(MetadataAfterWrite(MetadataValue(prefs)), "db_version") == Ok(Int(prefs.dbVersion))
  {
  }

  /** The packages DBLayout.read returns after PackageDB.write are the structure that
      was written. */
  lemma CategoryPackagesAfterWrite(files: map<string, FileData>, dirs: set<string>, dir: string, env: Env,
                                   prefs: Preferences, s: Store)
    requires CheckPreferences(prefs).Ok?
    requires s.database.Keys == s.categories.Keys
    requires forall c :: c in s.categories ==>
      CategoryOutcome(files, dirs, dir, c, prefs.categoryFormat, env.reg) == Ok(StructureValue(prefs.dbVersion, s.database).m[c])
    ensures CategoryPackages(files, dirs, dir, s.categories.Keys, prefs.categoryFormat, env.reg) ==
            StructureValue(prefs.dbVersion, s.database).m
  {
    CategoryPackagesAre(files, dirs, dir, s.categories.Keys, prefs.categoryFormat, env.reg,
                        StructureValue(prefs.dbVersion, s.database).m);
  }

  /** The packages DBLayout.read collects are the values every category yields. */
  lemma CategoryPackagesAre(files: map<string, FileData>, dirs: set<string>, dir: string,
                            names: set<string>, format: string, reg: Registry, m: Props)
    requires names == m.Keys
    requires forall c :: c in names ==> CategoryOutcome(files, dirs, dir, c, format, reg) == Ok(m[c])
    ensures CategoryPackages(files, dirs, dir, names, format, reg) == m
  {
    SameMaps(CategoryPackages(files, dirs, dir, names, format, reg), m);
  }

  /** Write then read: the files a successful PackageDB.write leaves read back as the same
      categories and, in structure version 1, the same database; in structure version 0
      as its legacy image. Every category needs a package in version 0, as an empty
      packages file is refused on reading. */
  lemma PackageDbWriteThenRead(files: map<string, FileData>, dirs: set<string>, dir: string, env: Env,
                               prefs: Preferences, s: Store)
    requires CheckPreferences(prefs).Ok? && Consistent(s)
    requires Written(files, dirs, dir, env, MetadataValue(prefs), Map(s.categories), StructureValue(prefs.dbVersion, s.database))
    requires RoundTrips(env.reg, Map(s.categories))
    requires forall c :: c in s.database ==> RoundTrips(env.reg, StructureValue(prefs.dbVersion, s.database).m[c])
    requires prefs.dbVersion == 0 ==> forall c :: c in s.database ==> s.database[c].packages != map[]
    ensures StoreRead(files, dirs, dir, env) ==
      Some(Store(s.categories, if prefs.dbVersion == 0 then LegacyImage(s.database) else s.database))
  {
    HeadAfterWrite(files, dirs, dir, env, prefs, s);
    StoreAfterHead(files, dirs, dir, env, prefs, s);
  }

  /** The second half of write then read: the store made of what DBLayout.read found. */
  lemma StoreAfterHead(files: map<string, FileData>, dirs: set<string>, dir: string, env: Env,
                       prefs: Preferences, s: Store)
    requires CheckPreferences(prefs).Ok? && s.database.Keys == s.categories.Keys
    requires ReadHead(files, dir, env) ==
      Ok(Head(MetadataAfterWrite(MetadataValue(prefs)), prefs.categoryFormat, Map(s.categories), s.categories.Keys))
    requires forall c :: c in s.categories ==>
      CategoryOutcome(files, dirs, dir, c, prefs.categoryFormat, env.reg) == Ok(StructureValue(prefs.dbVersion, s.database).m[c])
    ensures StoreRead(files, dirs, dir, env) ==
      Some(Store(s.categories, if prefs.dbVersion == 0 then LegacyImage(s.database) else s.database))
  {
    var h := Head(MetadataAfterWrite(MetadataValue(prefs)), prefs.categoryFormat, Map(s.categories), s.categories.Keys);
    CategoryPackagesAfterWrite(files, dirs, dir, env, prefs, s);
    StoreReadOfHead(files, dirs, dir, env, h);
    StoreFromStructure(prefs, s);
  }

  /** The first half of write then read: what DBLayout.read finds. */
  lemma HeadAfterWrite(files: map<string, FileData>, dirs: set<string>, dir: string, env: Env,
                       prefs: Preferences, s: Store)
    requires CheckPreferences(prefs).Ok? && Consistent(s)
    requires Written(files, dirs, dir, env, MetadataValue(prefs), Map(s.categories), StructureValue(prefs.dbVersion, s.database))
    requires RoundTrips(env.reg, Map(s.categories))
    requires forall c :: c in s.database ==> RoundTrips(env.reg, StructureValue(prefs.dbVersion, s.database).m[c])
    requires prefs.dbVersion == 0 ==> forall c :: c in s.database ==> s.database[c].packages != map[]
    ensures s.database.Keys == s.categories.Keys
    ensures ReadHead(files, dir, env) ==
      Ok(Head(MetadataAfterWrite(MetadataValue(prefs)), prefs.categoryFormat, Map(s.categories), s.categories.Keys))
    ensures forall c :: c in s.categories ==>
      CategoryOutcome(files, dirs, dir, c, prefs.categoryFormat, env.reg) == Ok(StructureValue(prefs.dbVersion, s.database).m[c])
  {
    var metadata := MetadataValue(prefs);
    var packages := StructureValue(prefs.dbVersion, s.database);
    WrittenCoversDatabase(files, dirs, dir, env, prefs, s);
    WriteReadable(env, prefs, s);
    WriteThenReadDb(files, dirs, dir, env, metadata, Map(s.categories), packages);
  }

  /** What PackageDB.write hands to DBLayout.write meets what reading it back needs. */
  lemma WriteReadable(env: Env, prefs: Preferences, s: Store)
    requires CheckPreferences(prefs).Ok? && s.database.Keys == s.categories.Keys
    requires forall c :: c in s.database ==> RoundTrips(env.reg, StructureValue(prefs.dbVersion, s.database).m[c])
    requires prefs.dbVersion == 0 ==> forall c :: c in s.database ==> s.database[c].packages != map[]
    ensures GetLayout(MetadataValue(prefs)).Ok? && GetLayout(MetadataValue(prefs)).value.categoryFormat == prefs.categoryFormat
    ensures RoundTrips(env.reg, MetadataValue(prefs))
    ensures var packages := StructureValue(prefs.dbVersion, s.database);
      forall c :: c in Map(s.categories).m && c in Entries(packages) ==>
        RoundTrips(env.reg, Entries(packages)[c]) && Truthy(Entries(packages)[c])
  {
    StructureReadable(env, prefs, s);
    MetadataRoundTrips(env.reg, prefs);
  }

  /** The metadata of the preferences survives the codec. */
  lemma MetadataRoundTrips(reg: Registry, prefs: Preferences)
    ensures RoundTrips(reg, MetadataValue(prefs))
  {
    var m := MetadataValue(prefs).m;
    assert ClassKey !in m;
    assert forall k :: k in m ==> RoundTrips(reg, m[k]);
  }

  /** A written database has an entry for every category. */
  lemma WrittenCoversDatabase(files: map<string, FileData>, dirs: set<string>, dir: string, env: Env,
                              prefs: Preferences, s: Store)
    requires Consistent(s)
    requires Written(files, dirs, dir, env, MetadataValue(prefs), Map(s.categories), StructureValue(prefs.dbVersion, s.database))
    ensures s.database.Keys == s.categories.Keys
  {
    var packages := StructureValue(prefs.dbVersion, s.database);
    forall c | c in s.categories ensures c in s.database {
      assert c in Map(s.categories).m;
      assert c in Entries(packages);
    }
  }

  /** The second half of write then read: the conversion of what was written. */
  lemma StoreFromStructure(prefs: Preferences, s: Store)
    requires CheckPreferences(prefs).Ok?
    ensures StoreFrom(MetadataAfterWrite(MetadataValue(prefs)), s.categories, StructureValue(prefs.dbVersion, s.database).m) ==
      Some(Store(s.categories, if prefs.dbVersion == 0 then LegacyImage(s.database) else s.database))
  {
    DbVersionAfterWrite(prefs);
    if prefs.dbVersion == 0 {
      StructureZeroRoundTrip(s.database);
    } else {
      StructureOneRoundTrip(s.database);
    }
  }

  /** The structure PackageDB.write hands over passes the checks DBLayout.read makes on
      every category. */
  lemma StructureReadable(env: Env, prefs: Preferences, s: Store)
    requires s.database.Keys == s.categories.Keys
    requires forall c :: c in s.database ==> RoundTrips(env.reg, StructureValue(prefs.dbVersion, s.database).m[c])
    requires prefs.dbVersion == 0 ==> forall c :: c in s.database ==> s.database[c].packages != map[]
    ensures var packages := StructureValue(prefs.dbVersion, s.database);
      forall c :: c in Map(s.categories).m && c in Entries(packages) ==>
        RoundTrips(env.reg, Entries(packages)[c]) && Truthy(Entries(packages)[c])
  {
    var packages := StructureValue(prefs.dbVersion, s.database);
    forall c | c in Map(s.categories).m && c in Entries(packages)
      ensures RoundTrips(env.reg, Entries(packages)[c]) && Truthy(Entries(packages)[c])
    {
      if prefs.dbVersion == 0 {
        var n :| n in s.database[c].packages;
        assert n in packages.m[c].m;
      }
    }
  }

  /** Once the head is read and every category is readable, PackageDB.read goes on with
      what DBLayout.read returns. */
  lemma StoreReadOfHead(files: map<string, FileData>, dirs: set<string>, dir: string, env: Env, h: Head)
    requires ReadHead(files, dir, env) == Ok(h)
    requires forall c :: c in h.names ==> CategoryOutcome(files, dirs, dir, c, h.format, env.reg).Ok?
    ensures StoreRead(files, dirs, dir, env) ==
      StoreFrom(h.metadata, h.categories.m, CategoryPackages(files, dirs, dir, h.names, h.format, env.reg))
  {
  }

  /** Write then read keeps every package description, in both structure versions. */
  lemma WriteThenReadDescriptions(files: map<string, FileData>, dirs: set<string>, dir: string, env: Env,
                                  prefs: Preferences, s: Store, p: Package)
    requires CheckPreferences(prefs).Ok? && Consistent(s)
    requires Written(files, dirs, dir, env, MetadataValue(prefs), Map(s.categories), StructureValue(prefs.dbVersion, s.database))
    requires RoundTrips(env.reg, Map(s.categories))
    requires forall c :: c in s.database ==> RoundTrips(env.reg, StructureValue(prefs.dbVersion, s.database).m[c])
    requires prefs.dbVersion == 0 ==> forall c :: c in s.database ==> s.database[c].packages != map[]
    ensures StoreRead(files, dirs, dir, env).Some?
    ensures PackageDescription(StoreRead(files, dirs, dir, env).value, p) == PackageDescription(s, p)
  {
    PackageDbWriteThenRead(files, dirs, dir, env, prefs, s);
    LegacyImageKeepsDescriptions(s, p);
  }

  // ---------------------------------------------------------------------------------
  // get_max_version

  /** A strict weak order, as portage's comparison of the versions of one package is. */
  ghost predicate StrictWeakOrder(newer: (string, string) -> bool)
  {
    (forall a :: !newer(a, a)) &&
    (forall a, b, c :: newer(a, b) && newer(b, c) ==> newer(a, c)) &&
    (forall a, b, c :: newer(a, c) ==> newer(a, b) || newer(b, c))
  }

  /** The running maximum of get_max_version: the first version that no other version is
      newer than. */
  method MaxVersion(versions: seq<string>, newer: (string, string) -> bool) returns (m: string)
    requires |versions| > 0 && StrictWeakOrder(newer)
    ensures exists k :: (0 <= k < |versions| && m == versions[k] &&
      (forall j :: 0 <= j < |versions| ==> !newer(versions[j], m)) &&
      (forall j :: 0 <= j < k ==> newer(m, versions[j])))
  {
    m := versions[0];
    ghost var k := 0;
    var i := 1;
    while i < |versions|
      invariant 1 <= i <= |versions|
      invariant 0 <= k < i && m == versions[k]
      invariant forall j :: 0 <= j < i ==> !newer(versions[j], m)
      invariant forall j :: 0 <= j < k ==> newer(m, versions[j])
    {
      if newer(versions[i], m) {
        m := versions[i];
        k := i;
      }
      i := i + 1;
    }
  }

  /** list() of a dict's keys: each key once, in an order not modelled. */
  method ListKeys(keys: set<string>) returns (s: seq<string>)
    ensures forall x :: x in keys <==> x in s
    ensures forall i, j :: 0 <= i < j < |s| ==> s[i] != s[j]
  {
    s := [];
    var todo := keys;
    while todo != {}
      invariant todo <= keys
      invariant forall x :: x in keys <==> x in s || x in todo
      invariant forall x :: x in s ==> x !in todo
      invariant forall i, j :: 0 <= i < j < |s| ==> s[i] != s[j]
      decreases todo
    {
      var x :| x in todo;
      s := s + [x];
      todo := todo - {x};
    }
  }

  // ---------------------------------------------------------------------------------
  // The edits a database generator makes

  /** One call of process_data on the database: add_category, set_common_data or
      add_package. */
  datatype Edit =
    | NewCategory(category: string, description: Value)
    | NewCommonData(category: string, commonData: Props)
    | NewPackage(package: Package, ebuildData: Props)

  function ApplyEdit(s: Store, e: Edit): (r: Result<Store>)
    ensures Consistent(s) && r.Ok? ==> Consistent(r.value)
  {
    match e
    case NewCategory(c, d) => Ok(WithCategory(s, c, d))
    case NewCommonData(c, d) => WithCommonData(s, c, d)
    case NewPackage(p, d) => WithPackage(s, p, d)
  }

  /** The edits in order, up to the first that fails. */
  function ApplyEdits(s: Store, edits: seq<Edit>): (r: Result<Store>)
    decreases |edits|
  {
    if |edits| == 0 then Ok(s)
    else
      var t :- ApplyEdits(s, edits[..|edits| - 1]);
      ApplyEdit(t, edits[|edits| - 1])
  }

  /** Every sequence of edits keeps the database's categories registered. */
  lemma {:induction false} ApplyEditsConsistent(s: Store, edits: seq<Edit>)
    requires Consistent(s) && ApplyEdits(s, edits).Ok?
    ensures Consistent(ApplyEdits(s, edits).value)
    decreases |edits|
  {
    if |edits| > 0 {
      ApplyEditsConsistent(s, edits[..|edits| - 1]);
    }
  }

  /** A category added by an edit stays registered through the later edits. */
  lemma {:induction false} ApplyEditsKeepCategories(s: Store, edits: seq<Edit>)
    requires ApplyEdits(s, edits).Ok?
    ensures s.categories.Keys <= ApplyEdits(s, edits).value.categories.Keys
    ensures forall i :: 0 <= i < |edits| && edits[i].NewCategory? ==> edits[i].category in ApplyEdits(s, edits).value.categories
    decreases |edits|
  {
    if |edits| > 0 {
      var prefix := edits[..|edits| - 1];
      ApplyEditsKeepCategories(s, prefix);
      forall i | 0 <= i < |edits| - 1 && edits[i].NewCategory?
        ensures edits[i].category in ApplyEdits(s, prefix).value.categories
      {
        assert edits[i] == prefix[i];
      }
    }
  }

  // ---------------------------------------------------------------------------------
  // PackageDB

  const SupportedSyncers: set<string> := {"tgz", "git"}

  /** The files after sync has checked the staged tree, cleaned the database directory
      and copied the staged tree into it. */
  function SyncedFiles(files: map<string, FileData>, staged: string, dir: string): map<string, FileData>
  {
    var checked := AfterRead(ManifestJson(staged), files);
    var cleaned := Pruned(checked, dir);
    cleaned + Rerooted(cleaned, staged, dir)
  }

  /** What PackageDB.write needs to succeed on a store: DBLayout.write can put every
      file of its structure down, and categories.json reads back as written. */
  predicate StoreWritable(prefs: Preferences, s: Store, reg: Registry)
  {
    Writable(MetadataValue(prefs), Map(s.categories), StructureValue(prefs.dbVersion, s.database)) &&
    RoundTrips(reg, Map(s.categories))
  }

  /** What a successful PackageDB.write of the store `s` leaves, starting from the files
      `files0` and directories `dirs0`: apart from the manifest, exactly the files
      DBLayout.write stages for the store's metadata, categories and structure, and a
      manifest that passes its check. */
  ghost predicate WrittenFrom(files0: map<string, FileData>, dirs0: set<string>,
                              files: map<string, FileData>, dirs: set<string>, directory: string,
                              env: Env, prefs: Preferences, s: Store)
  {
    var metadata, categories := MetadataValue(prefs), Map(s.categories);
    var packages := StructureValue(prefs.dbVersion, s.database);
    Writable(metadata, categories, packages) &&
    files - {ManifestJson(directory).Path()} == StagedFiles(files0, directory, metadata, categories, packages) &&
    dirs == StagedDirs(dirs0, directory, categories) &&
    Written(files, dirs, directory, env, metadata, categories, packages)
  }

  /** Reading the database first only adds its directory, which the write keeps anyway. */
  lemma WrittenFromDirectory(files0: map<string, FileData>, dirs0: set<string>,
                             files: map<string, FileData>, dirs: set<string>, directory: string,
                             env: Env, prefs: Preferences, s: Store)
    requires WrittenFrom(files0, dirs0 + {directory}, files, dirs, directory, env, prefs, s)
    ensures WrittenFrom(files0, dirs0, files, dirs, directory, env, prefs, s)
  {
    StagedDirsKeepDirectory(dirs0, directory, Map(s.categories));
  }

  /** After a generation that filled the database with `filled`: the object holds that
      store, folded in place for structure version 0, and the directory holds what write
      leaves for it. */
  ghost predicate Regenerated(held: Store, files0: map<string, FileData>, dirs0: set<string>,
                              files: map<string, FileData>, dirs: set<string>, directory: string,
                              env: Env, prefs: Preferences, filled: Store)
  {
    held == Store(filled.categories, if prefs.dbVersion == 0 then FoldedInPlace(filled.database) else filled.database) &&
    WrittenFrom(files0, dirs0, files, dirs, directory, env, prefs, filled)
  }

  class PackageDB {
    const directory: string
    const persistentDatadir: Option<string>
    const prefs: Preferences
    const layout: DBLayout
    var categories: Props
    var database: Database

    /** The two dicts, as a store. */
    function Contents(): (r: Store)
      reads this
      ensures r.categories == categories && r.database == database
    {
      Store(categories, database)
    }

    /** PackageDB.__init__ once its checks have passed. */
    constructor(directory: string, persistentDatadir: Option<string>, prefs: Preferences)
      requires CheckPreferences(prefs).Ok?
      ensures this.directory == directory && this.persistentDatadir == persistentDatadir && this.prefs == prefs
      ensures layout == DBLayout(directory)
      ensures Contents() == EmptyStore
    {
      this.directory := directory;
      this.persistentDatadir := persistentDatadir;
      this.prefs := prefs;
      this.layout := DBLayout(directory);
      categories := map[];
      database := map[];
    }

    /** PackageDB.__init__ with its checks: an unsupported combination of preferences
        is refused before anything is set up. */
    static method Create(directory: string, persistentDatadir: Option<string>, prefs: Preferences)
      returns (r: Result<PackageDB>)
      ensures r.Ok? <==> CheckPreferences(prefs).Ok?
      ensures r.Err? ==> r.error == CheckPreferences(prefs).error
      ensures r.Ok? ==> (fresh(r.value) && r.value.directory == directory && r.value.prefs == prefs &&
        r.value.persistentDatadir == persistentDatadir && r.value.layout == DBLayout(directory) &&
        r.value.Contents() == EmptyStore)
    {
      var checked := CheckPreferences(prefs);
      if checked.Err? {
        return Err(checked.error);
      }
      var db := new PackageDB(directory, persistentDatadir, prefs);
      return Ok(db);
    }

    method ResetDb()
      modifies this
      ensures Contents() == EmptyStore
    {
      database := map[];
      categories := map[];
    }

    /** clean: the database directory is removed and both dicts emptied. */
    method Clean(disk: Disk)
      requires layout == DBLayout(directory)
      modifies this, disk
      ensures disk.files == Pruned(old(disk.files), directory)
      ensures disk.dirs == set x | x in old(disk.dirs) && x != directory && !Under(x, directory)
      ensures Contents() == EmptyStore
    {
      layout.Clean(disk);
      ResetDb();
    }

    method AddCategory(category: string, description: Value)
      modifies this
      ensures Contents() == WithCategory(old(Contents()), category, description)
    {
      categories := categories[category := if Truthy(description) then description else Map(map[])];
    }

    method SetCommonData(category: string, commonData: Props) returns (r: Result<()>)
      modifies this
      ensures var o := WithCommonData(old(Contents()), category, commonData);
        (o.Err? ==> r == Err(o.error) && Contents() == old(Contents())) &&
        (o.Ok? ==> r == Ok(()) && Contents() == o.value)
    {
      if category !in categories {
        return Err(InvalidKeyError);
      }
      if category !in database {
        database := database[category := CategoryData(commonData, map[])];
      } else {
        database := database[category := database[category].(commonData := commonData)];
      }
      return Ok(());
    }

    method AddPackage(package: Package, ebuildData: Props) returns (r: Result<()>)
      modifies this
      ensures var o := WithPackage(old(Contents()), package, ebuildData);
        (o.Err? ==> r == Err(o.error) && Contents() == old(Contents())) &&
        (o.Ok? ==> r == Ok(()) && Contents() == o.value)
    {
      var category, name, version := package.category, package.name, package.version;
      if category == "" || name == "" || version == "" {
        return Err(DBError);
      }
      if category !in categories {
        return Err(InvalidKeyError);
      }
      var entry := if category in database then database[category] else CategoryData(map[], map[]);
      var versions := if name in entry.packages then entry.packages[name] else map[];
      database := database[category := entry.(packages := entry.packages[name := versions[version := ebuildData]])];
      return Ok(());
    }

    /** One process_data call on the database. */
    method ApplyOne(e: Edit) returns (r: Result<()>)
      modifies this
      ensures var o := ApplyEdit(old(Contents()), e);
        (o.Err? ==> r == Err(o.error) && Contents() == old(Contents())) &&
        (o.Ok? ==> r == Ok(()) && Contents() == o.value)
    {
      match e
      case NewCategory(c, d) =>
        AddCategory(c, d);
        r := Ok(());
      case NewCommonData(c, d) =>
        r := SetCommonData(c, d);
      case NewPackage(p, d) =>
        r := AddPackage(p, d);
    }

    /** The edits in order; the first that fails stops the run and leaves the earlier
        ones in place. */
    method Apply(edits: seq<Edit>) returns (r: Result<()>)
      modifies this
      ensures var o := ApplyEdits(old(Contents()), edits);
        (o.Err? <==> r.Err?) && (o.Err? ==> r.error == o.error) && (o.Ok? ==> Contents() == o.value)
    {
      ghost var s0 := Contents();
      var i := 0;
      while i < |edits|
        invariant 0 <= i <= |edits|
        invariant ApplyEdits(s0, edits[..i]) == Ok(Contents())
      {
        assert edits[..i + 1][..i] == edits[..i];
        var step := ApplyOne(edits[i]);
        if step.Err? {
          assert ApplyEdits(s0, edits[..i + 1]).Err?;
          ApplyEditsStops(s0, edits, i + 1);
          return step;
        }
        i := i + 1;
      }
      assert edits[..i] == edits;
      return Ok(());
    }

    /** The generating branch of DBGenerator.__call__: clean, fill, write. The filled
        store is the edits applied to an empty database. */
    method Regenerate(disk: Disk, env: Env, edits: Result<seq<Edit>>) returns (r: Result<()>)
      requires CheckPreferences(prefs).Ok? && layout == DBLayout(directory)
      modifies this, disk
      ensures edits.Err? ==> r == Err(edits.error)
      ensures edits.Ok? && ApplyEdits(EmptyStore, edits.value).Err? ==>
        r == Err(ApplyEdits(EmptyStore, edits.value).error)
      ensures r.Ok? ==> edits.Ok? && ApplyEdits(EmptyStore, edits.value).Ok?
      ensures r.Ok? ==> Consistent(Contents()) && CheckOutcome(disk.files, directory, env) == Ok({})
      ensures r.Ok? ==> Regenerated(Contents(), old(disk.files), old(disk.dirs), disk.files, disk.dirs, directory,
                                    env, prefs, ApplyEdits(EmptyStore, edits.value).value)
      ensures (edits.Ok? && ApplyEdits(EmptyStore, edits.value).Ok? &&
               StoreWritable(prefs, ApplyEdits(EmptyStore, edits.value).value, env.reg)) ==> r.Ok?
    {
      ghost var files0, dirs0 := disk.files, disk.dirs;
      Clean(disk);
      if edits.Err? {
        return Err(edits.error);
      }
      var filled := Apply(edits.value);
      if filled.Err? {
        return filled;
      }
      ApplyEditsConsistent(EmptyStore, edits.value);
      r := Write(disk, env);
      if r.Ok? {
        CleanedTwice(files0, dirs0, directory, MetadataValue(prefs), Map(categories),
                     StructureValue(prefs.dbVersion, ApplyEdits(EmptyStore, edits.value).value.database));
      }
    }

    /** The fold loop of PackageDB.write for structure version 0, over the categories in
        any order; it runs on the database's own version dicts. */
    method FoldCommonData()
      modifies this
      ensures categories == old(categories)
      ensures database == FoldedInPlace(old(database))
    {
      ghost var db0 := database;
      var todo := database.Keys;
      ghost var done: set<string> := {};
      while todo != {}
        invariant todo + done == db0.Keys && todo !! done
        invariant categories == old(categories)
        invariant database.Keys == db0.Keys
        invariant forall c :: c in done ==> database[c] == CategoryData(db0[c].commonData, Folded(db0[c]))
        invariant forall c :: c in todo ==> database[c] == db0[c]
        decreases todo
      {
        var c :| c in todo;
        var entry := database[c];
        database := database[c := CategoryData(entry.commonData, Folded(entry))];
        todo := todo - {c};
        done := done + {c};
      }
      assert database == FoldedInPlace(db0);
    }

    /** write: the metadata of the preferences, categories.json and the packages in the
        preferred structure, then the digest. */
    method Write(disk: Disk, env: Env) returns (r: Result<()>)
      requires CheckPreferences(prefs).Ok? && layout == DBLayout(directory)
      modifies this, disk
      ensures categories == old(categories)
      ensures database == if prefs.dbVersion == 0 then FoldedInPlace(old(database)) else old(database)
      ensures StoreWritable(prefs, old(Contents()), env.reg) ==> r.Ok?
      ensures r.Ok? ==> WrittenFrom(old(disk.files), old(disk.dirs), disk.files, disk.dirs, directory, env, prefs, old(Contents()))
      ensures r.Ok? ==> SameOutside(disk.files, old(disk.files), directory)
    {
      var metadata := MetadataValue(prefs);
      var packages := StructureValue(prefs.dbVersion, database);
      if prefs.dbVersion == 0 {
        FoldCommonData();
      }
      r := layout.Write(disk, env, metadata, Map(categories), packages);
    }

    /** read: DBLayout.read, then the categories are taken, then the structure version is
        looked up and the packages converted. The database is kept when a later step
        fails. */
    method Read(disk: Disk, env: Env) returns (r: Result<()>)
      requires layout == DBLayout(directory)
      modifies this, disk
      ensures ReadHead(old(disk.files), directory, env).Err? ==>
        r == Err(ReadHead(old(disk.files), directory, env).error) && Contents() == old(Contents())
      ensures r.Ok? <==> StoreRead(old(disk.files), old(disk.dirs), directory, env).Some?
      ensures r.Ok? ==> Contents() == StoreRead(old(disk.files), old(disk.dirs), directory, env).value
      ensures r.Err? ==> database == old(database)
      ensures r.Ok? ==> disk.files == old(disk.files)
      ensures forall p :: p in old(disk.files) ==> p in disk.files && disk.files[p] == old(disk.files)[p]
      ensures disk.dirs == old(disk.dirs) + {directory}
    {
      ghost var files0, dirs0 := disk.files, disk.dirs;
      var read := layout.Read(disk, env);
      if read.Err? {
        return Err(read.error);
      }
      ghost var h := ReadHead(files0, directory, env).value;
      StoreReadOfHead(files0, dirs0, directory, env, h);
      var (metadata, cats, packages) := read.value;
      r := Adopt(metadata, cats, packages);
    }

    /** The steps of read after DBLayout.read: the categories are taken at once, then
        the structure version is looked up and the packages converted. */
    method Adopt(metadata: Value, cats: Value, packages: Props) returns (r: Result<()>)
      requires cats.Map?
      modifies this
      ensures categories == cats.m
      ensures r.Ok? <==> StoreFrom(metadata, cats.m, packages).Some?
      ensures r.Ok? ==> database == StoreFrom(metadata, cats.m, packages).value.database
      ensures r.Err? ==> database == old(database)
    {
      categories := cats.m;
      var dbVersion := Lookup(metadata, "db_version");
      if dbVersion.Err? {
        return Err(dbVersion.error);
      }
      var converted := ConvertPackages(dbVersion.value, packages);
      if converted.Err? {
        return Err(converted.error);
      }
      database := converted.value;
      return Ok(());
    }

    /** sync: an unknown method is refused; the staged tree's manifest is checked before
        anything local is touched; then the database is cleaned, the staged tree copied
        in, and the copy checked. Fetching the staged tree is not modelled: it is the
        directory `staged`. */
    method Sync(disk: Disk, env: Env, syncMethod: string, staged: string) returns (r: Result<()>)
      requires layout == DBLayout(directory)
      modifies this, disk
      ensures syncMethod !in SupportedSyncers ==>
        r == Err(SyncError) && Contents() == old(Contents()) && disk.files == old(disk.files) && disk.dirs == old(disk.dirs)
      ensures syncMethod in SupportedSyncers && ManifestSane(old(disk.files), staged, env).Err? ==>
        r == Err(ManifestSane(old(disk.files), staged, env).error) && Contents() == old(Contents()) &&
        disk.files == AfterRead(ManifestJson(staged), old(disk.files))
      ensures syncMethod in SupportedSyncers && ManifestSane(old(disk.files), staged, env).Ok? ==>
        Contents() == EmptyStore &&
        r == ManifestSane(SyncedFiles(old(disk.files), staged, directory), directory, env) &&
        disk.files == AfterRead(ManifestJson(directory), SyncedFiles(old(disk.files), staged, directory))
    {
      if syncMethod !in SupportedSyncers {
        return Err(SyncError);
      }
      var stagedDb := DBLayout(staged);
      var checked := stagedDb.CheckManifest(disk, env);
      if checked.Err? {
        return checked;
      }
      Clean(disk);
      disk.CopyAll(staged, directory);
      r := layout.CheckManifest(disk, env);
    }

    /** get_max_version: the lookup errors of list_package_versions, IndexError for a
        package without versions, and otherwise the first listed version that no other
        is newer than. */
    method GetMaxVersion(category: string, name: string, newer: (string, string) -> bool)
      returns (r: Result<string>, versions: seq<string>)
      requires StrictWeakOrder(newer)
      ensures PackageVersions(Contents(), category, name).Err? ==> r == Err(InvalidKeyError)
      ensures PackageVersions(Contents(), category, name).Ok? ==>
        (forall v :: v in versions <==> v in PackageVersions(Contents(), category, name).value) &&
        (forall i, j :: 0 <= i < j < |versions| ==> versions[i] != versions[j])
      ensures PackageVersions(Contents(), category, name).Ok? && |versions| == 0 ==> r == Err(IndexError)
      ensures PackageVersions(Contents(), category, name).Ok? && |versions| > 0 ==> r.Ok?
      ensures r.Ok? ==> exists k :: (0 <= k < |versions| && r.value == versions[k] &&
        (forall j :: 0 <= j < |versions| ==> !newer(versions[j], r.value)) &&
        (forall j :: 0 <= j < k ==> newer(r.value, versions[j])))
    {
      versions := [];
      if category == "" || category !in categories {
        return Err(InvalidKeyError), versions;
      }
      if category !in database || name !in database[category].packages {
        return Err(InvalidKeyError), versions;
      }
      versions := ListKeys(database[category].packages[name].Keys);
      if |versions| == 0 {
        return Err(IndexError), versions;
      }
      var m := MaxVersion(versions, newer);
      return Ok(m), versions;
    }
  }

  /** Once an edit fails, the later ones do not matter. */
  lemma {:induction false} ApplyEditsStops(s: Store, edits: seq<Edit>, i: nat)
    requires i <= |edits| && ApplyEdits(s, edits[..i]).Err?
    ensures ApplyEdits(s, edits) == ApplyEdits(s, edits[..i])
    decreases |edits| - i
  {
    if i < |edits| {
      assert edits[..i + 1][..i] == edits[..i];
      ApplyEditsStops(s, edits, i + 1);
    } else {
      assert edits[..i] == edits;
    }
  }

  // ---------------------------------------------------------------------------------
  // DBGenerator

  /** A config whose `name` entry, when it has one, is a dict; a falsy config is skipped
      by every rule, whatever it is. */
  predicate TableConfig(config: Value, name: string)
  {
    !Truthy(config) || (config.Map? && (name in config.m ==> config.m[name].Map?))
  }

  /** The config's `name` table has an entry for `key`. */
  predicate Matches(config: Value, name: string, key: string)
  {
    Truthy(config) && config.Map? && name in config.m && config.m[name].Map? && key in config.m[name].m
  }

  /** One config's turn in the loops of convert and convert_dependency: a falsy config is
      skipped; a table under `name` that holds `key` gives the new result. Python's `in`
      and `[]` on the config and on the table may raise. */
  function TranslateStep(config: Value, name: string, key: string, result: Value): (r: Result<Value>)
    ensures Matches(config, name, key) ==> r == Ok(config.m[name].m[key])
    ensures TableConfig(config, name) && !Matches(config, name, key) ==> r == Ok(result)
  {
    if !Truthy(config) then Ok(result)
    else
      var has :- Contains(config, name);
      if !has then Ok(result)
      else
        var table :- Lookup(config, name);
        var found :- Contains(table, key);
        if found then Lookup(table, key) else Ok(result)
  }

  /** The configs in order, from the running result `result`. */
  function Translated(configs: seq<Value>, name: string, key: string, result: Value): Result<Value>
    decreases |configs|
  {
    if |configs| == 0 then Ok(result)
    else
      var next :- TranslateStep(configs[0], name, key, result);
      Translated(configs[1..], name, key, next)
  }

  /** The last config whose table holds the key decides; without one the running result
      is kept. */
  lemma {:induction false} TranslatedLastMatch(configs: seq<Value>, name: string, key: string, result: Value)
    requires forall i :: 0 <= i < |configs| ==> TableConfig(configs[i], name)
    ensures Translated(configs, name, key, result).Ok?
    ensures (forall i :: 0 <= i < |configs| ==> !Matches(configs[i], name, key)) ==>
      Translated(configs, name, key, result) == Ok(result)
    ensures forall i :: (0 <= i < |configs| && Matches(configs[i], name, key) &&
      (forall j :: i < j < |configs| ==> !Matches(configs[j], name, key))) ==>
      Translated(configs, name, key, result) == Ok(configs[i].m[name].m[key])
    decreases |configs|
  {
    if |configs| > 0 {
      var rest := configs[1..];
      var next := TranslateStep(configs[0], name, key, result).value;
      TranslatedLastMatch(rest, name, key, next);
      forall i | 0 <= i < |configs| && Matches(configs[i], name, key) &&
        (forall j :: i < j < |configs| ==> !Matches(configs[j], name, key))
        ensures Translated(configs, name, key, result) == Ok(configs[i].m[name].m[key])
      {
        if i > 0 {
          assert configs[i] == rest[i - 1];
          forall j | i - 1 < j < |rest| ensures !Matches(rest[j], name, key) {
            assert rest[j] == configs[j + 1];
          }
        } else {
          forall j | 0 <= j < |rest| ensures !Matches(rest[j], name, key) {
            assert rest[j] == configs[j + 1];
          }
        }
      }
      if forall i :: 0 <= i < |configs| ==> !Matches(configs[i], name, key) {
        assert forall j :: 0 <= j < |rest| ==> rest[j] == configs[j + 1];
      }
    }
  }

  /** The loop shared by convert and convert_dependency. */
  method Translate(configs: seq<Value>, name: string, key: string, initial: Value) returns (r: Result<Value>)
    ensures r == Translated(configs, name, key, initial)
  {
    var result := initial;
    var i := 0;
    while i < |configs|
      invariant 0 <= i <= |configs|
      invariant Translated(configs, name, key, initial) == Translated(configs[i..], name, key, result)
    {
      assert configs[i..][1..] == configs[i + 1..];
      var config := configs[i];
      if Truthy(config) {
        var has := Contains(config, name);
        if has.Err? {
          return Err(has.error);
        }
        if has.value {
          var table := Lookup(config, name);
          if table.Err? {
            return Err(table.error);
          }
          var found := Contains(table.value, key);
          if found.Err? {
            return Err(found.error);
          }
          if found.value {
            var entry := Lookup(table.value, key);
            if entry.Err? {
              return Err(entry.error);
            }
            result := entry.value;
          }
        }
      }
      i := i + 1;
    }
    return Ok(result);
  }

  /** convert: the value through the `name` tables of the configs. */
  method Convert(configs: seq<Value>, name: string, value: string) returns (r: Result<Value>)
    ensures r == Translated(configs, name, value, Str(value))
  {
    r := Translate(configs, name, value, Str(value));
  }

  /** convert_dependency: a dependency listed in an `external` table (the last such
      entry, when truthy) is dropped when external ones are not kept, else handed to
      the external hook; any other goes to the internal hook. */
  method ConvertDependency(configs: seq<Value>, dependency: string, external: bool,
                           internalHook: string -> Value, externalHook: Value -> Value)
    returns (r: Result<Option<Value>>)
    ensures var t := Translated(configs, "external", dependency, Str(""));
      (t.Err? ==> r == Err(t.error)) &&
      (t.Ok? && Truthy(t.value) ==> r == if external then Ok(Some(externalHook(t.value))) else Ok(None)) &&
      (t.Ok? && !Truthy(t.value) ==> r == Ok(Some(internalHook(dependency))))
  {
    var externalDep := Translate(configs, "external", dependency, Str(""));
    if externalDep.Err? {
      return Err(externalDep.error);
    }
    if Truthy(externalDep.value) {
      if external {
        return Ok(Some(externalHook(externalDep.value)));
      }
      return Ok(None);
    }
    return Ok(Some(internalHook(dependency)));
  }

  /** With well-formed configs: a dependency with a truthy external mapping in the last
      config that maps it is dropped when external ones are not kept; one no config
      maps goes to the internal hook. */
  lemma ConvertDependencyCases(configs: seq<Value>, dependency: string)
    requires forall i :: 0 <= i < |configs| ==> TableConfig(configs[i], "external")
    ensures (forall i :: 0 <= i < |configs| ==> !Matches(configs[i], "external", dependency)) ==>
      Translated(configs, "external", dependency, Str("")) == Ok(Str(""))
    ensures forall i :: (0 <= i < |configs| && Matches(configs[i], "external", dependency) &&
      (forall j :: i < j < |configs| ==> !Matches(configs[j], "external", dependency))) ==>
      Translated(configs, "external", dependency, Str("")) == Ok(configs[i].m["external"].m[dependency])
  {
    TranslatedLastMatch(configs, "external", dependency, Str(""));
  }

  /** The config's `name` list holds the value. */
  predicate Listed(config: Value, name: string, value: string)
  {
    Truthy(config) && config.Map? && name in config.m && Contains(config.m[name], value) == Ok(true)
  }

  /** A config in which the membership test on its `name` entry cannot raise. */
  predicate ListConfig(config: Value, name: string, value: string)
  {
    !Truthy(config) || (config.Map? && (name in config.m ==> Contains(config.m[name], value).Ok?))
  }

  /** in_config: the configs in order, stopping at the first whose list holds the value. */
  function InConfigs(configs: seq<Value>, name: string, value: string): Result<bool>
    decreases |configs|
  {
    if |configs| == 0 then Ok(false)
    else if !Truthy(configs[0]) then InConfigs(configs[1..], name, value)
    else
      var has :- Contains(configs[0], name);
      if !has then InConfigs(configs[1..], name, value)
      else
        var list :- Lookup(configs[0], name);
        var found :- Contains(list, value);
        if found then Ok(true) else InConfigs(configs[1..], name, value)
  }

  lemma {:induction false} InConfigsIff(configs: seq<Value>, name: string, value: string)
    requires forall i :: 0 <= i < |configs| ==> ListConfig(configs[i], name, value)
    ensures InConfigs(configs, name, value).Ok?
    ensures InConfigs(configs, name, value).value <==> exists i :: 0 <= i < |configs| && Listed(configs[i], name, value)
    decreases |configs|
  {
    if |configs| > 0 {
      var rest := configs[1..];
      assert forall j :: 0 <= j < |rest| ==> rest[j] == configs[j + 1];
      InConfigsIff(rest, name, value);
      if exists i :: 0 <= i < |configs| && Listed(configs[i], name, value) {
        var i :| 0 <= i < |configs| && Listed(configs[i], name, value);
        if i > 0 && !Listed(configs[0], name, value) {
          assert Listed(rest[i - 1], name, value);
        }
      }
    }
  }

  method InConfig(configs: seq<Value>, name: string, value: string) returns (r: Result<bool>)
    ensures r == InConfigs(configs, name, value)
  {
    var i := 0;
    while i < |configs|
      invariant 0 <= i <= |configs|
      invariant InConfigs(configs, name, value) == InConfigs(configs[i..], name, value)
    {
      assert configs[i..][1..] == configs[i + 1..];
      var config := configs[i];
      if Truthy(config) {
        var has := Contains(config, name);
        if has.Err? {
          return Err(has.error);
        }
        if has.value {
          var list := Lookup(config, name);
          if list.Err? {
            return Err(list.error);
          }
          var found := Contains(list.value, value);
          if found.Err? {
            return Err(found.error);
          }
          if found.value {
            return Ok(true);
          }
        }
      }
      i := i + 1;
    }
    return Ok(false);
  }

  const UriKeys: set<string> := {"parser", "open_file", "open_mode"}

  /** `if not key in d: d[key] = default`. */
  function WithDefault(d: Value, key: string, default: Value): (r: Result<Value>)
    ensures d.Map? ==> r == Ok(if key in d.m then d else Map(d.m[key := default]))
  {
    var has :- Contains(d, key);
    if has then Ok(d)
    else if d.Map? then Ok(Map(d.m[key := default]))
    else Err(TypeError)
  }

  /** One entry of decode_download_uries: a string becomes a dict with the default
      parser, open_file and open_mode; a dict gets the ones it lacks; for anything else
      the membership test or the item assignment raises, unless it already holds all
      three keys. `parser` is the generator's parse_data. */
  function DecodeUri(uri: Value, parser: Value): (r: Result<Value>)
    ensures uri.Str? ==> r == Ok(Map(map["uri" := uri, "parser" := parser, "open_file" := Bool(true), "open_mode" := Str("r")]))
    ensures uri.Map? ==> r.Ok? && r.value.Map?
    ensures uri.Map? ==> r.value.m.Keys == uri.m.Keys + UriKeys && forall k :: k in uri.m ==> r.value.m[k] == uri.m[k]
    ensures uri.Map? && "parser" !in uri.m ==> r.value.m["parser"] == parser
    ensures uri.Map? && "open_file" !in uri.m ==> r.value.m["open_file"] == Bool(true)
    ensures uri.Map? && "open_mode" !in uri.m ==> r.value.m["open_mode"] == Str("r")
    ensures !uri.Str? && !uri.Map? && !(uri.List? || uri.Tuple? || uri.Obj?) ==> r == Err(TypeError)
  {
    if uri.Str? then Ok(Map(map["uri" := uri, "parser" := parser, "open_file" := Bool(true), "open_mode" := Str("r")]))
    else
      var withParser :- WithDefault(uri, "parser", parser);
      var withFile :- WithDefault(withParser, "open_file", Bool(true));
      WithDefault(withFile, "open_mode", Str("r"))
  }

  /** decode_download_uries: every entry decoded, in order; the first that cannot be
      decoded stops the loop. */
  method DecodeDownloadUries(uries: seq<Value>, parser: Value) returns (r: Result<seq<Value>>)
    ensures r.Ok? <==> forall i :: 0 <= i < |uries| ==> DecodeUri(uries[i], parser).Ok?
    ensures r.Ok? ==> |r.value| == |uries| && forall i :: 0 <= i < |uries| ==> r.value[i] == DecodeUri(uries[i], parser).value
    ensures r.Err? ==> exists i :: (0 <= i < |uries| && DecodeUri(uries[i], parser) == Err(r.error) &&
      forall j :: 0 <= j < i ==> DecodeUri(uries[j], parser).Ok?)
  {
    var decoded: seq<Value> := [];
    var i := 0;
    while i < |uries|
      invariant 0 <= i <= |uries| && |decoded| == i
      invariant forall j :: 0 <= j < i ==> DecodeUri(uries[j], parser).Ok? && decoded[j] == DecodeUri(uries[j], parser).value
    {
      var decuri := DecodeUri(uries[i], parser);
      if decuri.Err? {
        return Err(decuri.error);
      }
      decoded := decoded + [decuri.value];
      i := i + 1;
    }
    return Ok(decoded);
  }

  /** DBGenerator.__call__: the database of a repository below the backend directory,
      with the repository's and the backend's config.json written when given and read
      otherwise; when generating, the database is cleaned, filled and written.
      Downloading and process_data are the function `process`, which yields the calls
      it makes on the database. */
  method GeneratePackageDb(prefs: Preferences, disk: Disk, env: Env, directory: string, repository: string,
                           commonConfig: Value, config: Value, generate: bool,
                           process: (Value, Value) -> Result<seq<Edit>>)
    returns (r: Result<PackageDB>)
    modifies disk
    ensures CheckPreferences(prefs).Err? ==>
      r == Err(CheckPreferences(prefs).error) && disk.files == old(disk.files) && disk.dirs == old(disk.dirs)
    ensures r.Ok? ==> (fresh(r.value) && r.value.prefs == prefs &&
      r.value.directory == PathJoin(PathJoin(directory, repository), "db"))
    ensures r.Ok? && !generate ==> r.value.Contents() == EmptyStore
    ensures r.Ok? && generate ==>
      Consistent(r.value.Contents()) && CheckOutcome(disk.files, r.value.directory, env) == Ok({})
    ensures CheckPreferences(prefs).Ok? ==>
      var repoFile := FileJson(PathJoin(directory, repository), "config.json", []);
      var backendFile := FileJson(directory, "config.json", []);
      var repoConfig := ConfigOutcome(old(disk.files), repoFile, env.reg, config);
      var afterRepo := ConfigFiles(old(disk.files), repoFile, config);
      var backendConfig := ConfigOutcome(afterRepo, backendFile, env.reg, commonConfig);
      (repoConfig.Err? ==> r == Err(repoConfig.error)) &&
      (repoConfig.Ok? && backendConfig.Err? ==> r == Err(backendConfig.error)) &&
      (repoConfig.Ok? && backendConfig.Ok? && !generate ==>
         r.Ok? && disk.files == ConfigFiles(afterRepo, backendFile, commonConfig)) &&
      ((repoConfig.Ok? && backendConfig.Ok? && generate &&
        var edits := process(backendConfig.value, repoConfig.value);
        edits.Ok? && ApplyEdits(EmptyStore, edits.value).Ok? &&
        StoreWritable(prefs, ApplyEdits(EmptyStore, edits.value).value, env.reg)) ==> r.Ok?) &&
      (r.Ok? && generate ==>
         repoConfig.Ok? && backendConfig.Ok? &&
         var edits := process(backendConfig.value, repoConfig.value);
         edits.Ok? && ApplyEdits(EmptyStore, edits.value).Ok? &&
         Regenerated(r.value.Contents(), ConfigFiles(afterRepo, backendFile, commonConfig),
                     old(disk.dirs) + {repoFile.directory, directory}, disk.files, disk.dirs,
                     r.value.directory, env, prefs, ApplyEdits(EmptyStore, edits.value).value))
  {
    var repoDir := PathJoin(directory, repository);
    var created := PackageDB.Create(PathJoin(repoDir, "db"), Some(PathJoin(repoDir, "persistent")), prefs);
    if created.Err? {
      return Err(created.error);
    }
    var pkgDb := created.value;
    ghost var dirs0 := disk.dirs;
    var repoConfig := LoadConfig(FileJson(repoDir, "config.json", []), disk, env.reg, config);
    if repoConfig.Err? {
      return Err(repoConfig.error);
    }
    ghost var afterRepo := disk.files;
    var backendConfig := LoadConfig(FileJson(directory, "config.json", []), disk, env.reg, commonConfig);
    if backendConfig.Err? {
      return Err(backendConfig.error);
    }
    assert disk.files == ConfigFiles(afterRepo, FileJson(directory, "config.json", []), commonConfig);
    assert disk.dirs == dirs0 + {repoDir, directory};
    if generate {
      var generated := pkgDb.Regenerate(disk, env, process(backendConfig.value, repoConfig.value));
      if generated.Err? {
        return Err(generated.error);
      }
    }
    return Ok(pkgDb);
  }

  /** The outcome of a config of DBGenerator.__call__ on the files `files`: a given
      (truthy) config is checked and written, and is the config when it encodes; otherwise
      the file's content is read, and a missing file is the empty config. */
  function ConfigOutcome(files: map<string, FileData>, file: FileJson, reg: Registry, given: Value): (r: Result<Value>)
    ensures Truthy(given) && r.Ok? ==> r == Ok(given)
    ensures !Truthy(given) && file.Path() in files ==> r == ReadContent(files[file.Path()], reg, file.mandatories)
    ensures !Truthy(given) && file.Path() !in files ==> r == Ok(EmptyContent(file.mandatories))
  {
    if Truthy(given) then
      if CheckKeys(given, file.mandatories).Err? then Err(CheckKeys(given, file.mandatories).error)
      else if Encode(given).Err? then Err(TypeError)
      else Ok(given)
    else if file.Path() in files then ReadContent(files[file.Path()], reg, file.mandatories)
    else Ok(EmptyContent(file.mandatories))
  }

  /** The files after that config: a given config that holds its keys is stored, a
      missing file is created empty, and nothing else changes. */
  function ConfigFiles(files: map<string, FileData>, file: FileJson, given: Value): (r: map<string, FileData>)
    ensures forall p :: p in files && p != file.Path() ==> p in r && r[p] == files[p]
    ensures r.Keys <= files.Keys + {file.Path()}
    ensures Truthy(given) && CheckKeys(given, file.mandatories).Ok? ==> file.Path() in r && r[file.Path()] == Stored(given)
    ensures !Truthy(given) && file.Path() in files ==> r == files
  {
    if Truthy(given) then
      if CheckKeys(given, file.mandatories).Err? then files else files[file.Path() := Stored(given)]
    else if file.Path() in files then files
    else files[file.Path() := Json(EmptyContent(file.mandatories))]
  }

  /** A config given once is what a later run without one reads back, provided it holds
      its mandatory keys and round-trips through the codec. */
  lemma GivenConfigReadsBack(files: map<string, FileData>, file: FileJson, reg: Registry, given: Value, later: Value)
    requires Truthy(given) && !Truthy(later)
    requires RoundTrips(reg, given) && CheckKeys(given, file.mandatories).Ok?
    ensures ConfigOutcome(files, file, reg, given) == Ok(given)
    ensures ConfigOutcome(ConfigFiles(files, file, given), file, reg, later) == Ok(given)
    ensures ConfigFiles(ConfigFiles(files, file, given), file, later) == ConfigFiles(files, file, given)
  {
    RoundTrip(reg, given);
    WriteThenRead(given, reg, file.mandatories);
  }

  /** A config of DBGenerator.__call__: written to its file when given (truthy), read
      from it otherwise. */
  method LoadConfig(file: FileJson, disk: Disk, reg: Registry, given: Value) returns (r: Result<Value>)
    modifies disk
    ensures r == ConfigOutcome(old(disk.files), file, reg, given)
    ensures disk.files == ConfigFiles(old(disk.files), file, given)
    ensures disk.dirs == if Truthy(given) && CheckKeys(given, file.mandatories).Err? then old(disk.dirs)
                         else old(disk.dirs) + {file.directory}
  {
    if Truthy(given) {
      var written := file.Write(disk, given);
      if written.Err? {
        return Err(written.error);
      }
      return Ok(given);
    }
    r := file.Read(disk, reg);
  }
}
