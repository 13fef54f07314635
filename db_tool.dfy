/** The package database tool's store transformations. transform_db reads the database,
    applies an edit to every record and writes the database back; the edit gets each
    package with its merged view (its properties updated with the category's common
    data) and stores what it returns through add_package. rename_var and add_var (with a
    plain value) are the two edits modelled. */
module DbTool {
  import opened Wrappers
  import opened Values
  import opened FileSystem
  import opened DbLayout
  import opened Collections
  import opened PackageDb

  /** The new record of a package, from the package and its merged view. */
  type Edit = (Package, Props) -> Props

  /** add_package accepts the package: all three parts set, its category registered. */
  predicate Addable(s: Store, p: Package)
  {
    p.category != "" && p.name != "" && p.version != "" && p.category in s.categories
  }

  predicate Rewritable(s: Store)
  {
    forall p :: p in AllPackages(s) ==> Addable(s, p)
  }

  /** One category once the packages in `done` have been rewritten by `f`. */
  function PartlyRewrittenCategory(c: string, data: CategoryData, f: Edit, done: set<Package>): CategoryData
  {
    CategoryData(data.commonData,
      map n | n in data.packages :: map v | v in data.packages[n] ::
        if Package(c, n, v) in done then f(Package(c, n, v), Update(data.packages[n][v], data.commonData))
        else data.packages[n][v])
  }

  /** The store once the packages in `done` have been rewritten by `f`. */
  function PartlyRewritten(s: Store, f: Edit, done: set<Package>): Store
  {
    Store(s.categories, map c | c in s.database :: PartlyRewrittenCategory(c, s.database[c], f, done))
  }

  /** The store after the edit loop over all of it. */
  function Rewritten(s: Store, f: Edit): Store
  {
    PartlyRewritten(s, f, AllPackages(s))
  }

  /** Two databases with the same categories, common data and package names that agree on
      every version are equal. */
  lemma DatabaseExt(a: Database, b: Database)
    requires a.Keys == b.Keys
    requires forall c :: c in a ==> a[c].commonData == b[c].commonData && a[c].packages.Keys == b[c].packages.Keys
    requires forall c, n, v :: VersionOf(a, c, n, v) == VersionOf(b, c, n, v)
    ensures a == b
  {
    forall c | c in a ensures a[c] == b[c] {
      forall n | n in a[c].packages ensures a[c].packages[n] == b[c].packages[n] {
        forall v | v in a[c].packages[n] ensures v in b[c].packages[n] && a[c].packages[n][v] == b[c].packages[n][v] {
          assert VersionOf(a, c, n, v) == VersionOf(b, c, n, v);
        }
        forall v | v in b[c].packages[n] ensures v in a[c].packages[n] {
          assert VersionOf(a, c, n, v) == VersionOf(b, c, n, v);
        }
      }
    }
  }

  /** What a version holds once the packages in `done` have been rewritten. */
  function VersionAfter(s: Store, f: Edit, done: set<Package>, c: string, n: string, v: string): Option<Props>
  {
    match VersionOf(s.database, c, n, v)
    case None => None
    case Some(props) =>
      Some(if Package(c, n, v) in done then f(Package(c, n, v), Update(props, s.database[c].commonData)) else props)
  }

  /** The partly rewritten store keeps the shape of the store: the same categories, common
      data, packages and versions; a version in `done` holds the edit of its merged view,
      any other its old properties. */
  lemma PartlyRewrittenShape(s: Store, f: Edit, done: set<Package>)
    ensures PartlyRewritten(s, f, done).categories == s.categories
    ensures PartlyRewritten(s, f, done).database.Keys == s.database.Keys
    ensures forall c :: c in s.database ==>
      PartlyRewritten(s, f, done).database[c].commonData == s.database[c].commonData &&
      PartlyRewritten(s, f, done).database[c].packages.Keys == s.database[c].packages.Keys
    ensures forall c, n, v :: VersionOf(PartlyRewritten(s, f, done).database, c, n, v) == VersionAfter(s, f, done, c, n, v)
  {
  }

  /** `t` is `s` once the packages in `done` have been rewritten, seen through its
      categories, common data, package names and versions. */
  ghost predicate RewrittenAs(t: Store, s: Store, f: Edit, done: set<Package>)
  {
    t.categories == s.categories && t.database.Keys == s.database.Keys &&
    (forall c :: c in s.database ==>
      t.database[c].commonData == s.database[c].commonData && t.database[c].packages.Keys == s.database[c].packages.Keys) &&
    forall c, n, v :: VersionOf(t.database, c, n, v) == VersionAfter(s, f, done, c, n, v)
  }

  lemma RewrittenAsNothing(s: Store, f: Edit)
    ensures RewrittenAs(s, s, f, {})
  {
  }

  lemma RewrittenAsAll(t: Store, s: Store, f: Edit)
    requires RewrittenAs(t, s, f, AllPackages(s))
    ensures t == Rewritten(s, f)
  {
    PartlyRewrittenShape(s, f, AllPackages(s));
    DatabaseExt(t.database, Rewritten(s, f).database);
  }

  /** Storing the edit of a not yet rewritten package's merged view is one more step of
      the loop. */
  lemma RewriteStep(t: Store, s: Store, f: Edit, done: set<Package>, p: Package)
    requires RewrittenAs(t, s, f, done)
    requires p in AllPackages(s) && p !in done
    ensures p in AllPackages(t) && PackageDescription(t, p) == PackageDescription(s, p)
    ensures WithPackage(t, p, f(p, PackageDescription(s, p).value)).Ok? <==> Addable(s, p)
    ensures WithPackage(t, p, f(p, PackageDescription(s, p).value)).Ok? ==>
      RewrittenAs(WithPackage(t, p, f(p, PackageDescription(s, p).value)).value, s, f, done + {p})
  {
    assert VersionOf(t.database, p.category, p.name, p.version) == VersionAfter(s, f, done, p.category, p.name, p.version);
    var w := WithPackage(t, p, f(p, PackageDescription(s, p).value));
    if w.Ok? {
      forall c, n, v ensures VersionOf(w.value.database, c, n, v) == VersionAfter(s, f, done + {p}, c, n, v) {
        if Package(c, n, v) != p {
          assert (c, n, v) != (p.category, p.name, p.version);
          assert VersionOf(t.database, c, n, v) == VersionAfter(s, f, done, c, n, v);
        }
      }
    }
  }

  /** The edit loop over the records the iterator yields, in any order: it succeeds
      exactly when add_package accepts every package, the error then being add_package's,
      and it stores the edit of every record's merged view. */
  method Rewrite(db: PackageDB, f: Edit) returns (r: Result<()>)
    modifies db
    ensures r.Ok? <==> Rewritable(old(db.Contents()))
    ensures r.Ok? ==> db.Contents() == Rewritten(old(db.Contents()), f)
    ensures r.Err? ==> r.error == DBError || r.error == InvalidKeyError
  {
    ghost var s := db.Contents();
    var todo := AllPackages(db.Contents());
    VisitedNothing(s, f);
    while todo != {}
      invariant Visited(db.Contents(), s, f, todo)
      decreases |todo|
    {
      var p :| p in todo;
      r := RewriteOne(db, f, s, todo, p);
      if r.Err? {
        return;
      }
      todo := todo - {p};
    }
    VisitedAll(db.Contents(), s, f);
    RewrittenAsAll(db.Contents(), s, f);
    r := Ok(());
  }

  /** The loop's state: the packages not in `todo` are rewritten, and add_package
      accepted each of them. */
  ghost predicate Visited(t: Store, s: Store, f: Edit, todo: set<Package>)
  {
    todo <= AllPackages(s) && RewrittenAs(t, s, f, AllPackages(s) - todo) &&
    forall p :: p in AllPackages(s) - todo ==> Addable(s, p)
  }

  lemma VisitedNothing(s: Store, f: Edit)
    ensures Visited(s, s, f, AllPackages(s))
  {
    assert AllPackages(s) - AllPackages(s) == {};
    RewrittenAsNothing(s, f);
  }

  lemma VisitedAll(t: Store, s: Store, f: Edit)
    requires Visited(t, s, f, {})
    ensures Rewritable(s) && RewrittenAs(t, s, f, AllPackages(s))
  {
    assert AllPackages(s) - {} == AllPackages(s);
  }

  /** One turn of the edit loop: add_package with the edit of the package's merged view. */
  method RewriteOne(db: PackageDB, f: Edit, ghost s: Store, ghost todo: set<Package>, p: Package) returns (r: Result<()>)
    requires Visited(db.Contents(), s, f, todo) && p in todo
    modifies db
    ensures r.Ok? ==> Visited(db.Contents(), s, f, todo - {p})
    ensures r.Err? ==> !Rewritable(s) && (r.error == DBError || r.error == InvalidKeyError)
  {
    ghost var done := AllPackages(s) - todo;
    RewriteStep(db.Contents(), s, f, done, p);
    var view := PackageDescription(db.Contents(), p);
    r := db.AddPackage(p, f(p, view.value));
    assert AllPackages(s) - (todo - {p}) == done + {p};
  }

  /** transform_db: read, apply the edit (when the command has one), write. An error of
      any step ends the command; the database is then not written. */
  method Transform(db: PackageDB, disk: Disk, env: Env, edit: Option<Edit>) returns (r: Result<()>)
    requires CheckPreferences(db.prefs).Ok? && db.layout == DBLayout(db.directory)
    modifies db, disk
    ensures r.Ok? ==> StoreRead(old(disk.files), old(disk.dirs), db.directory, env).Some?
    ensures r.Ok? ==> (edit.Some? ==> Rewritable(StoreRead(old(disk.files), old(disk.dirs), db.directory, env).value))
    ensures r.Ok? ==>
      var s := StoreRead(old(disk.files), old(disk.dirs), db.directory, env).value;
      var t := if edit.Some? then Rewritten(s, edit.value) else s;
      WrittenFrom(old(disk.files), old(disk.dirs), disk.files, disk.dirs, db.directory, env, db.prefs, t)
    ensures (StoreRead(old(disk.files), old(disk.dirs), db.directory, env).Some? &&
             var s := StoreRead(old(disk.files), old(disk.dirs), db.directory, env).value;
             (edit.None? || Rewritable(s)) &&
             StoreWritable(db.prefs, if edit.Some? then Rewritten(s, edit.value) else s, env.reg)) ==> r.Ok?
    ensures (StoreRead(old(disk.files), old(disk.dirs), db.directory, env).Some? && edit.Some? &&
             !Rewritable(StoreRead(old(disk.files), old(disk.dirs), db.directory, env).value)) ==>
      r.Err? && disk.files == old(disk.files)
  {
    ghost var files0, dirs0 := disk.files, disk.dirs;
    r := db.Read(disk, env);
    if r.Err? {
      return;
    }
    ghost var s := db.Contents();
    if edit.Some? {
      r := Rewrite(db, edit.value);
      if r.Err? {
        return;
      }
    }
    ghost var t := db.Contents();
    assert disk.files == files0 && disk.dirs == dirs0 + {db.directory};
    r := db.Write(disk, env);
    if r.Ok? {
      WrittenFromDirectory(files0, dirs0, disk.files, disk.dirs, db.directory, env, db.prefs, t);
    }
  }

  // rename_var

  /** One record under rename_var: the value of oldName, when there is one, moves to
      newName. */
  function Renamed(d: Props, oldName: string, newName: string): Props
  {
    if oldName in d then (d - {oldName})[newName := d[oldName]] else d
  }

  function Renaming(oldName: string, newName: string): Edit
  {
    (p, d) => Renamed(d, oldName, newName)
  }

  /** The value moves: newName holds it, oldName is gone unless it is newName, nothing else
      changes; a record without oldName is kept. */
  lemma RenamedMoves(d: Props, oldName: string, newName: string)
    ensures oldName in d ==> newName in Renamed(d, oldName, newName) && Renamed(d, oldName, newName)[newName] == d[oldName]
    ensures oldName in d && oldName != newName ==> oldName !in Renamed(d, oldName, newName)
    ensures oldName in d ==> Renamed(d, oldName, newName).Keys == d.Keys - {oldName} + {newName}
    ensures forall k :: k in d && k != oldName && k != newName ==> k in Renamed(d, oldName, newName) && Renamed(d, oldName, newName)[k] == d[k]
    ensures oldName !in d ==> Renamed(d, oldName, newName) == d
  {
  }

  /** Renaming back undoes a rename onto a fresh name. */
  lemma RenamedBack(d: Props, oldName: string, newName: string)
    requires oldName in d && newName !in d
    ensures Renamed(Renamed(d, oldName, newName), newName, oldName) == d
  {
    var r := Renamed(d, oldName, newName);
    assert (r - {newName})[oldName := r[newName]] == d;
  }

  /** rename_var: transform_db with the rename edit. */
  method RenameVar(db: PackageDB, disk: Disk, env: Env, oldName: string, newName: string) returns (r: Result<()>)
    requires CheckPreferences(db.prefs).Ok? && db.layout == DBLayout(db.directory)
    modifies db, disk
    ensures r.Ok? ==> StoreRead(old(disk.files), old(disk.dirs), db.directory, env).Some?
    ensures r.Ok? ==> Rewritable(StoreRead(old(disk.files), old(disk.dirs), db.directory, env).value)
    ensures r.Ok? ==>
      var t := Rewritten(StoreRead(old(disk.files), old(disk.dirs), db.directory, env).value, Renaming(oldName, newName));
      WrittenFrom(old(disk.files), old(disk.dirs), disk.files, disk.dirs, db.directory, env, db.prefs, t)
    ensures (StoreRead(old(disk.files), old(disk.dirs), db.directory, env).Some? &&
             var s := StoreRead(old(disk.files), old(disk.dirs), db.directory, env).value;
             Rewritable(s) && StoreWritable(db.prefs, Rewritten(s, Renaming(oldName, newName)), env.reg)) ==> r.Ok?
  {
    r := Transform(db, disk, env, Some(Renaming(oldName, newName)));
  }

  // add_var

  function Adding(name: string, value: string): Edit
  {
    (p, d) => d[name := Str(value)]
  }

  /** add_var: with a non-empty value every record gets name = value; without one (the
      code branches are not modelled) the database is read and written back. */
  method AddVar(db: PackageDB, disk: Disk, env: Env, name: string, value: Option<string>) returns (r: Result<()>)
    requires CheckPreferences(db.prefs).Ok? && db.layout == DBLayout(db.directory)
    modifies db, disk
    ensures r.Ok? ==> StoreRead(old(disk.files), old(disk.dirs), db.directory, env).Some?
    ensures r.Ok? ==>
      var s := StoreRead(old(disk.files), old(disk.dirs), db.directory, env).value;
      var t := if value.Some? && value.value != "" then Rewritten(s, Adding(name, value.value)) else s;
      WrittenFrom(old(disk.files), old(disk.dirs), disk.files, disk.dirs, db.directory, env, db.prefs, t)
    ensures (StoreRead(old(disk.files), old(disk.dirs), db.directory, env).Some? &&
             var s := StoreRead(old(disk.files), old(disk.dirs), db.directory, env).value;
             var edits := value.Some? && value.value != "";
             (!edits || Rewritable(s)) &&
             StoreWritable(db.prefs, if edits then Rewritten(s, Adding(name, value.value)) else s, env.reg)) ==> r.Ok?
  {
    var edit := if value.Some? && value.value != "" then Some(Adding(name, value.value)) else None;
    r := Transform(db, disk, env, edit);
  }

  // Properties of the rewritten store

  /** The edit loop keeps the categories, the common data and the set of packages, and
      stores for every version the edit of its merged view. */
  lemma RewrittenVersions(s: Store, f: Edit)
    ensures Rewritten(s, f).categories == s.categories
    ensures AllPackages(Rewritten(s, f)) == AllPackages(s)
    ensures Rewritten(s, f).database.Keys == s.database.Keys
    ensures forall c :: c in s.database ==> Rewritten(s, f).database[c].packages.Keys == s.database[c].packages.Keys
    ensures forall c :: c in s.database ==>
      (c in Rewritten(s, f).database && Rewritten(s, f).database[c].commonData == s.database[c].commonData)
    ensures forall p :: p in AllPackages(s) ==>
      (PackageDescription(s, p).Ok? &&
       VersionOf(Rewritten(s, f).database, p.category, p.name, p.version) == Some(f(p, PackageDescription(s, p).value)))
    ensures Consistent(s) ==> Consistent(Rewritten(s, f))
  {
    PartlyRewrittenShape(s, f, AllPackages(s));
  }

  /** After rename_var, a record's merged view holds the moved value under newName unless
      the common data has newName, and it still has oldName when the common data does:
      the common data is not renamed and wins over the record. */
  lemma RenameVarView(s: Store, oldName: string, newName: string, p: Package)
    requires p in AllPackages(s)
    ensures var view := PackageDescription(s, p).value;
      var common := s.database[p.category].commonData;
      var after := PackageDescription(Rewritten(s, Renaming(oldName, newName)), p);
      after == Ok(Update(Renamed(view, oldName, newName), common)) &&
      (oldName in view && newName !in common ==> after.value[newName] == view[oldName]) &&
      (oldName in common ==> oldName in after.value)
  {
    RewrittenVersions(s, Renaming(oldName, newName));
    RenamedMoves(PackageDescription(s, p).value, oldName, newName);
  }

  /** After add_var, a record's merged view has name = value, unless the category's common
      data has name: that value wins. */
  lemma AddVarView(s: Store, name: string, value: string, p: Package)
    requires p in AllPackages(s)
    ensures var common := s.database[p.category].commonData;
      var after := PackageDescription(Rewritten(s, Adding(name, value)), p);
      after.Ok? && name in after.value &&
      after.value[name] == if name in common then common[name] else Str(value)
  {
    RewrittenVersions(s, Adding(name, value));
  }

  /** A second edit that keeps what the first stored, seen through the merged view,
      leaves the store as the first edit left it. */
  lemma RewrittenTwice(s: Store, f: Edit, g: Edit)
    requires forall p :: p in AllPackages(s) ==>
      g(p, Update(f(p, PackageDescription(s, p).value), s.database[p.category].commonData)) == f(p, PackageDescription(s, p).value)
    ensures Rewritten(Rewritten(s, f), g) == Rewritten(s, f)
  {
    var t := Rewritten(s, f);
    var u := Rewritten(t, g);
    RewrittenVersions(s, f);
    RewrittenVersions(t, g);
    forall c, n, v ensures VersionOf(u.database, c, n, v) == VersionOf(t.database, c, n, v) {
      var p := Package(c, n, v);
      if p in AllPackages(s) {
        assert p in AllPackages(t);
      }
    }
    DatabaseExt(u.database, t.database);
  }

  /** add_var with the same name and value twice stores what the first run stored. */
  lemma AddVarIdempotent(s: Store, name: string, value: string)
    ensures Rewritten(Rewritten(s, Adding(name, value)), Adding(name, value)) == Rewritten(s, Adding(name, value))
  {
    var f := Adding(name, value);
    forall p | p in AllPackages(s)
      ensures f(p, Update(f(p, PackageDescription(s, p).value), s.database[p.category].commonData)) == f(p, PackageDescription(s, p).value)
    {
      var view := VersionOf(s.database, p.category, p.name, p.version).value;
      UpdateSetAgain(view, s.database[p.category].commonData, name, Str(value));
    }
    RewrittenTwice(s, f, f);
  }

  lemma UpdateSetAgain(x: Props, common: Props, k: string, v: Value)
    ensures Update(Update(x, common)[k := v], common)[k := v] == Update(x, common)[k := v]
  {
  }

  lemma RenamedSame(d: Props, k: string)
    ensures Renamed(d, k, k) == d
  {
    if k in d {
      assert (d - {k})[k := d[k]] == d;
    }
  }

  /** rename_var onto the same name folds the common data into every record. */
  lemma RenameSameFolds(s: Store, name: string, p: Package)
    requires p in AllPackages(s)
    ensures VersionOf(Rewritten(s, Renaming(name, name)).database, p.category, p.name, p.version) ==
      Some(PackageDescription(s, p).value)
  {
    RewrittenVersions(s, Renaming(name, name));
    RenamedSame(PackageDescription(s, p).value, name);
  }
}
