/** The dependency resolver of g_sorcery/backend.py: Backend.get_dependencies and
    Backend.solve_dependencies, a depth-first search over a package database that
    threads the set of solved packages and the set of packages in progress. */
module Backend {
  import opened Wrappers
  import opened Strings
  import opened Values
  import opened Collections
  import opened PackageDb

  /** get_package_description finds the package. */
  predicate Found(s: Store, p: Package)
  {
    PackageDescription(s, p).Ok?
  }

  /** list_package_versions on a dependency's category and package attributes. An
      attribute that is not a string makes the error message's concatenation raise. */
  function DependencyVersions(s: Store, category: Value, package: Value): (r: Result<set<string>>)
    ensures category.Str? && package.Str? ==> r == PackageVersions(s, category.s, package.s)
    ensures r.Ok? ==> category.Str? && package.Str?
    ensures r.Err? ==> r.error == InvalidKeyError || r.error == TypeError
  {
    if !category.Str? then Err(TypeError)
    else if !KnownCategory(s, category.s) then Err(InvalidKeyError)
    else if !package.Str? then Err(TypeError)
    else PackageVersions(s, category.s, package.s)
  }

  /** The packages one dependency entry stands for: every stored version of the package
      it names, none when it names no stored package. */
  function ItemTargets(s: Store, item: Value): (r: set<Package>)
    ensures r <= AllPackages(s)
  {
    match GetAttr(item, "category")
    case Err(_) => {}
    case Ok(c) =>
      match GetAttr(item, "package")
      case Err(_) => {}
      case Ok(n) =>
        match DependencyVersions(s, c, n)
        case Err(_) => {}
        case Ok(vs) => set v | v in vs :: Package(c.s, n.s, v)
  }

  /** The entries of the "dependencies" property of a package's description. */
  function DependencyItems(s: Store, p: Package): Result<seq<Value>>
  {
    var desc :- PackageDescription(s, p);
    var deps :- Lookup(Map(desc), "dependencies");
    Iterate(deps)
  }

  /** The packages a package depends on. */
  function Targets(s: Store, p: Package): (r: set<Package>)
    ensures r <= AllPackages(s)
    ensures DependencyItems(s, p).Ok? ==> forall i :: 0 <= i < |DependencyItems(s, p).value| ==>
      ItemTargets(s, DependencyItems(s, p).value[i]) <= r
  {
    match DependencyItems(s, p)
    case Err(_) => {}
    case Ok(items) => set i, q | 0 <= i < |items| && q in ItemTargets(s, items[i]) :: q
  }

  /** Every found dependency of a package in the set is in the set. */
  predicate Closed(s: Store, solved: set<Package>)
  {
    forall q, p :: q in solved && p in Targets(s, q) && Found(s, p) ==> p in solved
  }

  predicate AllFound(s: Store, solved: set<Package>)
  {
    forall q :: q in solved ==> Found(s, q)
  }

  /** A closed set holding what was solved and, when it is found, the package. */
  predicate Bounds(s: Store, t: set<Package>, solved: set<Package>, package: Package)
  {
    Closed(s, t) && solved <= t && (Found(s, package) ==> package in t)
  }

  /** A closed set holding what was solved and the found packages a dependency entry
      stands for. */
  predicate ItemBounds(s: Store, t: set<Package>, solved: set<Package>, item: Value)
  {
    Closed(s, t) && solved <= t && forall p :: p in ItemTargets(s, item) && Found(s, p) ==> p in t
  }

  /** The termination measure: the packages of the store, and the one asked for, that
      are neither solved nor in progress. */
  function Unvisited(s: Store, package: Package, solved: set<Package>, inProgress: set<Package>): nat
  {
    |(AllPackages(s) + {package}) - (solved + inProgress)|
  }

  lemma {:induction false} SubsetCard<T>(a: set<T>, b: set<T>)
    requires a <= b
    ensures |a| <= |b|
    decreases |a|
  {
    if a != {} {
      var x :| x in a;
      SubsetCard(a - {x}, b - {x});
    }
  }

  /** Starting a package and solving some more leaves fewer unvisited ones. */
  lemma OneFewerUnvisited<T>(all: set<T>, package: T, solved: set<T>, inProgress: set<T>, current: set<T>)
    requires package !in solved && package !in inProgress && solved <= current
    ensures |all - (current + (inProgress + {package}))| < |(all + {package}) - (solved + inProgress)|
  {
    var y := (all + {package}) - (solved + inProgress);
    SubsetCard(all - (current + (inProgress + {package})), y - {package});
  }

  /** Solving some more packages of the store never adds unvisited ones. */
  lemma NoMoreUnvisited<T>(all: set<T>, p: T, solved: set<T>, inProgress: set<T>, current: set<T>)
    requires p in all && solved <= current
    ensures |(all + {p}) - (current + inProgress)| <= |all - (solved + inProgress)|
  {
    assert all + {p} == all;
    SubsetCard(all - (current + inProgress), all - (solved + inProgress));
  }

  /** What solving `package` from `solved` promises of the new solved set: it grows
      what was solved, stays apart from what is in progress, is closed, holds only found
      packages and the package when it is found, and is the least such set. */
  ghost predicate Solves(s: Store, package: Package, solved: set<Package>, inProgress: set<Package>, result: set<Package>)
  {
    solved <= result && result !! inProgress && Closed(s, result) && AllFound(s, result) &&
    (Found(s, package) ==> package in result) &&
    forall t :: Bounds(s, t, solved, package) ==> result <= t
  }

  /** The same for one dependency entry and the packages it stands for. */
  ghost predicate ItemSolves(s: Store, item: Value, solved: set<Package>, inProgress: set<Package>, result: set<Package>)
  {
    solved <= result && result !! inProgress && Closed(s, result) && AllFound(s, result) &&
    (forall p :: p in ItemTargets(s, item) && Found(s, p) ==> p in result) &&
    forall t :: ItemBounds(s, t, solved, item) ==> result <= t
  }

  /** A chain of dependencies: each package depends on the next. */
  ghost predicate DependencyPath(s: Store, path: seq<Package>)
  {
    |path| >= 1 && forall i :: 1 <= i < |path| ==> path[i] in Targets(s, path[i - 1])
  }

  /** Following dependencies from `p` reaches a package in progress, or a package
      already on the way, that is, it closes a cycle. */
  ghost predicate CycleFrom(s: Store, p: Package, inProgress: set<Package>)
  {
    exists path :: DependencyPath(s, path) && path[0] == p &&
      (path[|path| - 1] in inProgress || path[|path| - 1] in path[..|path| - 1])
  }

  /** A dependency entry has the category and package attributes, and listing its
      versions raises nothing but the InvalidKeyError that skips it. */
  predicate ItemWellFormed(s: Store, item: Value)
  {
    GetAttr(item, "category").Ok? && GetAttr(item, "package").Ok? &&
    DependencyVersions(s, GetAttr(item, "category").value, GetAttr(item, "package").value) != Err(TypeError)
  }

  /** A found package has a dependency list that iterates, and every entry is well formed. */
  predicate WellFormed(s: Store, p: Package)
  {
    Found(s, p) ==>
      (DependencyItems(s, p).Ok? &&
       forall i :: 0 <= i < |DependencyItems(s, p).value| ==> ItemWellFormed(s, DependencyItems(s, p).value[i]))
  }

  /** Every package reachable from `p` is well formed. */
  ghost predicate WellFormedFrom(s: Store, p: Package)
  {
    forall path :: DependencyPath(s, path) && path[0] == p ==> WellFormed(s, path[|path| - 1])
  }

  /** solve_dependencies, with the pair it returns on every path. A package already
      solved changes nothing; one in progress closes a cycle and raises; one without a
      description is dropped again and not solved; otherwise every version of every
      dependency is solved first, entries naming no stored package are skipped, and the
      package is solved. The result is the least closed set holding what was solved
      before and the package. */
  method SolveDependencies(s: Store, package: Package, solved: set<Package>, inProgress: set<Package>)
    returns (r: Result<(set<Package>, set<Package>)>)
    requires solved !! inProgress && Closed(s, solved) && AllFound(s, solved)
    ensures package in solved ==> r == Ok((solved, inProgress))
    ensures package !in solved && package in inProgress ==> r == Err(DependencyError)
    ensures package !in solved && package !in inProgress && !Found(s, package) ==> r == Ok((solved, inProgress))
    ensures r.Ok? ==> r.value.1 == inProgress && Solves(s, package, solved, inProgress, r.value.0)
    ensures r.Err? ==> r.error != InvalidKeyError
    ensures r == Err(DependencyError) ==> CycleFrom(s, package, inProgress)
    ensures r.Err? && r.error != DependencyError ==> !WellFormedFrom(s, package)
    ensures !CycleFrom(s, package, inProgress) && WellFormedFrom(s, package) ==> r.Ok?
    decreases Unvisited(s, package, solved, inProgress), 0
  {
    if package in solved {
      return Ok((solved, inProgress));
    }
    if package in inProgress {
      assert DependencyPath(s, [package]);
      return Err(DependencyError);
    }
    var started := inProgress + {package};
    var desc := PackageDescription(s, package);
    if desc.Err? {
      return Ok((solved, inProgress));
    }
    var deps := Lookup(Map(desc.value), "dependencies");
    if deps.Err? {
      IllFormedHere(s, package);
      return Err(deps.error);
    }
    var items := Iterate(deps.value);
    if items.Err? {
      IllFormedHere(s, package);
      return Err(items.error);
    }
    assert DependencyItems(s, package) == Ok(items.value);
    var current := solved;
    var i := 0;
    while i < |items.value|
      invariant 0 <= i <= |items.value|
      invariant EntriesProgress(s, package, items.value, i, solved, started, current)
    {
      OneFewerUnvisited(AllPackages(s), package, solved, inProgress, current);
      var step := SolveItem(s, items.value[i], current, started);
      if step.Err? {
        EntryFailed(s, package, inProgress, items.value, i, step.error);
        return Err(step.error);
      }
      EntryStep(s, package, items.value, i, solved, started, current, step.value);
      current := step.value;
      i := i + 1;
    }
    EntriesDone(s, package, items.value, solved, inProgress, current);
    return Ok((current + {package}, inProgress));
  }

  /** The dependency loop of solve_dependencies after `i` entries. */
  ghost predicate EntriesProgress(s: Store, package: Package, items: seq<Value>, i: nat,
                                  solved: set<Package>, started: set<Package>, current: set<Package>)
    requires i <= |items|
  {
    solved <= current && current !! started && Closed(s, current) && AllFound(s, current) &&
    (forall j, p :: 0 <= j < i && p in ItemTargets(s, items[j]) && Found(s, p) ==> p in current) &&
    forall t :: Bounds(s, t, solved, package) ==> current <= t
  }

  /** Solving entry `i` of the package's dependencies is one more step of the loop. */
  lemma EntryStep(s: Store, package: Package, items: seq<Value>, i: nat,
                  solved: set<Package>, started: set<Package>, current: set<Package>, next: set<Package>)
    requires i < |items| && DependencyItems(s, package) == Ok(items)
    requires EntriesProgress(s, package, items, i, solved, started, current)
    requires ItemSolves(s, items[i], current, started, next)
    ensures EntriesProgress(s, package, items, i + 1, solved, started, next)
  {
    forall t | Bounds(s, t, solved, package) ensures next <= t {
      assert ItemTargets(s, items[i]) <= Targets(s, package);
      assert ItemBounds(s, t, current, items[i]);
    }
    ItemsCovered(s, items, i, current, next);
  }

  /** After the loop the package joins the solved set. */
  lemma EntriesDone(s: Store, package: Package, items: seq<Value>,
                    solved: set<Package>, inProgress: set<Package>, current: set<Package>)
    requires DependencyItems(s, package) == Ok(items) && package !in inProgress
    requires EntriesProgress(s, package, items, |items|, solved, inProgress + {package}, current)
    ensures Solves(s, package, solved, inProgress, current + {package})
  {
    SolvedClosed(s, package, current, items);
  }

  /** The found targets of the first i + 1 entries are solved once those of the first i
      are and the next step solves those of entry i. */
  lemma ItemsCovered(s: Store, items: seq<Value>, i: nat, current: set<Package>, next: set<Package>)
    requires i < |items| && current <= next
    requires forall j, p :: 0 <= j < i && p in ItemTargets(s, items[j]) && Found(s, p) ==> p in current
    requires forall p :: p in ItemTargets(s, items[i]) && Found(s, p) ==> p in next
    ensures forall j, p :: 0 <= j < i + 1 && p in ItemTargets(s, items[j]) && Found(s, p) ==> p in next
  {
    forall j, p | 0 <= j < i + 1 && p in ItemTargets(s, items[j]) && Found(s, p)
      ensures p in next
    {
      if j < i {
        assert p in current;
      }
    }
  }

  /** Adding a package once all its found dependencies are in a closed set keeps it
      closed. */
  lemma SolvedClosed(s: Store, package: Package, current: set<Package>, items: seq<Value>)
    requires DependencyItems(s, package) == Ok(items)
    requires Closed(s, current)
    requires forall j, p :: 0 <= j < |items| && p in ItemTargets(s, items[j]) && Found(s, p) ==> p in current
    ensures Closed(s, current + {package})
  {
    forall p | p in Targets(s, package) && Found(s, p) ensures p in current {
      var j :| 0 <= j < |items| && p in ItemTargets(s, items[j]);
    }
  }

  /** A dependency of `package` followed by a chain is a chain from `package`, with the
      same last package. */
  lemma PrefixPath(s: Store, package: Package, path: seq<Package>) returns (np: seq<Package>)
    requires DependencyPath(s, path) && path[0] in Targets(s, package)
    ensures np == [package] + path
    ensures DependencyPath(s, np) && np[0] == package && np[|np| - 1] == path[|path| - 1]
    ensures np[..|np| - 1] == [package] + path[..|path| - 1]
  {
    np := [package] + path;
    forall i | 1 <= i < |np| ensures np[i] in Targets(s, np[i - 1]) {
      assert np[i] == path[i - 1];
      if i > 1 {
        assert np[i - 1] == path[i - 2];
      }
    }
  }

  /** A cycle closed from a dependency, with `package` in progress, is closed from
      `package`. */
  lemma CycleExtends(s: Store, package: Package, q: Package, inProgress: set<Package>)
    requires q in Targets(s, package) && CycleFrom(s, q, inProgress + {package})
    ensures CycleFrom(s, package, inProgress)
  {
    var path :| DependencyPath(s, path) && path[0] == q &&
      (path[|path| - 1] in inProgress + {package} || path[|path| - 1] in path[..|path| - 1]);
    var np := PrefixPath(s, package, path);
    assert np[|np| - 1] in inProgress || np[|np| - 1] in np[..|np| - 1];
  }

  /** An ill-formed package reachable from a dependency is reachable from `package`. */
  lemma WellFormedExtends(s: Store, package: Package, q: Package)
    requires q in Targets(s, package) && !WellFormedFrom(s, q)
    ensures !WellFormedFrom(s, package)
  {
    var path :| DependencyPath(s, path) && path[0] == q && !WellFormed(s, path[|path| - 1]);
    var np := PrefixPath(s, package, path);
    assert !WellFormed(s, np[|np| - 1]);
  }

  /** An ill-formed package is not well formed from itself. */
  lemma IllFormedHere(s: Store, package: Package)
    requires !WellFormed(s, package)
    ensures !WellFormedFrom(s, package)
  {
    assert DependencyPath(s, [package]);
  }

  /** A failing entry of the dependency loop: a cycle from one of its targets is a cycle
      from the package; any other error comes from an ill-formed entry or an ill-formed
      package reachable from it. */
  lemma EntryFailed(s: Store, package: Package, inProgress: set<Package>, items: seq<Value>, i: nat, err: Error)
    requires DependencyItems(s, package) == Ok(items) && i < |items|
    requires err == DependencyError ==>
      exists q :: q in ItemTargets(s, items[i]) && CycleFrom(s, q, inProgress + {package})
    requires err != DependencyError ==>
      !ItemWellFormed(s, items[i]) || exists q :: q in ItemTargets(s, items[i]) && !WellFormedFrom(s, q)
    ensures err == DependencyError ==> CycleFrom(s, package, inProgress)
    ensures err != DependencyError ==> !WellFormedFrom(s, package)
  {
    assert ItemTargets(s, items[i]) <= Targets(s, package);
    if err == DependencyError {
      var q :| q in ItemTargets(s, items[i]) && CycleFrom(s, q, inProgress + {package});
      CycleExtends(s, package, q, inProgress);
    } else if !ItemWellFormed(s, items[i]) {
      IllFormedHere(s, package);
    } else {
      var q :| q in ItemTargets(s, items[i]) && !WellFormedFrom(s, q);
      WellFormedExtends(s, package, q);
    }
  }

  /** One entry of the dependency loop: the category and package attributes are read,
      the versions listed (an InvalidKeyError skips the entry), and every version is
      solved in turn, in any order. */
  method SolveItem(s: Store, item: Value, solved: set<Package>, inProgress: set<Package>)
    returns (r: Result<set<Package>>)
    requires solved !! inProgress && Closed(s, solved) && AllFound(s, solved)
    ensures r.Ok? ==> ItemSolves(s, item, solved, inProgress, r.value)
    ensures r.Err? ==> r.error != InvalidKeyError
    ensures (GetAttr(item, "category").Ok? && GetAttr(item, "package").Ok? &&
             DependencyVersions(s, GetAttr(item, "category").value, GetAttr(item, "package").value) == Err(InvalidKeyError)) ==>
      r == Ok(solved)
    ensures r == Err(DependencyError) ==>
      exists q :: q in ItemTargets(s, item) && CycleFrom(s, q, inProgress)
    ensures r.Err? && r.error != DependencyError ==>
      !ItemWellFormed(s, item) || exists q :: q in ItemTargets(s, item) && !WellFormedFrom(s, q)
    ensures (ItemWellFormed(s, item) &&
             forall q :: q in ItemTargets(s, item) ==> !CycleFrom(s, q, inProgress) && WellFormedFrom(s, q)) ==>
      r.Ok?
    decreases |AllPackages(s) - (solved + inProgress)|, 1
  {
    var category := GetAttr(item, "category");
    if category.Err? {
      return Err(category.error);
    }
    var name := GetAttr(item, "package");
    if name.Err? {
      return Err(name.error);
    }
    var versions := DependencyVersions(s, category.value, name.value);
    if versions.Err? {
      if versions.error == InvalidKeyError {
        return Ok(solved);
      }
      return Err(versions.error);
    }
    var c, n := category.value.s, name.value.s;
    assert ItemTargets(s, item) == set v | v in versions.value :: Package(c, n, v);
    var current := solved;
    var todo := versions.value;
    while todo != {}
      invariant todo <= versions.value
      invariant VersionsProgress(s, item, c, n, solved, inProgress, current, versions.value - todo)
      decreases todo
    {
      var v :| v in todo;
      assert Package(c, n, v) in ItemTargets(s, item);
      NoMoreUnvisited(AllPackages(s), Package(c, n, v), solved, inProgress, current);
      var sub := SolveDependencies(s, Package(c, n, v), current, inProgress);
      if sub.Err? {
        return Err(sub.error);
      }
      VersionStep(s, item, c, n, solved, inProgress, current, versions.value - todo, v, sub.value.0);
      RemovedOne(versions.value, todo, v);
      current := sub.value.0;
      todo := todo - {v};
    }
    VersionsDone(s, item, c, n, versions.value, solved, inProgress, current);
    return Ok(current);
  }

  /** The version loop of one entry once the versions in `done` are solved. */
  ghost predicate VersionsProgress(s: Store, item: Value, c: string, n: string, solved: set<Package>,
                                   inProgress: set<Package>, current: set<Package>, done: set<string>)
  {
    solved <= current && current !! inProgress && Closed(s, current) && AllFound(s, current) &&
    (forall v :: v in done && Found(s, Package(c, n, v)) ==> Package(c, n, v) in current) &&
    forall t :: ItemBounds(s, t, solved, item) ==> current <= t
  }

  /** Solving one more version of the entry is one more step of the loop. */
  lemma VersionStep(s: Store, item: Value, c: string, n: string, solved: set<Package>, inProgress: set<Package>,
                    current: set<Package>, done: set<string>, v: string, next: set<Package>)
    requires VersionsProgress(s, item, c, n, solved, inProgress, current, done)
    requires Package(c, n, v) in ItemTargets(s, item)
    requires Solves(s, Package(c, n, v), current, inProgress, next)
    ensures VersionsProgress(s, item, c, n, solved, inProgress, next, done + {v})
  {
    forall t | ItemBounds(s, t, solved, item) ensures next <= t {
      assert Bounds(s, t, current, Package(c, n, v));
    }
  }

  lemma VersionsDone(s: Store, item: Value, c: string, n: string, versions: set<string>,
                     solved: set<Package>, inProgress: set<Package>, current: set<Package>)
    requires ItemTargets(s, item) == set v | v in versions :: Package(c, n, v)
    requires VersionsProgress(s, item, c, n, solved, inProgress, current, versions)
    ensures ItemSolves(s, item, solved, inProgress, current)
  {
  }

  /** The package name parts of get_dependencies: a bare name, or category/name. */
  function NameParts(pkgname: string): seq<string>
  {
    Split(pkgname, '/')
  }

  /** A bare name (also one written "/name", whose category part is empty). */
  predicate IsBare(pkgname: string)
  {
    |NameParts(pkgname)| == 1 || (|NameParts(pkgname)| == 2 && NameParts(pkgname)[0] == "")
  }

  function BareName(pkgname: string): string
    requires IsBare(pkgname)
  {
    NameParts(pkgname)[|NameParts(pkgname)| - 1]
  }

  /** The registered categories in_category finds the name in. */
  function Candidates(s: Store, name: string): set<string>
  {
    set c | c in s.categories && InCategory(s, c, name) == Ok(true)
  }

  /** The loop of get_dependencies over list_categories(); in_category raises on an
      empty category name, whatever the order of the loop, so that case is settled first. */
  method MatchingCategories(s: Store, name: string) returns (r: Result<set<string>>)
    ensures "" in s.categories ==> r == Err(InvalidKeyError)
    ensures "" !in s.categories ==> r == Ok(Candidates(s, name))
  {
    if "" in s.categories {
      return Err(InvalidKeyError);
    }
    var found: set<string> := {};
    var todo := s.categories.Keys;
    while todo != {}
      invariant todo <= s.categories.Keys
      invariant found == set c | c in s.categories && c !in todo && InCategory(s, c, name) == Ok(true)
      decreases todo
    {
      var c :| c in todo;
      if InCategory(s, c, name) == Ok(true) {
        found := found + {c};
      }
      todo := todo - {c};
    }
    assert found == Candidates(s, name);
    return Ok(found);
  }

  /** The category and name get_dependencies settles on. */
  predicate Resolves(s: Store, pkgname: string, category: string, name: string)
  {
    (|NameParts(pkgname)| == 2 && NameParts(pkgname)[0] != "" &&
     category == NameParts(pkgname)[0] && name == NameParts(pkgname)[1]) ||
    (IsBare(pkgname) && name == BareName(pkgname) && Candidates(s, name) == {category})
  }

  /** get_dependencies: more than one '/' is refused; a bare name must be in exactly one
      category; then every version of the package is solved from scratch and the
      solved sets are joined, so that the result is the least closed set holding every
      version. */
  method GetDependencies(s: Store, pkgname: string) returns (r: Result<set<Package>>)
    ensures |NameParts(pkgname)| > 2 ==> r == Err(DependencyError)
    ensures IsBare(pkgname) && "" in s.categories ==> r == Err(InvalidKeyError)
    ensures IsBare(pkgname) && "" !in s.categories && Candidates(s, BareName(pkgname)) == {} ==> r == Err(DependencyError)
    ensures IsBare(pkgname) && "" !in s.categories && |Candidates(s, BareName(pkgname))| > 1 ==> r == Err(DependencyError)
    ensures (|NameParts(pkgname)| == 2 && NameParts(pkgname)[0] != "" &&
             PackageVersions(s, NameParts(pkgname)[0], NameParts(pkgname)[1]).Err?) ==> r == Err(InvalidKeyError)
    ensures r.Ok? ==> exists c, n :: (Resolves(s, pkgname, c, n) && PackageVersions(s, c, n).Ok? &&
      (forall v :: v in PackageVersions(s, c, n).value ==> Package(c, n, v) in r.value) &&
      (forall t :: Closed(s, t) && (forall v :: v in PackageVersions(s, c, n).value ==> Package(c, n, v) in t) ==> r.value <= t))
    ensures r.Ok? ==> Closed(s, r.value) && AllFound(s, r.value)
    ensures r == Err(DependencyError) ==>
      |NameParts(pkgname)| > 2 || (IsBare(pkgname) && |Candidates(s, BareName(pkgname))| != 1) ||
      exists c, n, v :: Resolves(s, pkgname, c, n) && PackageVersions(s, c, n).Ok? &&
        v in PackageVersions(s, c, n).value && CycleFrom(s, Package(c, n, v), {})
    ensures r.Err? && r.error != DependencyError && r.error != InvalidKeyError ==>
      exists c, n, v :: Resolves(s, pkgname, c, n) && PackageVersions(s, c, n).Ok? &&
        v in PackageVersions(s, c, n).value && !WellFormedFrom(s, Package(c, n, v))
    ensures (!(IsBare(pkgname) && "" in s.categories) &&
             exists c, n :: Resolves(s, pkgname, c, n) && PackageVersions(s, c, n).Ok? &&
               forall v :: v in PackageVersions(s, c, n).value ==>
                 !CycleFrom(s, Package(c, n, v), {}) && WellFormedFrom(s, Package(c, n, v))) ==>
      r.Ok?
  {
    var parts := NameParts(pkgname);
    if |parts| > 2 {
      return Err(DependencyError);
    }
    var category, name := "", parts[|parts| - 1];
    if |parts| == 2 {
      category := parts[0];
    }
    if category == "" {
      var matching := MatchingCategories(s, name);
      if matching.Err? {
        return Err(matching.error);
      }
      if |matching.value| == 0 {
        return Err(DependencyError);
      }
      if |matching.value| > 1 {
        return Err(DependencyError);
      }
      category :| category in matching.value;
      SingletonSet(matching.value, category);
    }
    assert Resolves(s, pkgname, category, name);
    ResolvesUnique(s, pkgname, category, name);
    var listed := PackageVersions(s, category, name);
    if listed.Err? {
      return Err(listed.error);
    }
    assert forall v :: v in listed.value ==> Found(s, Package(category, name, v));
    r := SolveVersions(s, category, name, listed.value);
  }

  /** The loop of get_dependencies: every listed version is solved from scratch, in any
      order, and the solved sets are joined into the least closed set holding them all.
      The first failing version decides the error. */
  method SolveVersions(s: Store, category: string, name: string, versions: set<string>)
    returns (r: Result<set<Package>>)
    requires forall v :: v in versions ==> Found(s, Package(category, name, v))
    ensures r.Ok? ==> forall v :: v in versions ==> Package(category, name, v) in r.value
    ensures r.Ok? ==> Closed(s, r.value) && AllFound(s, r.value)
    ensures r.Ok? ==> forall t :: Closed(s, t) && (forall v :: v in versions ==> Package(category, name, v) in t) ==>
      r.value <= t
    ensures r.Err? ==> r.error != InvalidKeyError
    ensures r == Err(DependencyError) ==>
      exists v :: v in versions && CycleFrom(s, Package(category, name, v), {})
    ensures r.Err? && r.error != DependencyError ==>
      exists v :: v in versions && !WellFormedFrom(s, Package(category, name, v))
    ensures (forall v :: v in versions ==>
               !CycleFrom(s, Package(category, name, v), {}) && WellFormedFrom(s, Package(category, name, v))) ==>
      r.Ok?
  {
    var dependencies: set<Package> := {};
    var todo := versions;
    while todo != {}
      invariant todo <= versions
      invariant forall v :: v in versions && v !in todo ==> Package(category, name, v) in dependencies
      invariant Closed(s, dependencies) && AllFound(s, dependencies)
      invariant forall t :: Closed(s, t) && (forall v :: v in versions ==> Package(category, name, v) in t) ==> dependencies <= t
      decreases todo
    {
      var v :| v in todo;
      var solvedOne := SolveDependencies(s, Package(category, name, v), {}, {});
      if solvedOne.Err? {
        return Err(solvedOne.error);
      }
      forall t | Closed(s, t) && (forall v' :: v' in versions ==> Package(category, name, v') in t)
        ensures solvedOne.value.0 <= t
      {
        assert Bounds(s, t, {}, Package(category, name, v));
      }
      dependencies := dependencies + solvedOne.value.0;
      todo := todo - {v};
    }
    return Ok(dependencies);
  }

  /** A package name settles on one category and name at most. */
  lemma ResolvesUnique(s: Store, pkgname: string, category: string, name: string)
    requires Resolves(s, pkgname, category, name)
    ensures forall c, n :: Resolves(s, pkgname, c, n) ==> c == category && n == name
  {
  }

  lemma SingletonSet<T>(a: set<T>, x: T)
    requires |a| == 1 && x in a
    ensures a == {x}
  {
    if y :| y in a && y != x {
      SubsetCard({x, y}, a);
    }
  }

  // ---------------------------------------------------------------------------------
  // The revisit path as written

  /** What solve_dependencies returns as written: the pair, or on the already-solved
      path the bare solved set. */
  datatype Returned = Pair(solved: set<Package>, inProgress: set<Package>) | Bare(items: set<Package>)

  /** The already-solved path as written returns the solved set alone. */
  function RevisitAsWritten(solved: set<Package>, inProgress: set<Package>): Returned
  {
    Bare(solved)
  }

  /** The caller's `solved_deps, unsolved_deps = ...`: a pair unpacks; a bare set unpacks
      only when it has exactly two elements, and then binds two Package objects whose
      next use as a set raises. */
  function UnpackAsWritten(returned: Returned): (r: Result<(set<Package>, set<Package>)>)
    ensures returned.Pair? ==> r == Ok((returned.solved, returned.inProgress))
    ensures returned.Bare? ==> r.Err?
  {
    match returned
    case Pair(solved, inProgress) => Ok((solved, inProgress))
    case Bare(items) => if |items| == 2 then Err(TypeError) else Err(ValueError)
  }

  /** A package with the dependency list [B, B] reaches B twice. After the first B is
      solved the second takes the already-solved path, and the caller's unpacking of
      the bare one-element set raises ValueError. */
  lemma RevisitBreaksCaller(b: Package, a: Package)
    ensures UnpackAsWritten(RevisitAsWritten({b}, {a})) == Err(ValueError)
  {
  }

  /** A store with packages c/a-1 and c/b-1, where a depends twice on b and b on nothing. */
  const RepeatEntry := DependencyValue(Dependency("c", "b", "", ""))
  const RepeatA := Package("c", "a", "1")
  const RepeatB := Package("c", "b", "1")
  const RepeatPropsA: Props := map["dependencies" := List([RepeatEntry, RepeatEntry])]
  const RepeatPropsB: Props := map["dependencies" := List([])]
  const RepeatCategory := CategoryData(map[], map["a" := map["1" := RepeatPropsA], "b" := map["1" := RepeatPropsB]])

  function RepeatStore(): Store
  {
    Store(map["c" := Map(map[])], map["c" := RepeatCategory])
  }

  /** a's dependency list is the entry twice. */
  lemma RepeatListA()
    ensures DependencyItems(RepeatStore(), RepeatA) == Ok([RepeatEntry, RepeatEntry])
  {
    var s := RepeatStore();
    assert VersionOf(s.database, "c", "a", "1") == Some(RepeatPropsA);
    assert s.database["c"].commonData == map[];
    var d := PackageDescription(s, RepeatA);
    assert d.Ok? && "dependencies" in d.value && d.value["dependencies"] == List([RepeatEntry, RepeatEntry]);
  }

  /** b's dependency list is empty. */
  lemma RepeatListB()
    ensures DependencyItems(RepeatStore(), RepeatB) == Ok([])
  {
    var s := RepeatStore();
    assert VersionOf(s.database, "c", "b", "1") == Some(RepeatPropsB);
    assert s.database["c"].commonData == map[];
    var d := PackageDescription(s, RepeatB);
    assert d.Ok? && "dependencies" in d.value && d.value["dependencies"] == List([]);
  }

  /** The entry stands for b alone. */
  lemma RepeatEntryTargets()
    ensures ItemTargets(RepeatStore(), RepeatEntry) == {RepeatB}
  {
    var s := RepeatStore();
    assert KnownCategory(s, "c");
    var vs := PackageVersions(s, "c", "b");
    assert vs == Ok(map["1" := RepeatPropsB].Keys);
    assert map["1" := RepeatPropsB].Keys == {"1"};
  }

  /** b is found and depends on nothing. */
  lemma RepeatLeaf()
    ensures Targets(RepeatStore(), RepeatB) == {}
    ensures Found(RepeatStore(), RepeatB)
  {
    RepeatListB();
  }

  /** An entry that stands for one found package without dependencies solves exactly
      that package, and solving the entry again changes nothing. */
  lemma SingleTargetEntry(s: Store, entry: Value, b: Package, inProgress: set<Package>, first: set<Package>)
    requires ItemTargets(s, entry) == {b} && Targets(s, b) == {} && Found(s, b)
    requires ItemSolves(s, entry, {}, inProgress, first)
    ensures first == {b}
    ensures forall second :: ItemSolves(s, entry, first, inProgress, second) ==> second == first
  {
    assert Closed(s, {b});
    assert ItemBounds(s, {b}, {}, entry);
    forall second | ItemSolves(s, entry, first, inProgress, second) ensures second == first {
      assert ItemBounds(s, first, first, entry);
    }
  }

  /** In that store the first entry of a's list solves b, so the second entry calls
      solve_dependencies on b with b already solved: as written that call returns the
      bare set {b}, whose unpacking raises ValueError; as corrected it leaves the
      solved set as it is. */
  lemma RevisitOnRepeatedEntry(first: set<Package>)
    requires ItemSolves(RepeatStore(), RepeatEntry, {}, {RepeatA}, first)
    ensures DependencyItems(RepeatStore(), RepeatA) == Ok([RepeatEntry, RepeatEntry])
    ensures first == {RepeatB}
    ensures UnpackAsWritten(RevisitAsWritten(first, {RepeatA})) == Err(ValueError)
    ensures forall second :: ItemSolves(RepeatStore(), RepeatEntry, first, {RepeatA}, second) ==> second == first
  {
    RepeatListA();
    RepeatEntryTargets();
    RepeatLeaf();
    SingleTargetEntry(RepeatStore(), RepeatEntry, RepeatB, {RepeatA}, first);
  }
}
