/** The file system the database lives on, as the code sees it through os.path,
    os.makedirs, open, shutil.rmtree and hash_file. */
module FileSystem {
  import opened Wrappers
  import opened Strings
  import opened Values

  /** What a file holds: a JSON document, kept as its raw tree, or bytes that are not
      valid JSON (a partly written or corrupted file). */
  datatype FileData = Json(tree: Value) | Unparsable

  /** The content hash of hash_file (an md5 hex digest), left uninterpreted. */
  type Hasher = FileData -> string

  /** os.path.join for a relative name. */
  function PathJoin(dir: string, name: string): string
  {
    dir + "/" + name
  }

  /** `p` lies strictly inside directory `d`. */
  predicate Under(p: string, d: string)
  {
    StartsWith(p, d + "/")
  }

  /** Two different names joined to one directory give different paths. */
  lemma PathJoinDistinct(dir: string, a: string, b: string)
    requires a != b
    ensures PathJoin(dir, a) != PathJoin(dir, b)
  {
    assert PathJoin(dir, a)[|dir| + 1..] == a;
    assert PathJoin(dir, b)[|dir| + 1..] == b;
  }

  /** A name joined to a directory lies inside it, and is not the directory itself. */
  lemma PathJoinUnder(dir: string, name: string)
    ensures Under(PathJoin(dir, name), dir)
    ensures PathJoin(dir, name) != dir
  {
    assert PathJoin(dir, name)[..|dir| + 1] == dir + "/";
  }

  /** A file two levels down is inside the top directory, and it is not a file one
      level down whose name has no '/'. */
  lemma NestedPathFacts(dir: string, sub: string, name: string, top: string)
    requires '/' !in top
    ensures Under(PathJoin(PathJoin(dir, sub), name), dir)
    ensures PathJoin(PathJoin(dir, sub), name) != PathJoin(dir, top)
  {
    var q := sub + "/" + name;
    assert PathJoin(PathJoin(dir, sub), name) == PathJoin(dir, q);
    PathJoinUnder(dir, q);
    assert q[|sub|] == '/';
    PathJoinDistinct(dir, q, top);
  }

  /** Files of the same name in two sub-directories of one directory are distinct. */
  lemma NestedPathInjective(dir: string, a: string, b: string, name: string)
    requires PathJoin(PathJoin(dir, a), name) == PathJoin(PathJoin(dir, b), name)
    ensures a == b
  {
    var p := PathJoin(PathJoin(dir, a), name);
    assert |a| == |b|;
    assert a == p[|dir| + 1..|dir| + 1 + |a|];
    assert b == p[|dir| + 1..|dir| + 1 + |b|];
  }

  /** The path of `p` relative to `d`, as os.walk's root[len(d)+1:] gives it. */
  function RelPath(p: string, d: string): (r: string)
    requires Under(p, d)
    ensures PathJoin(d, r) == p
  {
    p[|d| + 1..]
  }

  /** A path inside d/sub, taken relative to d, begins with sub and a '/'. */
  lemma RelPathUnderSub(p: string, d: string, sub: string)
    requires Under(p, PathJoin(d, sub))
    ensures Under(p, d)
    ensures StartsWith(RelPath(p, d), sub + "/")
  {
    assert p[..|d| + 1] == (d + "/" + sub + "/")[..|d| + 1];
    var r := RelPath(p, d);
    assert r[..|sub| + 1] == p[|d| + 1..|d| + 1 + |sub| + 1];
  }

  /** The hash of the file at `p`; opening a missing file is an IOError. */
  function HashOf(files: map<string, FileData>, p: string, md5: Hasher): (r: Result<string>)
    ensures r.Ok? <==> p in files
    ensures r.Ok? ==> r.value == md5(files[p])
    ensures r.Err? ==> r.error == IOError
  {
    if p in files then Ok(md5(files[p])) else Err(IOError)
  }

  /** The files that survive removing the tree rooted at `d`. */
  function Pruned(files: map<string, FileData>, d: string): (r: map<string, FileData>)
    ensures forall p :: p in r <==> p in files && p != d && !Under(p, d)
    ensures forall p :: p in r ==> r[p] == files[p]
  {
    map p | p in files && p != d && !Under(p, d) :: files[p]
  }

  /** Moving a path from below `src` to below `dst` and back gives the path again. */
  lemma RerootInverse(p: string, src: string, dst: string)
    requires Under(p, src)
    ensures Under(PathJoin(dst, RelPath(p, src)), dst)
    ensures PathJoin(src, RelPath(PathJoin(dst, RelPath(p, src)), dst)) == p
  {
    var q := PathJoin(dst, RelPath(p, src));
    assert q[..|dst| + 1] == dst + "/";
    assert q[|dst| + 1..] == RelPath(p, src);
  }

  /** The paths below `dst` that copying the tree below `src` creates. */
  function CopiedPaths(files: map<string, FileData>, src: string, dst: string): set<string>
  {
    set p | p in files && Under(p, src) :: PathJoin(dst, RelPath(p, src))
  }

  lemma CopiedPathsCome(files: map<string, FileData>, src: string, dst: string)
    ensures forall q :: q in CopiedPaths(files, src, dst) ==>
      Under(q, dst) && PathJoin(src, RelPath(q, dst)) in files
  {
    forall q | q in CopiedPaths(files, src, dst)
      ensures Under(q, dst) && PathJoin(src, RelPath(q, dst)) in files
    {
      var p :| p in files && Under(p, src) && q == PathJoin(dst, RelPath(p, src));
      RerootInverse(p, src, dst);
    }
  }

  /** The files below `src`, placed at the same relative paths below `dst`. */
  function Rerooted(files: map<string, FileData>, src: string, dst: string): (r: map<string, FileData>)
    ensures forall p :: p in files && Under(p, src) ==>
      PathJoin(dst, RelPath(p, src)) in r && r[PathJoin(dst, RelPath(p, src))] == files[p]
    ensures forall q :: q in r ==> Under(q, dst) && PathJoin(src, RelPath(q, dst)) in files
  {
    CopiedPathsCome(files, src, dst);
    var r := map q | q in CopiedPaths(files, src, dst) :: files[PathJoin(src, RelPath(q, dst))];
    assert forall p :: p in files && Under(p, src) ==>
      PathJoin(dst, RelPath(p, src)) in r && r[PathJoin(dst, RelPath(p, src))] == files[p] by {
      forall p | p in files && Under(p, src)
        ensures PathJoin(dst, RelPath(p, src)) in r && r[PathJoin(dst, RelPath(p, src))] == files[p]
      {
        RerootInverse(p, src, dst);
      }
    }
    r
  }

  /** The disk: the regular files with their content, and the directories. Parent
      directories that makedirs creates along the way are not recorded; nothing in
      the modelled code asks about them. */
  class Disk {
    var files: map<string, FileData>
    var dirs: set<string>

    constructor(files: map<string, FileData>, dirs: set<string>)
      ensures this.files == files && this.dirs == dirs
    {
      this.files := files;
      this.dirs := dirs;
    }

    /** os.makedirs(d). */
    method MakeDirs(d: string)
      modifies this
      ensures files == old(files)
      ensures dirs == old(dirs) + {d}
    {
      dirs := dirs + {d};
    }

    /** Writing a whole file. */
    method WriteFile(p: string, data: FileData)
      modifies this
      ensures files == old(files)[p := data]
      ensures dirs == old(dirs)
    {
      files := files[p := data];
    }

    /** shutil.rmtree(d) guarded by os.path.exists(d): when d is absent there is
      nothing at or below it to remove. */
    method RemoveTree(d: string)
      modifies this
      ensures files == Pruned(old(files), d)
      ensures dirs == set x | x in old(dirs) && x != d && !Under(x, d)
    {
      files := Pruned(files, d);
      dirs := set x | x in dirs && x != d && !Under(x, d);
    }

    /** copy_all(src, dst): the tree below src is copied below dst. */
    method CopyAll(src: string, dst: string)
      modifies this
      ensures files == old(files) + Rerooted(old(files), src, dst)
      ensures dirs == old(dirs) + {dst} + set x | x in old(dirs) && Under(x, src) :: PathJoin(dst, RelPath(x, src))
    {
      files := files + Rerooted(files, src, dst);
      dirs := dirs + {dst} + set x | x in dirs && Under(x, src) :: PathJoin(dst, RelPath(x, src));
    }

    /** hash_file on the file at p. */
    method HashFile(p: string, md5: Hasher) returns (r: Result<string>)
      ensures r == HashOf(files, p, md5)
    {
      if p in files {
        r := Ok(md5(files[p]));
      } else {
        r := Err(IOError);
      }
    }
  }
}
