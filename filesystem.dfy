/** The filesystem the pipeline works over: a set of directories, a map from
    file paths to their text, and the source files whose copy raises (an I/O
    or permission error the core cannot foresee). A path is the list of its
    segments, so `path.join(a, b)` is `a + [b]`; the empty path is the
    project root, which always exists. */
module FileSystem {
  import opened Wrappers

  type Path = seq<string>

  function Parent(p: Path): Path
    requires p != []
  {
    p[..|p| - 1]
  }

  /** Every non-empty prefix of `p`: the directories `mkdir -p p` creates. */
  function Prefixes(p: Path): (r: set<Path>)
    ensures p != [] ==> p in r
    ensures forall q :: q in r ==> q != [] && |q| <= |p| && q == p[..|q|]
  {
    assert p[..|p|] == p;
    set k | 1 <= k <= |p| :: p[..k]
  }

  /** A file or a directory is at `p`. */
  predicate Present(dirs: set<Path>, files: map<Path, string>, p: Path) {
    p == [] || p in dirs || p in files
  }

  predicate DirIn(dirs: set<Path>, p: Path) {
    p == [] || p in dirs
  }

  /** No prefix of `p` is a regular file, so `mkdir -p p` cannot fail. */
  predicate Makeable(files: map<Path, string>, p: Path) {
    forall k | 1 <= k <= |p| :: p[..k] !in files
  }

  /** The names of the entries directly under `d`. */
  ghost function ChildNames(dirs: set<Path>, files: map<Path, string>, d: Path): (r: set<string>)
    ensures forall n :: n in r <==> (d + [n] in dirs || d + [n] in files)
  {
    var kids := set p | p in dirs + files.Keys && |p| == |d| + 1 && p[..|d|] == d :: p[|d|];
    assert forall n :: (d + [n] in dirs || d + [n] in files) ==> n in kids by {
      forall n | d + [n] in dirs || d + [n] in files
        ensures n in kids
      {
        var p := d + [n];
        assert p[..|d|] == d && p[|d|] == n;
      }
    }
    assert forall n :: n in kids ==> (d + [n] in dirs || d + [n] in files) by {
      forall n | n in kids
        ensures d + [n] in dirs || d + [n] in files
      {
        var p :| p in dirs + files.Keys && |p| == |d| + 1 && p[..|d|] == d && p[|d|] == n;
        assert p == d + [n];
      }
    }
    kids
  }

  class Fs {
    var dirs: set<Path>
    var files: map<Path, string>
    const uncopyable: set<Path>

    constructor (dirs0: set<Path>, files0: map<Path, string>, uncopyable0: set<Path>)
      ensures dirs == dirs0 && files == files0 && uncopyable == uncopyable0
    {
      dirs := dirs0;
      files := files0;
      uncopyable := uncopyable0;
    }

    /** `fs.existsSync(p)`: a file or a directory is there. */
    predicate Exists(p: Path)
      reads this
    {
      Present(dirs, files, p)
    }

    /** Every path that exists, as a value the read-only checks can work on. */
    function Entries(): (r: set<Path>)
      reads this
      ensures forall p :: p in r <==> p in dirs || p in files
    {
      dirs + files.Keys
    }

    predicate IsDir(p: Path)
      reads this
    {
      DirIn(dirs, p)
    }

    predicate CanMakeDirs(p: Path)
      reads this
    {
      Makeable(files, p)
    }

    /** The names `fs.readdirSync(d)` lists. */
    ghost function Children(d: Path): (r: set<string>)
      reads this
      ensures forall n :: n in r <==> (d + [n] in dirs || d + [n] in files)
    {
      ChildNames(dirs, files, d)
    }

    /** `fs.mkdirSync(p, { recursive: true })`: all or nothing. */
    method MkdirP(p: Path) returns (ok: bool)
      modifies this
      ensures ok == old(CanMakeDirs(p))
      ensures files == old(files)
      ensures dirs == if ok then old(dirs) + Prefixes(p) else old(dirs)
    {
      ok := CanMakeDirs(p);
      if ok {
        dirs := dirs + Prefixes(p);
      }
    }

    /** `fs.writeFileSync(p, text)`: fails unless the parent is a directory
        and `p` is not one. */
    method WriteFile(p: Path, text: string) returns (ok: bool)
      modifies this
      ensures ok == (p != [] && old(IsDir(Parent(p))) && p !in old(dirs))
      ensures dirs == old(dirs)
      ensures files == if ok then old(files)[p := text] else old(files)
    {
      ok := p != [] && IsDir(Parent(p)) && p !in dirs;
      if ok {
        files := files[p := text];
      }
    }

    /** `fs.copyFileSync(src, dst)`. */
    method CopyFile(src: Path, dst: Path) returns (ok: bool)
      modifies this
      ensures ok == (src in old(files) && src !in uncopyable && dst != []
                     && old(IsDir(Parent(dst))) && dst !in old(dirs))
      ensures dirs == old(dirs)
      ensures files == if ok then old(files)[dst := old(files)[src]] else old(files)
    {
      ok := src in files && src !in uncopyable && dst != [] && IsDir(Parent(dst)) && dst !in dirs;
      if ok {
        files := files[dst := files[src]];
      }
    }

    /** `fs.readdirSync(d)`: raises unless `d` is a directory; otherwise each
        entry once, in an order the platform chooses. */
    method ListDir(d: Path) returns (r: Option<seq<string>>)
      ensures r.Some? <==> IsDir(d)
      ensures r.Some? ==> (forall i, j | 0 <= i < j < |r.value| :: r.value[i] != r.value[j])
      ensures r.Some? ==> (forall n :: n in r.value <==> n in Children(d))
    {
      if !IsDir(d) {
        return None;
      }
      var remaining := set p | p in dirs + files.Keys && |p| == |d| + 1 && p[..|d|] == d :: p[|d|];
      assert remaining == Children(d);
      var names: seq<string> := [];
      while remaining != {}
        invariant forall n :: n in Children(d) <==> (n in names || n in remaining)
        invariant forall n :: n in names ==> n !in remaining
        invariant forall i, j | 0 <= i < j < |names| :: names[i] != names[j]
        decreases remaining
      {
        var n :| n in remaining;
        names := names + [n];
        remaining := remaining - {n};
      }
      r := Some(names);
    }
  }
}
