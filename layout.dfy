/** Where the generator puts things: the output folders of a run, the
    `existsSync`-then-`mkdirSync` step that creates them, and which assets a
    copy pass transfers. Everything here is a function of the filesystem's
    state as values, so the generator's methods can be specified by it. */
module Layout {
  import opened Wrappers
  import opened FileSystem
  import opened Catalog
  import opened Config

  // ---------------------------------------------------------------------
  // Creating directories

  /** `if (!fs.existsSync(p)) fs.mkdirSync(p, { recursive: true })`: the
      directories afterwards, or `None` when the mkdir raises because some
      prefix of `p` is a regular file. */
  function Ensured(dirs: set<Path>, files: map<Path, string>, p: Path): (r: Option<set<Path>>)
    ensures r.None? <==> !Present(dirs, files, p) && !Makeable(files, p)
    ensures r.Some? ==> dirs <= r.value && Present(r.value, files, p)
    ensures r.Some? ==> forall q | q in r.value && q !in dirs :: q in Prefixes(p)
  {
    if Present(dirs, files, p) then Some(dirs)
    else if Makeable(files, p) then Some(dirs + Prefixes(p))
    else None
  }

  /** The outcome of a run of such steps: whether all of them got through,
      and the directories afterwards. */
  datatype Ensure = Ensure(ok: bool, dirs: set<Path>)

  /** The steps in order; the first one that raises ends the run. */
  function EnsureAll(dirs: set<Path>, files: map<Path, string>, ps: seq<Path>): (r: Ensure)
    ensures dirs <= r.dirs
    ensures r.ok ==> forall i | 0 <= i < |ps| :: Present(r.dirs, files, ps[i])
    ensures (forall i | 0 <= i < |ps| :: Makeable(files, ps[i])) ==> r.ok
    ensures forall q | q in r.dirs && q !in dirs :: exists i | 0 <= i < |ps| :: q in Prefixes(ps[i])
    decreases |ps|
  {
    if ps == [] then Ensure(true, dirs)
    else
      match Ensured(dirs, files, ps[0])
      case None => Ensure(false, dirs)
      case Some(d) =>
        var r := EnsureAll(d, files, ps[1..]);
        assert forall i | 1 <= i < |ps| :: ps[i] == ps[1..][i - 1];
        r
  }

  /** Running the same steps a second time changes nothing and ends the
      same way: every directory the first run made is found by
      `existsSync`, and a step that raised raises again. */
  lemma {:induction false} EnsureAllIdempotent(dirs: set<Path>, files: map<Path, string>, ps: seq<Path>)
    ensures EnsureAll(EnsureAll(dirs, files, ps).dirs, files, ps) == EnsureAll(dirs, files, ps)
    decreases |ps|
  {
    if ps != [] {
      var r := EnsureAll(dirs, files, ps);
      match Ensured(dirs, files, ps[0])
      case None =>
        assert r == Ensure(false, dirs);
      case Some(d) =>
        assert r == EnsureAll(d, files, ps[1..]);
        assert Present(r.dirs, files, ps[0]);
        assert Ensured(r.dirs, files, ps[0]) == Some(r.dirs);
        EnsureAllIdempotent(d, files, ps[1..]);
    }
  }

  // ---------------------------------------------------------------------
  // Output folders

  /** Per-record folders are used for this id. */
  predicate PerRecord(cfg: Settings, id: Option<string>) {
    cfg.useGigFolders && Truthy(id)
  }

  /** The folder `ensureOutputDir(id)` returns. */
  function OutputDirFor(cfg: Settings, id: Option<string>): Path {
    if PerRecord(cfg, id) then Output + [id.value] else Output
  }

  /** The folders `ensureOutputDir(id)` makes sure of, in order. */
  function OutputDirs(cfg: Settings, id: Option<string>): (r: seq<Path>)
    ensures |r| > 0 && r[0] == Output
  {
    if PerRecord(cfg, id) then
      var gig := Output + [id.value];
      [Output, gig, gig + [cfg.screenshotSubfolder]]
    else [Output]
  }

  /** After `ensureOutputDir(id)` gets through, the folder it returns exists,
      and so does its screenshot sub-folder in per-record mode. */
  lemma OutputDirReady(cfg: Settings, id: Option<string>, dirs: set<Path>, files: map<Path, string>)
    requires EnsureAll(dirs, files, OutputDirs(cfg, id)).ok
    ensures var after := EnsureAll(dirs, files, OutputDirs(cfg, id)).dirs;
            && Present(after, files, OutputDirFor(cfg, id))
            && (PerRecord(cfg, id) ==> Present(after, files, OutputDirFor(cfg, id) + [cfg.screenshotSubfolder]))
  {
    var ps := OutputDirs(cfg, id);
    if PerRecord(cfg, id) {
      assert ps[1] == OutputDirFor(cfg, id);
      assert ps[2] == OutputDirFor(cfg, id) + [cfg.screenshotSubfolder];
    } else {
      assert ps[0] == OutputDirFor(cfg, id);
    }
  }

  /** The page a record with this id is written to. */
  function PagePath(cfg: Settings, id: string): Path {
    OutputDirFor(cfg, Some(id)) + [id + ".html"]
  }

  /** How many segments a page path has in this configuration. */
  function PageDepth(cfg: Settings): nat {
    if cfg.useGigFolders then 3 else 2
  }

  lemma HtmlNameInjective(a: string, b: string)
    requires a + ".html" == b + ".html"
    ensures a == b
  {
    assert |a| == |b|;
    assert a == (a + ".html")[..|a|];
    assert b == (b + ".html")[..|b|];
  }

  /** Records with different non-empty ids get different page paths, all of
      one depth, in both layouts. */
  lemma PagePathsDistinct(cfg: Settings, a: string, b: string)
    requires a != "" && b != "" && a != b
    ensures PagePath(cfg, a) != PagePath(cfg, b)
    ensures |PagePath(cfg, a)| == PageDepth(cfg)
  {
    var pa, pb := PagePath(cfg, a), PagePath(cfg, b);
    if cfg.useGigFolders {
      assert pa[1] == a && pb[1] == b;
    } else if pa == pb {
      assert pa[1] == a + ".html" && pb[1] == b + ".html";
      HtmlNameInjective(a, b);
    }
  }

  // ---------------------------------------------------------------------
  // Copying assets

  /** The folder `copyAssets(id)` copies into. */
  function AssetsFor(cfg: Settings, id: Option<string>): (r: Path)
    ensures |r| == |OutputDirFor(cfg, id)| + 2 && r[0] == "output"
  {
    AssetsBelow(OutputDirFor(cfg, id))
  }

  /** The copy of the asset `n` into `dst` goes through: the source is a
      regular file that copies, the destination folder is a directory and
      the destination is not a directory. */
  predicate CopyOk(dirs: set<Path>, files: map<Path, string>, uncopyable: set<Path>, dst: Path, n: string) {
    Images + [n] in files && Images + [n] !in uncopyable && DirIn(dirs, dst) && dst + [n] !in dirs
  }

  /** The asset names a copy pass into `dst` transfers: none unless the
      images folder is a directory, otherwise every listed entry whose copy
      goes through. */
  ghost function Copied(dirs: set<Path>, files: map<Path, string>, uncopyable: set<Path>, dst: Path): (r: set<string>)
    ensures forall n | n in r :: Images + [n] in files
    ensures !DirIn(dirs, Images) ==> r == {}
    ensures DirIn(dirs, Images) ==> forall n :: n in r <==> CopyOk(dirs, files, uncopyable, dst, n)
  {
    if DirIn(dirs, Images) then
      set n | n in ChildNames(dirs, files, Images) && CopyOk(dirs, files, uncopyable, dst, n)
    else {}
  }

  /** `p` is the copy of one of `names` into `dst`. */
  predicate Target(dst: Path, names: set<string>, p: Path) {
    |p| == |dst| + 1 && p[..|dst|] == dst && p[|dst|] in names
  }

  /** `after` is `before` with each of `names` copied from the images
      folder into `dst`, and nothing else changed. */
  ghost predicate CopiedFiles(before: map<Path, string>, after: map<Path, string>, dst: Path, names: set<string>) {
    && (forall n | n in names :: Images + [n] in before)
    && (forall p :: p in after <==> p in before || Target(dst, names, p))
    && (forall p | p in after ::
          after[p] == if Target(dst, names, p) then before[Images + [p[|dst|]]] else before[p])
  }

  /** The files after the copy pass has gone through `ns` in listing order. */
  function AfterCopies(dirs: set<Path>, files: map<Path, string>, uncopyable: set<Path>, dst: Path, ns: seq<string>): map<Path, string>
    decreases |ns|
  {
    if ns == [] then files
    else
      var prev := AfterCopies(dirs, files, uncopyable, dst, ns[..|ns| - 1]);
      var n := ns[|ns| - 1];
      if CopyOk(dirs, files, uncopyable, dst, n) then prev[dst + [n] := files[Images + [n]]] else prev
  }

  /** How many of the copies of `ns` go through. */
  function CopyCount(dirs: set<Path>, files: map<Path, string>, uncopyable: set<Path>, dst: Path, ns: seq<string>): nat
    decreases |ns|
  {
    if ns == [] then 0
    else
      CopyCount(dirs, files, uncopyable, dst, ns[..|ns| - 1])
      + if CopyOk(dirs, files, uncopyable, dst, ns[|ns| - 1]) then 1 else 0
  }

  lemma PathShape(dst: Path, n: string, p: Path)
    ensures (|p| == |dst| + 1 && p[..|dst|] == dst && p[|dst|] == n) <==> p == dst + [n]
  {
    if |p| == |dst| + 1 && p[..|dst|] == dst && p[|dst|] == n {
      assert p == p[..|dst|] + [p[|dst|]];
    }
  }

  /** The pass only writes entries directly under `dst`. */
  lemma {:induction false} AfterCopiesOutside(dirs: set<Path>, files: map<Path, string>, uncopyable: set<Path>,
                                              dst: Path, ns: seq<string>, p: Path)
    requires !(|p| == |dst| + 1 && p[..|dst|] == dst)
    ensures var after := AfterCopies(dirs, files, uncopyable, dst, ns);
            && (p in after <==> p in files)
            && (p in files ==> after[p] == files[p])
    decreases |ns|
  {
    if ns != [] {
      AfterCopiesOutside(dirs, files, uncopyable, dst, ns[..|ns| - 1], p);
      PathShape(dst, ns[|ns| - 1], p);
    }
  }

  /** Whatever the listing order, a pass over distinct names copies exactly
      the names whose copy goes through, each once, and counts them. */
  lemma {:induction false} AfterCopiesSpec(dirs: set<Path>, files: map<Path, string>, uncopyable: set<Path>,
                                           dst: Path, ns: seq<string>)
    requires forall i, j | 0 <= i < j < |ns| :: ns[i] != ns[j]
    ensures var done := set n | n in ns && CopyOk(dirs, files, uncopyable, dst, n);
            && CopyCount(dirs, files, uncopyable, dst, ns) == |done|
            && CopiedFiles(files, AfterCopies(dirs, files, uncopyable, dst, ns), dst, done)
    decreases |ns|
  {
    var done := set n | n in ns && CopyOk(dirs, files, uncopyable, dst, n);
    if ns == [] {
      assert done == {};
    } else {
      var init, n := ns[..|ns| - 1], ns[|ns| - 1];
      AfterCopiesSpec(dirs, files, uncopyable, dst, init);
      var before := set m | m in init && CopyOk(dirs, files, uncopyable, dst, m);
      var prev := AfterCopies(dirs, files, uncopyable, dst, init);
      assert forall m :: m in ns <==> m in init || m == n by {
        assert ns == init + [n];
      }
      assert n !in init;
      if CopyOk(dirs, files, uncopyable, dst, n) {
        assert done == before + {n};
        var k := dst + [n];
        var after := prev[k := files[Images + [n]]];
        forall p ensures Target(dst, done, p) <==> Target(dst, before, p) || p == k {
          PathShape(dst, n, p);
        }
        assert k[..|dst|] == dst && k[|dst|] == n;
      } else {
        assert done == before;
      }
    }
  }

  /** Two results of the same copy pass are the same map. */
  lemma CopiedFilesUnique(before: map<Path, string>, a: map<Path, string>, b: map<Path, string>,
                          dst: Path, names: set<string>)
    requires CopiedFiles(before, a, dst, names) && CopiedFiles(before, b, dst, names)
    ensures a == b
  {
    assert a.Keys == b.Keys;
    assert forall p | p in a :: a[p] == b[p];
  }

  // ---------------------------------------------------------------------
  // The tree as a value

  /** A state of the filesystem. */
  datatype Tree = Tree(dirs: set<Path>, files: map<Path, string>)

  /** `before` with each of `names` copied from the images folder into `dst`. */
  ghost function WithCopies(before: map<Path, string>, dst: Path, names: set<string>): (r: map<Path, string>)
    requires forall n | n in names :: Images + [n] in before
    ensures CopiedFiles(before, r, dst, names)
  {
    var targets := set n | n in names :: dst + [n];
    assert forall p :: Target(dst, names, p) <==> p in targets by {
      forall p ensures Target(dst, names, p) <==> p in targets {
        if Target(dst, names, p) {
          PathShape(dst, p[|dst|], p);
        }
        if p in targets {
          var n :| n in names && p == dst + [n];
          PathShape(dst, n, p);
        }
      }
    }
    map p | p in before.Keys + targets :: if Target(dst, names, p) then before[Images + [p[|dst|]]] else before[p]
  }

  /** The tree after `copyAssets` into `dst`: the folder ensured, then every
      asset whose copy goes through copied into it; nothing changes when the
      folder cannot be made. */
  ghost function AfterCopy(uncopyable: set<Path>, dst: Path, t: Tree): Tree {
    match Ensured(t.dirs, t.files, dst)
    case None => t
    case Some(d) => Tree(d, WithCopies(t.files, dst, Copied(d, t.files, uncopyable, dst)))
  }

  /** The state a copy pass leaves, as the copying method states it, is the
      one `AfterCopy` gives. */
  lemma CopyIsAfterCopy(uncopyable: set<Path>, dst: Path, t: Tree, after: Tree, done: set<string>)
    requires var e := Ensured(t.dirs, t.files, dst);
             && after.dirs == (if e.None? then t.dirs else e.value)
             && done == (if e.None? then {} else Copied(e.value, t.files, uncopyable, dst))
             && CopiedFiles(t.files, after.files, dst, done)
    ensures after == AfterCopy(uncopyable, dst, t)
  {
    CopiedFilesUnique(t.files, after.files, AfterCopy(uncopyable, dst, t).files, dst, done) by {
      if Ensured(t.dirs, t.files, dst).None? {
        assert forall p | Target(dst, done, p) :: false;
      }
    }
  }

  /** The record's page can be written once its folders are ensured: the
      steps get through, its folder is a directory and no directory sits at
      its page path. */
  predicate PageWritable(cfg: Settings, dirs: set<Path>, files: map<Path, string>, id: string) {
    var e := EnsureAll(dirs, files, OutputDirs(cfg, Some(id)));
    e.ok && OutputDirFor(cfg, Some(id)) in e.dirs && PagePath(cfg, id) !in e.dirs
  }

  /** A page name is never the `assets` folder's name. */
  lemma NotAssets(id: string)
    ensures id + ".html" != "assets"
  {
    var s := id + ".html";
    assert s[|s| - 1] == 'l';
    assert "assets"[5] == 's';
  }

  /** Making the record's asset folder changes neither whether its folder is
      a directory nor whether one sits at its page path. */
  lemma AssetsFolderKeepsPage(cfg: Settings, id: string, dirs: set<Path>, files: map<Path, string>)
    requires id != "" && Present(dirs, files, OutputDirFor(cfg, Some(id)))
    ensures var e := Ensured(dirs, files, AssetsFor(cfg, Some(id)));
            var after := if e.None? then dirs else e.value;
            && (OutputDirFor(cfg, Some(id)) in after <==> OutputDirFor(cfg, Some(id)) in dirs)
            && (PagePath(cfg, id) in after <==> PagePath(cfg, id) in dirs)
  {
    var base, dst := OutputDirFor(cfg, Some(id)), AssetsFor(cfg, Some(id));
    if !Present(dirs, files, dst) && Makeable(files, dst) {
      assert dst[..|base|] == base;
      assert dst[..|base| + 1] == base + ["assets"];
      NotAssets(id);
      assert PagePath(cfg, id) != base + ["assets"] by {
        assert PagePath(cfg, id)[|base|] == id + ".html";
      }
    }
  }

  /** The record's folders can be made, and no directory sits at its page
      path: nothing in the tree stands in the way of its page. */
  predicate RecordReady(cfg: Settings, id: string, t: Tree) {
    && (forall i | 0 <= i < |OutputDirs(cfg, Some(id))| :: Makeable(t.files, OutputDirs(cfg, Some(id))[i]))
    && PagePath(cfg, id) !in t.dirs
  }

  /** Unless the screenshot sub-folder is named like the page, a record
      that is ready can have its page written. */
  lemma ReadyWritable(cfg: Settings, id: string, t: Tree)
    requires id != "" && RecordReady(cfg, id, t) && cfg.screenshotSubfolder != id + ".html"
    ensures PageWritable(cfg, t.dirs, t.files, id)
  {
    var ps := OutputDirs(cfg, Some(id));
    var e := EnsureAll(t.dirs, t.files, ps);
    var base, page := OutputDirFor(cfg, Some(id)), PagePath(cfg, id);
    var i0 := if cfg.useGigFolders then 1 else 0;
    assert ps[i0] == base;
    assert base[..|base|] == base;
    forall i | 0 <= i < |ps| ensures page !in Prefixes(ps[i]) {
      if cfg.useGigFolders {
        assert page[2] == id + ".html";
      } else {
        assert |page| == 2;
      }
    }
  }

  /** What a record's own run may add: directories in its area of the tree
      and, in the per-record layout, files below its folder; in the flat
      layout, only its page. */
  predicate DirInArea(cfg: Settings, id: string, q: Path) {
    q == Output || (cfg.useGigFolders && |q| >= 2 && q[..2] == Output + [id])
  }

  predicate FileInArea(cfg: Settings, id: string, p: Path) {
    if cfg.useGigFolders then |p| >= 3 && p[..2] == Output + [id] else p == PagePath(cfg, id)
  }

  /** The run for one record leaves every other record ready. */
  lemma OtherStaysReady(cfg: Settings, id: string, other: string, t: Tree, after: Tree)
    requires id != "" && other != "" && id != other && RecordReady(cfg, other, t)
    requires forall q | q in after.dirs && q !in t.dirs :: DirInArea(cfg, id, q)
    requires forall p | p in after.files && p !in t.files :: FileInArea(cfg, id, p)
    ensures RecordReady(cfg, other, after)
  {
    var ps := OutputDirs(cfg, Some(other));
    assert (Output + [id])[1] == id && (Output + [other])[1] == other;
    forall i, k | 0 <= i < |ps| && 1 <= k <= |ps[i]| ensures ps[i][..k] !in after.files {
      var q := ps[i][..k];
      assert Makeable(t.files, ps[i]);
      if cfg.useGigFolders {
        assert |q| >= 3 ==> q[1] == other;
      } else {
        assert |q| == 1 && |PagePath(cfg, id)| == 2;
      }
    }
    var page := PagePath(cfg, other);
    if cfg.useGigFolders {
      assert page[1] == other && |page| == 3;
    } else {
      assert |page| == 2;
    }
  }

  /** Making the output folder, and in the flat layout copying the assets
      into it, leaves a record ready. */
  lemma PrepKeepsReady(cfg: Settings, id: string, t: Tree, after: Tree)
    requires id != "" && RecordReady(cfg, id, t)
    requires forall q | q in after.dirs && q !in t.dirs ::
               q == Output || (!cfg.useGigFolders && |q| >= 2 && q[..2] == Output + ["assets"])
    requires forall p | p in after.files && p !in t.files :: !cfg.useGigFolders && |p| == 4
    ensures RecordReady(cfg, id, after)
  {
    var page := PagePath(cfg, id);
    NotAssets(id);
    if cfg.useGigFolders {
      assert |page| == 3;
    } else {
      assert page[1] == id + ".html" && |page| == 2;
    }
    var ps := OutputDirs(cfg, Some(id));
    assert forall i | 0 <= i < |ps| :: |ps[i]| <= 3;
  }
}
