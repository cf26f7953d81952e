/** `PlaywrightScreenshotGenerator`: regenerates the pages with the
    generator, then takes one screenshot per record folder with a headless
    Chromium. It owns the browser it launches and a cache of the decoded
    catalog; the screenshots it writes are kept in `shots`. */
module Playwright {
  import opened Wrappers
  import opened FileSystem
  import opened Catalog
  import opened Config
  import opened Layout
  import opened Capture
  import opened Generator
  import Validator

  // ---------------------------------------------------------------------
  // Paths and names

  /** Where `captureScreenshot` loads the page from. */
  function HtmlPath(cfg: Settings, gigId: string, htmlFile: string): Path {
    if cfg.useGigFolders then Output + [gigId, htmlFile] else Output + [htmlFile]
  }

  /** Where it writes the screenshot. */
  function ShotPath(cfg: Settings, gigId: string, outputFile: string): Path {
    if cfg.useGigFolders then Output + [gigId, cfg.screenshotSubfolder, outputFile] else Output + [outputFile]
  }

  /** The page the capture loads for a record is the page the generator
      writes for it, in both layouts. */
  lemma CapturesGeneratedPage(cfg: Settings, id: string)
    requires id != ""
    ensures HtmlPath(cfg, id, id + ".html") == PagePath(cfg, id)
  {
  }

  /** In per-record mode the screenshot goes into the record's screenshot
      sub-folder, which `ensureOutputDir(id)` creates. */
  lemma ShotInSubfolder(cfg: Settings, id: string, outputFile: string)
    requires cfg.useGigFolders && id != ""
    ensures Parent(ShotPath(cfg, id, outputFile)) == OutputDirFor(cfg, Some(id)) + [cfg.screenshotSubfolder]
  {
    assert ShotPath(cfg, id, outputFile) == (Output + [id, cfg.screenshotSubfolder]) + [outputFile];
  }

  /** A `.png` screenshot never lands on a generated page. */
  lemma ShotIsNotPage(cfg: Settings, gigId: string, name: string, pageId: string)
    requires pageId != ""
    ensures ShotPath(cfg, gigId, name + ".png") != PagePath(cfg, pageId)
  {
    var s, p := ShotPath(cfg, gigId, name + ".png"), PagePath(cfg, pageId);
    if !cfg.useGigFolders {
      assert s[1][|s[1]| - 1] == 'g';
      assert p[1][|p[1]| - 1] == 'l';
    } else {
      assert |s| == 4 && |p| == 3;
    }
  }

  /** Different records get different screenshots in per-record mode;
      different file names do in both modes. */
  lemma ShotPathsDistinct(cfg: Settings, a: string, fa: string, b: string, fb: string)
    requires (cfg.useGigFolders && a != b) || fa != fb
    ensures ShotPath(cfg, a, fa) != ShotPath(cfg, b, fb)
  {
    var sa, sb := ShotPath(cfg, a, fa), ShotPath(cfg, b, fb);
    if cfg.useGigFolders {
      assert sa[1] == a && sb[1] == b && sa[3] == fa && sb[3] == fb;
    } else {
      assert sa[1] == fa && sb[1] == fb;
    }
  }

  /** `getFilename(gigId)` over the decoded records: the `filename` of the
      first record with that id when it is truthy, the id otherwise. */
  function FilenameFor(ts: seq<Thumbnail>, gigId: string): string {
    match FindById(ts, gigId)
    case Some(k) => if Truthy(ts[k].filename) then ts[k].filename.value else gigId
    case None => gigId
  }

  /** Over records with distinct ids, each record's screenshot is named by
      its own `filename`, or by its id when that is falsy. */
  lemma FilenameOfRecord(ts: seq<Thumbnail>, k: nat)
    requires Identified(ts) && k < |ts|
    ensures FilenameFor(ts, ts[k].id.value)
            == if Truthy(ts[k].filename) then ts[k].filename.value else ts[k].id.value
  {
    assert forall j | 0 <= j < |ts| && j != k :: ts[j].id != ts[k].id;
  }

  /** An id no record has names its screenshot itself; the name is never
      empty for a non-empty id. */
  lemma FilenameFallback(ts: seq<Thumbnail>, gigId: string)
    ensures (forall j | 0 <= j < |ts| :: ts[j].id != Some(gigId)) ==> FilenameFor(ts, gigId) == gigId
    ensures gigId != "" ==> FilenameFor(ts, gigId) != ""
  {
  }

  /** `readdirSync(output).filter(isDirectory)`: the listed entries that are
      directories, in listing order. */
  function Subdirs(dirs: set<Path>, names: seq<string>): (r: seq<string>)
    ensures |r| <= |names|
    ensures forall n :: n in r <==> n in names && Output + [n] in dirs
    ensures (forall i, j | 0 <= i < j < |names| :: names[i] != names[j])
            ==> forall i, j | 0 <= i < j < |r| :: r[i] != r[j]
  {
    if names == [] then []
    else
      var rest := Subdirs(dirs, names[1..]);
      assert forall n :: n in names <==> n == names[0] || n in names[1..];
      if Output + [names[0]] in dirs then [names[0]] + rest else rest
  }

  /** How many of the first `n` folders have no page
      `output/<id>/<id>.html`: the ones the loop skips. */
  function Skipped(dirs: set<Path>, files: map<Path, string>, folders: seq<string>, n: nat): (r: nat)
    requires n <= |folders|
    ensures r <= n
  {
    if n == 0 then 0
    else
      var gigId := folders[n - 1];
      Skipped(dirs, files, folders, n - 1) + if Present(dirs, files, Output + [gigId, gigId + ".html"]) then 0 else 1
  }

  /** How many of the first `n` folders have their page and it loads: the
      ones the loop captures in per-record mode. */
  function Capturable(env: Env, dirs: set<Path>, files: map<Path, string>, folders: seq<string>, n: nat): (r: nat)
    requires n <= |folders|
    ensures r <= n
  {
    if n == 0 then 0
    else
      var gigId := folders[n - 1];
      var html := Output + [gigId, gigId + ".html"];
      Capturable(env, dirs, files, folders, n - 1) + if Present(dirs, files, html) && html !in env.navFails then 1 else 0
  }

  /** What the loop of `generateAll` has done so far: its counters, its
      error list and the screenshots on disk. */
  datatype Sweep = Sweep(successCount: nat, failCount: nat, skipped: nat,
                         errors: seq<(string, CaptureError)>, shots: map<Path, Shot>)

  /** The page `captureScreenshot` loads for a folder is there and loads. */
  predicate Loads(cfg: Settings, env: Env, dirs: set<Path>, files: map<Path, string>, gigId: string) {
    var html := HtmlPath(cfg, gigId, gigId + ".html");
    Present(dirs, files, html) && html !in env.navFails
  }

  /** The screenshot a folder's capture writes, named by `getFilename`. */
  function FolderShot(cfg: Settings, ts: seq<Thumbnail>, gigId: string): Path {
    ShotPath(cfg, gigId, FilenameFor(ts, gigId) + ".png")
  }

  /** The loop of `generateAll` over the first `n` folders with the browser
      open, from the screenshots `shots0`: a folder without
      `output/<id>/<id>.html` is skipped; any other is captured into its
      screenshot, or counted as failed with the error `captureScreenshot`
      raises. */
  function FolderRun(cfg: Settings, env: Env, dirs: set<Path>, files: map<Path, string>, ts: seq<Thumbnail>,
                     shots0: map<Path, Shot>, folders: seq<string>, n: nat): Sweep
    requires n <= |folders|
  {
    if n == 0 then Sweep(0, 0, 0, [], shots0)
    else
      var prev := FolderRun(cfg, env, dirs, files, ts, shots0, folders, n - 1);
      var gigId := folders[n - 1];
      var html := HtmlPath(cfg, gigId, gigId + ".html");
      if !Present(dirs, files, Output + [gigId, gigId + ".html"]) then prev.(skipped := prev.skipped + 1)
      else if Loads(cfg, env, dirs, files, gigId) then
        prev.(successCount := prev.successCount + 1,
              shots := prev.shots[FolderShot(cfg, ts, gigId) := ShotOf(env, html)])
      else
        var e := if Present(dirs, files, html) then NavFailed(html) else HtmlMissing(html);
        prev.(failCount := prev.failCount + 1, errors := prev.errors + [(gigId, e)])
  }

  /** The loop's counters add up to the folders seen: the skipped ones are
      the folders without their page, the failures are the errors listed,
      and in per-record mode the successes are the folders whose page loads. */
  lemma {:induction false} FolderRunCounts(cfg: Settings, env: Env, dirs: set<Path>, files: map<Path, string>,
                                           ts: seq<Thumbnail>, shots0: map<Path, Shot>, folders: seq<string>, n: nat)
    requires n <= |folders|
    ensures var w := FolderRun(cfg, env, dirs, files, ts, shots0, folders, n);
            && w.successCount + w.failCount + w.skipped == n
            && w.skipped == Skipped(dirs, files, folders, n)
            && |w.errors| == w.failCount
            && (cfg.useGigFolders ==> w.successCount == Capturable(env, dirs, files, folders, n))
  {
    if n > 0 {
      FolderRunCounts(cfg, env, dirs, files, ts, shots0, folders, n - 1);
    }
  }

  /** Every error names a folder that has its page but whose capture
      failed, with the reason: the page is missing at `htmlPath` or `goto`
      raised. */
  lemma {:induction false} FolderRunErrors(cfg: Settings, env: Env, dirs: set<Path>, files: map<Path, string>,
                                           ts: seq<Thumbnail>, shots0: map<Path, Shot>, folders: seq<string>, n: nat)
    requires n <= |folders|
    ensures forall j | 0 <= j < |FolderRun(cfg, env, dirs, files, ts, shots0, folders, n).errors| ::
              FailedFolder(cfg, env, dirs, files, folders, n, FolderRun(cfg, env, dirs, files, ts, shots0, folders, n).errors[j])
  {
    if n > 0 {
      FolderRunErrors(cfg, env, dirs, files, ts, shots0, folders, n - 1);
      var prev := FolderRun(cfg, env, dirs, files, ts, shots0, folders, n - 1);
      forall j | 0 <= j < |prev.errors| ensures FailedFolder(cfg, env, dirs, files, folders, n, prev.errors[j]) {
        assert FailedFolder(cfg, env, dirs, files, folders, n - 1, prev.errors[j]);
      }
    }
  }

  /** `entry` is the error of one of the first `n` folders: it has its page
      `output/<id>/<id>.html`, and `captureScreenshot` raised because the page
      it loads is missing or `goto` failed. */
  predicate FailedFolder(cfg: Settings, env: Env, dirs: set<Path>, files: map<Path, string>, folders: seq<string>, n: nat,
                         entry: (string, CaptureError))
    requires n <= |folders|
  {
    var (gigId, e) := entry;
    var html := HtmlPath(cfg, gigId, gigId + ".html");
    && (exists k | 0 <= k < n :: folders[k] == gigId)
    && Present(dirs, files, Output + [gigId, gigId + ".html"]) && !Loads(cfg, env, dirs, files, gigId)
    && e == if Present(dirs, files, html) then NavFailed(html) else HtmlMissing(html)
  }

  /** In per-record mode, over distinct folders, each folder seen has its
      screenshot exactly when its page is there and loads (or one was there
      before), showing that page. */
  lemma {:induction false} FolderRunShot(cfg: Settings, env: Env, dirs: set<Path>, files: map<Path, string>,
                                         ts: seq<Thumbnail>, shots0: map<Path, Shot>, folders: seq<string>, n: nat, k: nat)
    requires cfg.useGigFolders && k < n <= |folders|
    requires forall i, j | 0 <= i < j < |folders| :: folders[i] != folders[j]
    ensures var w := FolderRun(cfg, env, dirs, files, ts, shots0, folders, n);
            var g := folders[k];
            var p := FolderShot(cfg, ts, g);
            && (p in w.shots <==> Loads(cfg, env, dirs, files, g) || p in shots0)
            && (Loads(cfg, env, dirs, files, g) ==> w.shots[p] == ShotOf(env, HtmlPath(cfg, g, g + ".html")))
  {
    var g := folders[k];
    var p := FolderShot(cfg, ts, g);
    if k < n - 1 {
      FolderRunShot(cfg, env, dirs, files, ts, shots0, folders, n - 1, k);
      FolderShotsApart(cfg, ts, g, folders[n - 1]);
      FolderStepOther(cfg, env, dirs, files, ts, shots0, folders, n, p);
    } else {
      EarlierShotsApart(cfg, ts, folders, k);
      FolderRunOnly(cfg, env, dirs, files, ts, shots0, folders, n - 1, p);
      FolderStepSelf(cfg, env, dirs, files, ts, shots0, folders, n);
    }
  }

  /** Different folders get different screenshot paths. */
  lemma FolderShotsApart(cfg: Settings, ts: seq<Thumbnail>, a: string, b: string)
    requires cfg.useGigFolders && a != b
    ensures FolderShot(cfg, ts, a) != FolderShot(cfg, ts, b)
  {
    ShotPathsDistinct(cfg, a, FilenameFor(ts, a) + ".png", b, FilenameFor(ts, b) + ".png");
  }

  /** No folder before the `k`-th has its screenshot path. */
  lemma EarlierShotsApart(cfg: Settings, ts: seq<Thumbnail>, folders: seq<string>, k: nat)
    requires cfg.useGigFolders && k < |folders|
    requires forall i, j | 0 <= i < j < |folders| :: folders[i] != folders[j]
    ensures forall j | 0 <= j < k :: FolderShot(cfg, ts, folders[k]) != FolderShot(cfg, ts, folders[j])
  {
    forall j | 0 <= j < k ensures FolderShot(cfg, ts, folders[k]) != FolderShot(cfg, ts, folders[j]) {
      FolderShotsApart(cfg, ts, folders[k], folders[j]);
    }
  }

  /** One more folder leaves every path but its own screenshot as it was. */
  lemma FolderStepOther(cfg: Settings, env: Env, dirs: set<Path>, files: map<Path, string>,
                        ts: seq<Thumbnail>, shots0: map<Path, Shot>, folders: seq<string>, n: nat, p: Path)
    requires 0 < n <= |folders| && p != FolderShot(cfg, ts, folders[n - 1])
    ensures var w := FolderRun(cfg, env, dirs, files, ts, shots0, folders, n);
            var prev := FolderRun(cfg, env, dirs, files, ts, shots0, folders, n - 1);
            (p in w.shots <==> p in prev.shots) && (p in prev.shots ==> w.shots[p] == prev.shots[p])
  {
  }

  /** One more folder writes its own screenshot exactly when its page loads. */
  lemma FolderStepSelf(cfg: Settings, env: Env, dirs: set<Path>, files: map<Path, string>,
                       ts: seq<Thumbnail>, shots0: map<Path, Shot>, folders: seq<string>, n: nat)
    requires cfg.useGigFolders && 0 < n <= |folders|
    ensures var g := folders[n - 1];
            var p := FolderShot(cfg, ts, g);
            var w := FolderRun(cfg, env, dirs, files, ts, shots0, folders, n);
            var prev := FolderRun(cfg, env, dirs, files, ts, shots0, folders, n - 1);
            && (p in w.shots <==> Loads(cfg, env, dirs, files, g) || p in prev.shots)
            && (Loads(cfg, env, dirs, files, g) ==> w.shots[p] == ShotOf(env, HtmlPath(cfg, g, g + ".html")))
  {
  }

  /** The loop only adds screenshots: those there before stay. */
  lemma {:induction false} FolderRunKeeps(cfg: Settings, env: Env, dirs: set<Path>, files: map<Path, string>,
                                          ts: seq<Thumbnail>, shots0: map<Path, Shot>, folders: seq<string>, n: nat)
    requires n <= |folders|
    ensures shots0.Keys <= FolderRun(cfg, env, dirs, files, ts, shots0, folders, n).shots.Keys
  {
    if n > 0 {
      FolderRunKeeps(cfg, env, dirs, files, ts, shots0, folders, n - 1);
    }
  }

  /** Nothing but the screenshot of a folder whose page loads is written:
      any other path keeps what it had. */
  lemma {:induction false} FolderRunOnly(cfg: Settings, env: Env, dirs: set<Path>, files: map<Path, string>,
                                         ts: seq<Thumbnail>, shots0: map<Path, Shot>, folders: seq<string>, n: nat, p: Path)
    requires n <= |folders|
    ensures var w := FolderRun(cfg, env, dirs, files, ts, shots0, folders, n);
            (forall j | 0 <= j < n && Loads(cfg, env, dirs, files, folders[j]) :: p != FolderShot(cfg, ts, folders[j]))
            ==> (p in w.shots <==> p in shots0) && (p in shots0 ==> w.shots[p] == shots0[p])
    ensures var w := FolderRun(cfg, env, dirs, files, ts, shots0, folders, n);
            p in w.shots && p !in shots0
            ==> exists j | 0 <= j < n :: Loads(cfg, env, dirs, files, folders[j]) && p == FolderShot(cfg, ts, folders[j])
  {
    if n > 0 {
      FolderRunOnly(cfg, env, dirs, files, ts, shots0, folders, n - 1, p);
    }
  }

  /** How a `generateAll` run ends: the generator returned false, per-record
      mode found no folder, something outside the per-folder `try` raised, or
      the loop went through every folder. */
  datatype Run =
    | NotGenerated
    | NoFolders
    | Fatal
    | Completed(folders: seq<string>, successCount: nat, failCount: nat, skipped: nat,
                errors: seq<(string, CaptureError)>)

  // ---------------------------------------------------------------------
  // The backend

  class PlaywrightScreenshots {
    const cfg: Settings
    const env: Env
    const gen: ThumbnailGenerator
    var browser: Browser?
    var thumbnailData: Option<Document>
    var catalogReads: nat
    var shots: map<Path, Shot>

    /** The backend shares the generator's configuration; the cache holds
        the decoded catalog once a read got through, and that was the only
        read of a catalog that parses. */
    predicate Valid()
      reads this
    {
      && cfg == gen.cfg
      && (thumbnailData.Some? ==> && gen.inputs.catalog.Parsed?
                                  && thumbnailData.value == gen.inputs.catalog.doc
                                  && catalogReads == 1)
      && (thumbnailData.None? && gen.inputs.catalog.Parsed? ==> catalogReads == 0)
    }

    constructor (env0: Env, gen0: ThumbnailGenerator)
      ensures Valid()
      ensures env == env0 && gen == gen0 && browser == null
      ensures thumbnailData.None? && catalogReads == 0 && shots == map[]
    {
      cfg := gen0.cfg;
      env := env0;
      gen := gen0;
      browser := null;
      thumbnailData := None;
      catalogReads := 0;
      shots := map[];
    }

    /** `loadThumbnailData`: reads and decodes the catalog unless it is
        cached; `None` when `readFileSync` or `JSON.parse` raises, which
        leaves the cache empty. */
    method LoadThumbnailData() returns (r: Option<Document>)
      requires Valid()
      modifies this`thumbnailData, this`catalogReads
      ensures Valid()
      ensures r == if gen.inputs.catalog.Parsed? then Some(gen.inputs.catalog.doc) else None
      ensures catalogReads == if old(thumbnailData).Some? then old(catalogReads) else old(catalogReads) + 1
      ensures gen.inputs.catalog.Parsed? ==> catalogReads <= 1
    {
      if thumbnailData.None? {
        catalogReads := catalogReads + 1;
        if gen.inputs.catalog.Parsed? {
          thumbnailData := Some(gen.inputs.catalog.doc);
        }
      }
      r := thumbnailData;
    }

    /** `getFilename(gigId)`; `None` when the read raises or `thumbnails`
        is not an array, so that `find` raises. */
    method GetFilename(gigId: string) returns (r: Option<string>)
      requires Valid()
      modifies this`thumbnailData, this`catalogReads
      ensures Valid()
      ensures r.Some? <==> LoadData(gen.inputs.catalog).Success?
      ensures r.Some? ==> r.value == FilenameFor(Records(gen.inputs), gigId)
      ensures catalogReads <= old(catalogReads) + 1
      ensures gen.inputs.catalog.Parsed? ==> catalogReads <= 1
    {
      var data := LoadThumbnailData();
      if data.None? || data.value.thumbnails.None? {
        return None;
      }
      return Some(FilenameFor(data.value.thumbnails.value, gigId));
    }

    /** `initialize`: launches a new browser; `false` when the launch
        raises, which leaves `this.browser` as it was. */
    method Initialize() returns (ok: bool)
      modifies this`browser
      ensures ok == !env.launchFails
      ensures ok ==> fresh(browser) && browser.open && browser.pages == 0
      ensures !ok ==> browser == old(browser)
    {
      if env.launchFails {
        return false;
      }
      browser := new Browser();
      return true;
    }

    /** `close`: closes the browser, if one was ever acquired. */
    method Close()
      modifies browser
      ensures browser != null ==> !browser.open && browser.pages == 0
    {
      if browser != null {
        browser.Close();
      }
    }

    /** `captureScreenshot`: opens a page, loads the record's HTML and takes
        the element or, failing that, the viewport; the page is closed in a
        `finally`, so every page it opens is closed whatever happens. */
    method CaptureScreenshot(gigId: string, htmlFile: string, outputFile: string) returns (r: Result<Path, CaptureError>)
      modifies browser, this`shots
      ensures browser != null ==> browser.open == old(browser.open) && browser.pages == old(browser.pages)
      ensures var html := HtmlPath(cfg, gigId, htmlFile);
              && (r.Success? <==> browser != null && old(browser.open) && gen.fs.Exists(html) && html !in env.navFails)
              && (r.Success? ==> r.value == ShotPath(cfg, gigId, outputFile)
                                 && shots == old(shots)[r.value := ShotOf(env, html)])
              && (r.Failure? ==> shots == old(shots))
              && (r.Success? ==> (shots[r.value].Element? <==> html in env.regionPages))
              && (browser != null && old(browser.open) && !gen.fs.Exists(html) ==> r == Failure(HtmlMissing(html)))
              && (browser != null && old(browser.open) && gen.fs.Exists(html) && html in env.navFails
                  ==> r == Failure(NavFailed(html)))
    {
      if browser == null {
        return Failure(NoBrowser);
      }
      var paged := browser.NewPage();
      if !paged {
        return Failure(NoBrowser);
      }
      var html := HtmlPath(cfg, gigId, htmlFile);
      if !gen.fs.Exists(html) {
        browser.ClosePage();
        return Failure(HtmlMissing(html));
      }
      if html in env.navFails {
        browser.ClosePage();
        return Failure(NavFailed(html));
      }
      var shot := ShotPath(cfg, gigId, outputFile);
      shots := shots[shot := ShotOf(env, html)];
      browser.ClosePage();
      return Success(shot);
    }

    /** `readdirSync(output).filter(isDirectory)` in per-record mode, and no
        folder in flat mode; `None` when `readdirSync` raises. */
    method ListFolders() returns (r: Option<seq<string>>)
      ensures !cfg.useGigFolders ==> r == Some([])
      ensures r.None? <==> cfg.useGigFolders && !gen.fs.IsDir(Output)
      ensures r.Some? ==> forall n :: n in r.value <==> cfg.useGigFolders && Output + [n] in gen.fs.dirs
      ensures r.Some? ==> forall i, j | 0 <= i < j < |r.value| :: r.value[i] != r.value[j]
    {
      if !cfg.useGigFolders {
        return Some([]);
      }
      var entries := gen.fs.ListDir(Output);
      if entries.None? {
        return None;
      }
      r := Some(Subdirs(gen.fs.dirs, entries.value));
    }

    /** The `for...of` loop of `generateAll` with the browser `b` open:
        skips a folder without its page, captures the others and counts;
        `None` when `getFilename` raises, before any screenshot is taken. */
    method CaptureFolders(folders: seq<string>, b: Browser)
      returns (r: Option<(nat, nat, nat, seq<(string, CaptureError)>)>)
      requires Valid() && browser == b && b.open && b.pages == 0
      modifies this`thumbnailData, this`catalogReads, this`shots, b
      ensures Valid() && b.open && b.pages == 0
      ensures r.Some? <==> LoadData(gen.inputs.catalog).Success? || Skipped(gen.fs.dirs, gen.fs.files, folders, |folders|) == |folders|
      ensures r.Some? ==>
                var w := FolderRun(cfg, env, gen.fs.dirs, gen.fs.files, Records(gen.inputs), old(shots), folders, |folders|);
                r.value == (w.successCount, w.failCount, w.skipped, w.errors) && shots == w.shots
      ensures r.None? ==> shots == old(shots)
    {
      var successCount, failCount, skipped: nat, errors := 0, 0, 0, [];
      for i := 0 to |folders|
        invariant Valid() && b.open && b.pages == 0
        invariant var w := FolderRun(cfg, env, gen.fs.dirs, gen.fs.files, Records(gen.inputs), old(shots), folders, i);
                  && w.successCount == successCount && w.failCount == failCount && w.skipped == skipped
                  && w.errors == errors && w.shots == shots
        invariant LoadData(gen.inputs.catalog).Failure? ==> skipped == i && shots == old(shots)
      {
        var gigId := folders[i];
        var htmlFile := gigId + ".html";
        if !gen.fs.Exists(Output + [gigId, htmlFile]) {
          skipped := skipped + 1;
        } else {
          var name := GetFilename(gigId);
          if name.None? {
            SkippedBound(gen.fs.dirs, gen.fs.files, folders, |folders|, i);
            return None;
          }
          var c := CaptureScreenshot(gigId, htmlFile, name.value + ".png");
          if c.Success? {
            successCount := successCount + 1;
          } else {
            failCount := failCount + 1;
            errors := errors + [(gigId, c.error)];
          }
        }
      }
      FolderRunCounts(cfg, env, gen.fs.dirs, gen.fs.files, Records(gen.inputs), old(shots), folders, |folders|);
      return Some((successCount, failCount, skipped, errors));
    }

    /** `generateAll`: `true` when at least one screenshot was taken. */
    method GenerateAll() returns (ok: bool, run: Run)
      requires Valid()
      modifies this, gen.fs, browser
      ensures Valid()
      ensures run.NotGenerated? <==> !Regenerates(gen, old(gen.fs.dirs), old(gen.fs.files))
      ensures gen.Reached(old(gen.fs.dirs), old(gen.fs.files))
              ==> Tree(gen.fs.dirs, gen.fs.files) == GenerateAllRun(gen.cfg, gen.fs.uncopyable, gen.inputs, Tree(old(gen.fs.dirs), old(gen.fs.files))).tree
      ensures !gen.Reached(old(gen.fs.dirs), old(gen.fs.files)) ==> gen.fs.dirs == old(gen.fs.dirs) && gen.fs.files == old(gen.fs.files)
      ensures run.NotGenerated? ==> !ok && shots == old(shots) && browser == old(browser) && (browser != null ==> unchanged(browser))
      ensures CapturedAs(ok, run, old(browser), old(shots))
      ensures run.NoFolders? ==> browser != null ==> unchanged(browser)
      ensures run.Completed? ==> fresh(browser)
    {
      var generated := Regenerate();
      if !generated {
        return false, NotGenerated;
      }
      ok, run := CaptureRun();
    }

    /** How the capture part of a `generateAll` run ends, from the browser
        `b0` and the screenshots `shots0` it started with. */
    ghost predicate CapturedAs(ok: bool, run: Run, b0: Browser?, shots0: map<Path, Shot>)
      reads this, browser, gen, gen.fs
    {
      && ok == (run.Completed? && run.successCount > 0)
      && (run.NoFolders? ==> cfg.useGigFolders && browser == b0)
      && (!cfg.useGigFolders ==> !ok)
      && (run.Fatal? ==> browser == null || !browser.open)
      && (!run.NotGenerated? ==>
            (run.Fatal? <==> (cfg.useGigFolders && !gen.fs.IsDir(Output)) || (!run.NoFolders? && env.launchFails)))
      && (!run.Completed? ==> shots == shots0)
      && (run.Completed? ==>
            var w := FolderRun(cfg, env, gen.fs.dirs, gen.fs.files, Records(gen.inputs), shots0, run.folders, |run.folders|);
            && browser != null && !browser.open && browser.pages == 0
            && (forall n :: n in run.folders <==> cfg.useGigFolders && Output + [n] in gen.fs.dirs)
            && (forall i, j | 0 <= i < j < |run.folders| :: run.folders[i] != run.folders[j])
            && run == Completed(run.folders, w.successCount, w.failCount, w.skipped, w.errors)
            && shots == w.shots
            && run.successCount + run.failCount + run.skipped == |run.folders|
            && run.skipped == Skipped(gen.fs.dirs, gen.fs.files, run.folders, |run.folders|)
            && run.successCount == Capturable(env, gen.fs.dirs, gen.fs.files, run.folders, |run.folders|)
            && |run.errors| == run.failCount)
    }

    /** The rest of `generateAll` once the pages were regenerated: lists the
        record folders, launches the browser, captures every folder and
        closes the browser. */
    method CaptureRun() returns (ok: bool, run: Run)
      requires Valid() && LoadData(gen.inputs.catalog).Success?
      modifies this`browser, this`thumbnailData, this`catalogReads, this`shots, browser
      ensures Valid() && !run.NotGenerated?
      ensures CapturedAs(ok, run, old(browser), old(shots))
      ensures run.NoFolders? ==> browser != null ==> unchanged(browser)
      ensures run.Completed? ==> fresh(browser)
    {
      var folders := ListFolders();
      if folders.None? {
        Close();
        return false, Fatal;
      }
      if |folders.value| == 0 && cfg.useGigFolders {
        return false, NoFolders;
      }
      var launched := Initialize();
      if !launched {
        Close();
        return false, Fatal;
      }
      var counts := CaptureFolders(folders.value, browser);
      assert counts.Some?;
      Close();
      FolderRunCounts(cfg, env, gen.fs.dirs, gen.fs.files, Records(gen.inputs), old(shots), folders.value, |folders.value|);
      var (successCount, failCount, skipped, errors) := counts.value;
      ok := successCount > 0;
      run := Completed(folders.value, successCount, failCount, skipped, errors);
    }

    /** `generateSingle(thumbnailId)`: `true` when the page was regenerated
        and its screenshot taken. A browser it launches is closed on every
        path. */
    method GenerateSingle(thumbnailId: string) returns (ok: bool)
      requires Valid()
      modifies this, gen.fs, browser
      ensures Valid()
      ensures Tree(gen.fs.dirs, gen.fs.files)
              == SingleRun(cfg, gen.fs.uncopyable, gen.inputs, thumbnailId, Tree(old(gen.fs.dirs), old(gen.fs.files))).tree
      ensures ok == (&& SingleWrites(cfg, gen.inputs, old(gen.fs.dirs), old(gen.fs.files), thumbnailId)
                     && !env.launchFails && PagePath(cfg, thumbnailId) !in env.navFails)
      ensures ok ==> shots == old(shots)[ShotPath(cfg, thumbnailId, FilenameFor(Records(gen.inputs), thumbnailId) + ".png")
                                        := ShotOf(env, PagePath(cfg, thumbnailId))]
      ensures !ok ==> shots == old(shots)
      ensures !Validator.Passes(gen.inputs) ==> !ok && browser == old(browser) && (browser != null ==> unchanged(browser))
      ensures browser != old(browser) ==> fresh(browser) && !browser.open && browser.pages == 0
      ensures ok ==> && browser != old(browser)
                     && FindById(Records(gen.inputs), thumbnailId).Some?
                     && Written(cfg, gen.inputs, gen.fs.files, FindById(Records(gen.inputs), thumbnailId).value)
    {
      var g := RegenerateOne(thumbnailId);
      if g.Failure? {
        Close();
        return false;
      }
      if !g.value {
        return false;
      }
      Validator.PassedIdsIdentify(gen.inputs);
      CapturesGeneratedPage(cfg, thumbnailId);
      ok := CaptureOne(thumbnailId);
    }

    /** The part of `generateSingle` after the page was regenerated: checks
        the page is there, launches, captures, and closes in a `finally`. */
    method CaptureOne(thumbnailId: string) returns (ok: bool)
      requires Valid() && LoadData(gen.inputs.catalog).Success?
      modifies this`browser, this`thumbnailData, this`catalogReads, this`shots, browser
      ensures Valid()
      ensures var html := HtmlPath(cfg, thumbnailId, thumbnailId + ".html");
              ok == (gen.fs.Exists(html) && !env.launchFails && html !in env.navFails)
      ensures ok ==> shots == old(shots)[ShotPath(cfg, thumbnailId, FilenameFor(Records(gen.inputs), thumbnailId) + ".png")
                                        := ShotOf(env, HtmlPath(cfg, thumbnailId, thumbnailId + ".html"))]
      ensures !ok ==> shots == old(shots)
      ensures !gen.fs.Exists(HtmlPath(cfg, thumbnailId, thumbnailId + ".html"))
              ==> browser == old(browser) && (browser != null ==> unchanged(browser))
      ensures browser != old(browser) ==> fresh(browser) && !browser.open && browser.pages == 0
      ensures ok ==> browser != old(browser)
    {
      var htmlFile := thumbnailId + ".html";
      if !gen.fs.Exists(HtmlPath(cfg, thumbnailId, htmlFile)) {
        return false;
      }
      var launched := Initialize();
      if !launched {
        Close();
        return false;
      }
      // `getFilename` cannot raise here: the catalog passed validation.
      var name := GetFilename(thumbnailId);
      var r := CaptureScreenshot(thumbnailId, htmlFile, name.value + ".png");
      Close();
      return r.Success?;
    }

    /** `this.thumbnailGenerator.generateAll()`: `true` when the run got
        past validation and `ensureOutputDir()` and wrote at least one page. */
    method Regenerate() returns (generated: bool)
      modifies gen.fs
      ensures generated == Regenerates(gen, old(gen.fs.dirs), old(gen.fs.files))
      ensures gen.Reached(old(gen.fs.dirs), old(gen.fs.files))
              ==> Tree(gen.fs.dirs, gen.fs.files) == GenerateAllRun(gen.cfg, gen.fs.uncopyable, gen.inputs, Tree(old(gen.fs.dirs), old(gen.fs.files))).tree
      ensures !gen.Reached(old(gen.fs.dirs), old(gen.fs.files)) ==> gen.fs.dirs == old(gen.fs.dirs) && gen.fs.files == old(gen.fs.files)
      ensures generated ==> LoadData(gen.inputs.catalog).Success?
      ensures Clear(gen.cfg, gen.inputs, old(gen.fs.dirs), old(gen.fs.files)) && |Records(gen.inputs)| > 0 ==> generated
    {
      var ok, _, _, _, _ := gen.GenerateAll();
      generated := ok;
      if generated {
        ValidatedInputsLoad(gen.inputs);
      }
    }

    /** `this.thumbnailGenerator.generateSingle(id)`. */
    method RegenerateOne(id: string) returns (r: Result<bool, Reason>)
      modifies gen.fs
      ensures var s := SingleRun(gen.cfg, gen.fs.uncopyable, gen.inputs, id, Tree(old(gen.fs.dirs), old(gen.fs.files)));
              r == s.r && Tree(gen.fs.dirs, gen.fs.files) == s.tree
      ensures r == Success(true) <==> SingleWrites(gen.cfg, gen.inputs, old(gen.fs.dirs), old(gen.fs.files), id)
      ensures r == Success(true) ==> && LoadData(gen.inputs.catalog).Success?
                                     && FindById(Records(gen.inputs), id).Some?
                                     && Written(gen.cfg, gen.inputs, gen.fs.files, FindById(Records(gen.inputs), id).value)
      ensures !Validator.Passes(gen.inputs) ==> r == Success(false) && gen.fs.dirs == old(gen.fs.dirs) && gen.fs.files == old(gen.fs.files)
    {
      r := gen.GenerateSingle(id);
      if r == Success(true) {
        ValidatedInputsLoad(gen.inputs);
      }
    }
  }

  /** The generator's `generateAll` from this tree returns `true`: it gets
      past validation and `ensureOutputDir()` and writes at least one page. */
  ghost predicate Regenerates(gen: ThumbnailGenerator, dirs: set<Path>, files: map<Path, string>)
    reads gen, gen.fs
  {
    gen.Reached(dirs, files) && |Succeeded(GenerateAllRun(gen.cfg, gen.fs.uncopyable, gen.inputs, Tree(dirs, files)).outcomes)| > 0
  }

  /** A folder that has its page is not skipped, so fewer than all folders
      are. */
  lemma {:induction false} SkippedBound(dirs: set<Path>, files: map<Path, string>, folders: seq<string>, n: nat, i: nat)
    requires i < n <= |folders| && Present(dirs, files, Output + [folders[i], folders[i] + ".html"])
    ensures Skipped(dirs, files, folders, n) < n
    decreases n
  {
    if i < n - 1 {
      SkippedBound(dirs, files, folders, n - 1, i);
    }
  }
}
