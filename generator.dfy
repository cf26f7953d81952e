/** `ThumbnailGenerator`: loads the catalog and the template, validates
    them, and writes one HTML page per record into the output tree,
    copying the image assets alongside. The filesystem is the only state it
    changes; the catalog and template are read-only inputs. */
module Generator {
  import opened Wrappers
  import opened FileSystem
  import opened Catalog
  import opened Config
  import opened Layout
  import opened Expander
  import Strings
  import Validator

  // ---------------------------------------------------------------------
  // Loading

  /** Why `loadData` or `loadTemplate` raises. */
  datatype LoadError = DataFileMissing | DataFileUnparseable | ThumbnailsMissing | TemplateMissing

  /** `loadData`: the decoded catalog, provided it exists, parses and has a
      `thumbnails` array. */
  function LoadData(file: CatalogFile): (r: Result<Document, LoadError>)
    ensures r.Success? <==> file.Parsed? && file.doc.thumbnails.Some?
    ensures r.Success? ==> r.value == file.doc
    ensures file.NotFound? ==> r == Failure(DataFileMissing)
  {
    match file
    case NotFound => Failure(DataFileMissing)
    case Unparseable => Failure(DataFileUnparseable)
    case Parsed(doc) => if doc.thumbnails.None? then Failure(ThumbnailsMissing) else Success(doc)
  }

  /** `loadTemplate`: the template text, provided the file exists. */
  function LoadTemplate(template: Option<string>): (r: Result<string, LoadError>)
    ensures r.Success? <==> template.Some?
    ensures r.Success? ==> r.value == template.value
  {
    if template.None? then Failure(TemplateMissing) else Success(template.value)
  }

  /** Inputs that pass validation always load: the checks of the loaders
      are among the validator's errors. */
  lemma ValidatedInputsLoad(inputs: Inputs)
    requires Validator.Passes(inputs)
    ensures LoadData(inputs.catalog).Success? && LoadTemplate(inputs.template).Success?
    ensures LoadData(inputs.catalog).value.thumbnails.Some?
  {
    Validator.PassesIff(inputs);
  }

  // ---------------------------------------------------------------------
  // Results

  /** Why one record is not generated. */
  datatype Reason =
    | MissingId                     // "Thumbnail missing required field: id"
    | ExpandFailed(e: ExpandError)  // a `TypeError` inside `replacePlaceholders`
    | DirFailed                     // `mkdirSync` raised
    | WriteFailed                   // `writeFileSync` raised
    | LoadFailed(l: LoadError)      // `loadData` or `loadTemplate` raised

  /** One entry of the `errors` array of `generateAll`. */
  datatype Failed = Failed(id: Option<string>, reason: Reason)

  /** One record as `--list` prints it. */
  function SummaryLines(t: Thumbnail): (r: Option<seq<string>>)
    ensures r.Some? <==> t.title.Some? && t.badge.Some?
    ensures r.Some? ==> |r.value| == 4 && r.value[0] == "   ID: " + JsStr(t.id)
  {
    if t.title.None? || t.badge.None? then None
    else
      var theme := if t.theme.Some? && Truthy(t.theme.value.primaryColor) then t.theme.value.primaryColor.value else "default";
      Some([
        "   ID: " + JsStr(t.id),
        "   Title: " + JsStr(t.title.value.line1) + " " + JsStr(t.title.value.line2) + " " + JsStr(t.title.value.line3),
        "   Badge: " + JsStr(t.badge.value.text),
        "   Theme: " + theme + "\n"])
  }

  /** What `listThumbnails` prints, and whether it ended by raising. A
      record without a title prints its id line and then raises; one
      without a badge prints two lines first. */
  datatype Listing = Listing(lines: seq<string>, raised: bool)

  function ListRecords(ts: seq<Thumbnail>): (r: Listing)
  {
    if ts == [] then Listing([], false)
    else
      var t := ts[0];
      match SummaryLines(t)
      case None =>
        var partial := if t.title.None? then ["   ID: " + JsStr(t.id)]
                       else ["   ID: " + JsStr(t.id),
                             "   Title: " + JsStr(t.title.value.line1) + " " + JsStr(t.title.value.line2) + " " + JsStr(t.title.value.line3)];
        Listing(partial, true)
      case Some(lines) =>
        var rest := ListRecords(ts[1..]);
        Listing(lines + rest.lines, rest.raised)
  }

  /** `listThumbnails`: nothing is printed when the catalog does not load. */
  function ListThumbnails(file: CatalogFile): Listing {
    match LoadData(file)
    case Failure(_) => Listing([], true)
    case Success(doc) => ListRecords(doc.thumbnails.value)
  }

  /** A catalog lists without raising exactly when every record carries a
      title and a badge. */
  lemma {:induction false} ListRecordsRaises(ts: seq<Thumbnail>)
    ensures !ListRecords(ts).raised <==> forall i | 0 <= i < |ts| :: ts[i].title.Some? && ts[i].badge.Some?
  {
    if ts != [] {
      ListRecordsRaises(ts[1..]);
      if !ListRecords(ts).raised {
        forall i | 1 <= i < |ts| ensures ts[i].title.Some? && ts[i].badge.Some? {
          assert ts[i] == ts[1..][i - 1];
        }
      }
      if forall i | 0 <= i < |ts| :: ts[i].title.Some? && ts[i].badge.Some? {
        assert forall i | 0 <= i < |ts| - 1 :: ts[1..][i] == ts[i + 1];
      }
    }
  }

  /** A listing that does not raise has four lines per record, each block
      starting with the record's id. */
  lemma {:induction false} ListRecordsComplete(ts: seq<Thumbnail>)
    ensures !ListRecords(ts).raised ==>
              |ListRecords(ts).lines| == 4 * |ts|
              && forall i | 0 <= i < |ts| :: ListRecords(ts).lines[4 * i] == "   ID: " + JsStr(ts[i].id)
  {
    if ts != [] {
      ListRecordsComplete(ts[1..]);
      var rest := ListRecords(ts[1..]);
      if SummaryLines(ts[0]).Some? && !rest.raised {
        var lines := ListRecords(ts).lines;
        forall i | 0 <= i < |ts| ensures lines[4 * i] == "   ID: " + JsStr(ts[i].id) {
          if i > 0 {
            assert lines[4 * i] == rest.lines[4 * (i - 1)];
            assert ts[i] == ts[1..][i - 1];
          }
        }
      }
    }
  }

  /** The theme line shows the record's primary colour when it has a truthy
      one, and `default` otherwise. */
  lemma SummaryTheme(t: Thumbnail)
    requires SummaryLines(t).Some?
    ensures t.theme.Some? && Truthy(t.theme.value.primaryColor)
            ==> SummaryLines(t).value[3] == "   Theme: " + t.theme.value.primaryColor.value + "\n"
    ensures !(t.theme.Some? && Truthy(t.theme.value.primaryColor))
            ==> SummaryLines(t).value[3] == "   Theme: default\n"
  {
  }

  /** `files` holds `html` at `p`. */
  predicate PageAt(files: map<Path, string>, p: Path, html: string) {
    p in files && files[p] == html
  }

  /** No file disappears, and every file at page depth other than `except`
      keeps its text. */
  ghost predicate KeepsPages(before: map<Path, string>, after: map<Path, string>, depth: nat, except: Option<Path>) {
    && (forall p | p in before :: p in after)
    && (forall p | p in before && |p| == depth && except != Some(p) :: after[p] == before[p])
  }

  /** A copy pass writes deeper than any page. */
  lemma CopiesKeepPages(before: map<Path, string>, after: map<Path, string>, dst: Path, names: set<string>, depth: nat)
    requires CopiedFiles(before, after, dst, names) && depth < |dst| + 1
    ensures KeepsPages(before, after, depth, None)
  {
  }

  /** The records of a catalog that loads, and none otherwise. */
  function Records(inputs: Inputs): seq<Thumbnail> {
    match LoadData(inputs.catalog)
    case Success(doc) => doc.thumbnails.value
    case Failure(_) => []
  }

  /** The `defaults` object of a catalog that loads. */
  function CatalogDefaults(inputs: Inputs): Option<Defaults> {
    match LoadData(inputs.catalog)
    case Success(doc) => doc.defaults
    case Failure(_) => None
  }

  /** Record `t`, whose expansion came out as `x`, has that text at its
      page path. */
  predicate Holds(cfg: Settings, files: map<Path, string>, t: Thumbnail, x: Result<string, ExpandError>) {
    Truthy(t.id) && x.Success? && PageAt(files, PagePath(cfg, t.id.value), x.value)
  }

  /** Record `t` has its expansion at its page path. */
  ghost predicate WrittenRecord(cfg: Settings, files: map<Path, string>, t: Thumbnail,
                                template: string, defaults: Option<Defaults>) {
    Holds(cfg, files, t, Expanded(template, t, defaults))
  }

  /** What each record expands to. */
  function Expansions(template: string, ts: seq<Thumbnail>, defaults: Option<Defaults>): (xs: seq<Result<string, ExpandError>>)
    ensures |xs| == |ts| && forall i | 0 <= i < |ts| :: xs[i] == Expanded(template, ts[i], defaults)
  {
    seq(|ts|, i requires 0 <= i < |ts| => Expanded(template, ts[i], defaults))
  }

  /** Record `k` of the inputs has its expansion at its page path. */
  ghost predicate Written(cfg: Settings, inputs: Inputs, files: map<Path, string>, k: nat) {
    k < |Records(inputs)|
    && WrittenRecord(cfg, files, Records(inputs)[k], inputs.template.GetOr(""), CatalogDefaults(inputs))
  }

  /** Every record has a truthy id and no two records share one, as
      validation guarantees. */
  predicate Identified(ts: seq<Thumbnail>) {
    && (forall i | 0 <= i < |ts| :: Truthy(ts[i].id))
    && (forall i, j | 0 <= i < j < |ts| :: ts[i].id != ts[j].id)
  }

  /** A step that keeps every other page keeps every page already written. */
  lemma WrittenKept(cfg: Settings, ts: seq<Thumbnail>, xs: seq<Result<string, ExpandError>>,
                    before: map<Path, string>, after: map<Path, string>, pages: set<nat>, except: Option<Path>)
    requires |xs| == |ts| && KeepsPages(before, after, PageDepth(cfg), except)
    requires forall k | k in pages :: && k < |ts| && Holds(cfg, before, ts[k], xs[k])
                                      && |PagePath(cfg, ts[k].id.value)| == PageDepth(cfg)
                                      && except != Some(PagePath(cfg, ts[k].id.value))
    ensures forall k | k in pages :: Holds(cfg, after, ts[k], xs[k])
  {
  }

  // ---------------------------------------------------------------------
  // What a run does to the tree

  /** The outcome of one record and the tree after it. */
  datatype Step = Step(r: Result<Path, Reason>, tree: Tree)

  /** Once the page text is known: `ensureOutputDir(id)`, then
      `copyAssets(id)` in the per-record layout, then `writeFileSync` of the
      page into the folder. */
  ghost function WritePageStep(cfg: Settings, uncopyable: set<Path>, id: string, html: string, t: Tree): Step {
    var e := EnsureAll(t.dirs, t.files, OutputDirs(cfg, Some(id)));
    if !e.ok then Step(Failure(DirFailed), Tree(e.dirs, t.files))
    else
      var c := if cfg.useGigFolders then AfterCopy(uncopyable, AssetsFor(cfg, Some(id)), Tree(e.dirs, t.files))
               else Tree(e.dirs, t.files);
      var page := PagePath(cfg, id);
      if DirIn(c.dirs, Parent(page)) && page !in c.dirs then Step(Success(page), Tree(c.dirs, c.files[page := html]))
      else Step(Failure(WriteFailed), c)
  }

  /** One turn of the `forEach` loop of `generateAll`, for a record whose
      expansion comes out as `x`. */
  ghost function RecordStep(cfg: Settings, uncopyable: set<Path>, t: Thumbnail, x: Result<string, ExpandError>,
                            tree: Tree): Step {
    if !Truthy(t.id) then Step(Failure(MissingId), tree)
    else
      match x
      case Failure(e) => Step(Failure(ExpandFailed(e)), tree)
      case Success(html) => WritePageStep(cfg, uncopyable, t.id.value, html, tree)
  }

  /** The outcome of each record in order, and the tree at the end. */
  datatype Batch = Batch(outcomes: seq<Result<Path, Reason>>, tree: Tree)

  /** The whole loop, record after record, each starting from the tree the
      previous one left. */
  ghost function RunRecords(cfg: Settings, uncopyable: set<Path>, ts: seq<Thumbnail>,
                            xs: seq<Result<string, ExpandError>>, tree: Tree): (b: Batch)
    requires |xs| == |ts|
    ensures |b.outcomes| == |ts|
    decreases |ts|
  {
    if ts == [] then Batch([], tree)
    else
      var n := |ts| - 1;
      var prev := RunRecords(cfg, uncopyable, ts[..n], xs[..n], tree);
      var s := RecordStep(cfg, uncopyable, ts[n], xs[n], prev.tree);
      Batch(prev.outcomes + [s.r], s.tree)
  }

  /** The indices of the records whose page was written. */
  function Succeeded(outcomes: seq<Result<Path, Reason>>): (r: set<nat>)
    ensures forall k | k in r :: k < |outcomes|
  {
    set k: nat | k < |outcomes| && outcomes[k].Success?
  }

  /** The `errors` array after the first `n` records: the id and the
      reason of every failed one, in record order. */
  function Failures(ts: seq<Thumbnail>, outcomes: seq<Result<Path, Reason>>, n: nat): seq<Failed>
    requires n <= |ts| && n <= |outcomes|
    decreases n
  {
    if n == 0 then []
    else
      Failures(ts, outcomes, n - 1)
      + if outcomes[n - 1].Failure? then [Failed(ts[n - 1].id, outcomes[n - 1].error)] else []
  }

  /** The tree once `generateAll` has ensured the output folder and, in the
      flat layout with asset copying on, copied the assets into it. */
  ghost function Prepared(cfg: Settings, uncopyable: set<Path>, t: Tree): Tree {
    var root := Tree(EnsureAll(t.dirs, t.files, [Output]).dirs, t.files);
    if cfg.copyAssets && !cfg.useGigFolders then AfterCopy(uncopyable, AssetsFor(cfg, None), root) else root
  }

  /** How many records had their page written. */
  function Successes(outcomes: seq<Result<Path, Reason>>): nat
    decreases |outcomes|
  {
    if outcomes == [] then 0
    else Successes(outcomes[..|outcomes| - 1]) + if outcomes[|outcomes| - 1].Success? then 1 else 0
  }

  /** The count is the size of the set of written records. */
  lemma {:induction false} SucceededCount(outcomes: seq<Result<Path, Reason>>)
    ensures |Succeeded(outcomes)| == Successes(outcomes)
    decreases |outcomes|
  {
    if outcomes != [] {
      var n := |outcomes| - 1;
      SucceededCount(outcomes[..n]);
      SucceededAppend(outcomes[..n], outcomes[n]);
      assert outcomes[..n] + [outcomes[n]] == outcomes;
    }
  }

  lemma SucceededAppend(outcomes: seq<Result<Path, Reason>>, r: Result<Path, Reason>)
    ensures Succeeded(outcomes + [r]) == Succeeded(outcomes) + if r.Success? then {|outcomes|} else {}
    ensures |outcomes| !in Succeeded(outcomes)
  {
    var all := outcomes + [r];
    assert forall k | 0 <= k < |outcomes| :: all[k] == outcomes[k];
  }

  /** The errors of the first `n` records depend only on their outcomes. */
  lemma {:induction false} FailuresExtend(ts: seq<Thumbnail>, outcomes: seq<Result<Path, Reason>>,
                                          r: Result<Path, Reason>, n: nat)
    requires n <= |ts| && n <= |outcomes|
    ensures Failures(ts, outcomes + [r], n) == Failures(ts, outcomes, n)
    decreases n
  {
    if n > 0 {
      FailuresExtend(ts, outcomes, r, n - 1);
      assert (outcomes + [r])[n - 1] == outcomes[n - 1];
    }
  }

  /** One more record: its error, if any, goes at the end. */
  lemma FailuresStep(ts: seq<Thumbnail>, outcomes: seq<Result<Path, Reason>>, r: Result<Path, Reason>)
    requires |outcomes| < |ts|
    ensures var n := |outcomes|;
            Failures(ts, outcomes + [r], n + 1)
            == Failures(ts, outcomes, n) + if r.Failure? then [Failed(ts[n].id, r.error)] else []
  {
    FailuresExtend(ts, outcomes, r, |outcomes|);
  }

  /** `trees` and `outcomes` follow the loop over the first `n` records:
      the step of record `k` takes tree `k` to tree `k + 1` with outcome `k`. */
  ghost predicate Traced(cfg: Settings, uncopyable: set<Path>, ts: seq<Thumbnail>, xs: seq<Result<string, ExpandError>>,
                         n: nat, outcomes: seq<Result<Path, Reason>>, trees: seq<Tree>)
    decreases n
  {
    && n <= |ts| && |xs| == |ts| && |outcomes| == n && |trees| == n + 1
    && (n > 0 ==> && Traced(cfg, uncopyable, ts, xs, n - 1, outcomes[..n - 1], trees[..n])
                  && RecordStep(cfg, uncopyable, ts[n - 1], xs[n - 1], trees[n - 1]) == Step(outcomes[n - 1], trees[n]))
  }

  /** One more record extends a trace, its tallies and its failure list. */
  lemma TracedStep(cfg: Settings, uncopyable: set<Path>, ts: seq<Thumbnail>, xs: seq<Result<string, ExpandError>>,
                   n: nat, outcomes: seq<Result<Path, Reason>>, trees: seq<Tree>, r: Result<Path, Reason>, t: Tree)
    requires Traced(cfg, uncopyable, ts, xs, n, outcomes, trees) && n < |ts|
    requires RecordStep(cfg, uncopyable, ts[n], xs[n], trees[n]) == Step(r, t)
    ensures Traced(cfg, uncopyable, ts, xs, n + 1, outcomes + [r], trees + [t])
    ensures Successes(outcomes + [r]) == Successes(outcomes) + if r.Success? then 1 else 0
    ensures Failures(ts, outcomes + [r], n + 1)
            == Failures(ts, outcomes, n) + if r.Success? then [] else [Failed(ts[n].id, r.error)]
  {
    assert (outcomes + [r])[..n] == outcomes && (trees + [t])[..n + 1] == trees;
    FailuresStep(ts, outcomes, r);
  }

  /** A trace of the loop is the run: its outcomes and its last tree. */
  lemma {:induction false} TracedRun(cfg: Settings, uncopyable: set<Path>, ts: seq<Thumbnail>,
                                     xs: seq<Result<string, ExpandError>>, n: nat,
                                     outcomes: seq<Result<Path, Reason>>, trees: seq<Tree>)
    requires Traced(cfg, uncopyable, ts, xs, n, outcomes, trees)
    ensures RunRecords(cfg, uncopyable, ts[..n], xs[..n], trees[0]) == Batch(outcomes, trees[n])
    decreases n
  {
    if n == 0 {
      assert ts[..0] == [] && xs[..0] == [];
    } else {
      TracedRun(cfg, uncopyable, ts, xs, n - 1, outcomes[..n - 1], trees[..n]);
      RunRecordsStep(cfg, uncopyable, ts, xs, n - 1, trees[0]);
      assert outcomes[..n - 1] + [outcomes[n - 1]] == outcomes;
    }
  }

  lemma TracedWhole(cfg: Settings, uncopyable: set<Path>, ts: seq<Thumbnail>, xs: seq<Result<string, ExpandError>>,
                    outcomes: seq<Result<Path, Reason>>, trees: seq<Tree>)
    requires Traced(cfg, uncopyable, ts, xs, |ts|, outcomes, trees)
    ensures RunRecords(cfg, uncopyable, ts, xs, trees[0]) == Batch(outcomes, trees[|ts|])
  {
    TracedRun(cfg, uncopyable, ts, xs, |ts|, outcomes, trees);
    assert ts[..|ts|] == ts && xs[..|ts|] == xs;
  }

  /** The loop of `generateAll` over the catalog's records, from the tree
      `ensureOutputDir()` and the flat-layout asset copy leave. */
  ghost function GenerateAllRun(cfg: Settings, uncopyable: set<Path>, inputs: Inputs, t: Tree): (b: Batch)
    ensures |b.outcomes| == |Records(inputs)|
  {
    var ts := Records(inputs);
    RunRecords(cfg, uncopyable, ts, Expansions(inputs.template.GetOr(""), ts, CatalogDefaults(inputs)), Prepared(cfg, uncopyable, t))
  }

  /** The page of a record is written exactly when nothing in the tree
      stands in the way of its folders or its page: the asset copy of the
      per-record layout never does. */
  lemma WritePageSucceeds(cfg: Settings, uncopyable: set<Path>, id: string, html: string, t: Tree)
    requires id != ""
    ensures WritePageStep(cfg, uncopyable, id, html, t).r.Success? <==> PageWritable(cfg, t.dirs, t.files, id)
  {
    var e := EnsureAll(t.dirs, t.files, OutputDirs(cfg, Some(id)));
    if e.ok {
      OutputDirReady(cfg, Some(id), t.dirs, t.files);
      AssetsFolderKeepsPage(cfg, id, e.dirs, t.files);
      assert Parent(PagePath(cfg, id)) == OutputDirFor(cfg, Some(id));
    }
  }

  /** A record's run makes directories and never removes one; on success the
      page holds the text at the record's page path; no file disappears and
      every other page keeps its text. */
  lemma WritePageKeeps(cfg: Settings, uncopyable: set<Path>, id: string, html: string, t: Tree)
    requires id != ""
    ensures var s := WritePageStep(cfg, uncopyable, id, html, t);
            && t.dirs <= s.tree.dirs
            && (s.r.Success? ==> s.r.value == PagePath(cfg, id) && PageAt(s.tree.files, s.r.value, html))
            && (s.r.Failure? ==> s.r.error == DirFailed || s.r.error == WriteFailed)
            && KeepsPages(t.files, s.tree.files, PageDepth(cfg), if s.r.Success? then Some(s.r.value) else None)
  {
    var e := EnsureAll(t.dirs, t.files, OutputDirs(cfg, Some(id)));
    var dst := AssetsFor(cfg, Some(id));
    if e.ok && cfg.useGigFolders {
      match Ensured(e.dirs, t.files, dst)
      case None =>
      case Some(d) =>
        var names := Copied(d, t.files, uncopyable, dst);
        CopiesKeepPages(t.files, WithCopies(t.files, dst, names), dst, names, PageDepth(cfg));
    }
  }

  /** A directory made while ensuring a folder of the record's area is in
      that area. */
  lemma PrefixInArea(cfg: Settings, id: string, p: Path, q: Path)
    requires p == Output || (cfg.useGigFolders && |p| >= 2 && p[..2] == Output + [id])
    requires q in Prefixes(p)
    ensures DirInArea(cfg, id, q)
  {
    assert q == p[..|q|];
    if |q| == 1 {
      assert q == [p[0]];
    } else {
      assert q[..2] == p[..2];
    }
  }

  /** A record's run adds directories and files only in its own area. */
  lemma WritePageFootprint(cfg: Settings, uncopyable: set<Path>, id: string, html: string, t: Tree)
    requires id != ""
    ensures var s := WritePageStep(cfg, uncopyable, id, html, t).tree;
            && (forall q | q in s.dirs && q !in t.dirs :: DirInArea(cfg, id, q))
            && (forall p | p in s.files && p !in t.files :: FileInArea(cfg, id, p))
  {
    var ps := OutputDirs(cfg, Some(id));
    var e := EnsureAll(t.dirs, t.files, ps);
    forall q | q in e.dirs && q !in t.dirs ensures DirInArea(cfg, id, q) {
      var i :| 0 <= i < |ps| && q in Prefixes(ps[i]);
      if cfg.useGigFolders {
        assert ps[1][..2] == Output + [id] && ps[2][..2] == Output + [id];
      }
      PrefixInArea(cfg, id, ps[i], q);
    }
    var page := PagePath(cfg, id);
    assert cfg.useGigFolders ==> page[..2] == Output + [id];
    if e.ok && cfg.useGigFolders {
      var dst := AssetsFor(cfg, Some(id));
      assert dst[..2] == Output + [id];
      match Ensured(e.dirs, t.files, dst)
      case None =>
      case Some(d) =>
        forall q | q in d && q !in e.dirs ensures DirInArea(cfg, id, q) {
          PrefixInArea(cfg, id, dst, q);
        }
        var names := Copied(d, t.files, uncopyable, dst);
        forall p | Target(dst, names, p) ensures FileInArea(cfg, id, p) {
          assert p[..2] == p[..|dst|][..2];
        }
    }
  }

  /** The run for one record, from a tree where nothing stands in its way,
      writes its page and leaves every later record with a different id
      ready. */
  lemma RecordStepClears(cfg: Settings, uncopyable: set<Path>, ts: seq<Thumbnail>, n: nat,
                         x: Result<string, ExpandError>, t: Tree)
    requires Identified(ts) && n < |ts| && Ready(cfg, ts, n, t)
    requires !Strings.EndsWith(cfg.screenshotSubfolder, ".html")
    requires x.Success?
    ensures var s := RecordStep(cfg, uncopyable, ts[n], x, t);
            s.r.Success? && Ready(cfg, ts, n + 1, s.tree)
  {
    var id := ts[n].id.value;
    var html := x.value;
    Strings.StripAppended(id, ".html");
    ReadyWritable(cfg, id, t);
    WritePageSucceeds(cfg, uncopyable, id, html, t);
    WritePageFootprint(cfg, uncopyable, id, html, t);
    var after := WritePageStep(cfg, uncopyable, id, html, t).tree;
    forall j | n + 1 <= j < |ts| ensures RecordReady(cfg, ts[j].id.GetOr(""), after) {
      OtherStaysReady(cfg, id, ts[j].id.value, t, after);
    }
  }

  /** Every record from the `k`-th on is ready in the tree. */
  ghost predicate Ready(cfg: Settings, ts: seq<Thumbnail>, k: nat, t: Tree) {
    forall j | k <= j < |ts| :: RecordReady(cfg, ts[j].id.GetOr(""), t)
  }

  /** Preparing the output tree makes only the output folder and, in the
      flat layout, its asset folder and the files copied there. */
  lemma PreparedFootprint(cfg: Settings, uncopyable: set<Path>, t: Tree)
    ensures var after := Prepared(cfg, uncopyable, t);
            && (forall q | q in after.dirs && q !in t.dirs ::
                  q == Output || (!cfg.useGigFolders && |q| >= 2 && q[..2] == Output + ["assets"]))
            && (forall p | p in after.files && p !in t.files :: !cfg.useGigFolders && |p| == 4)
  {
    var root := Tree(EnsureAll(t.dirs, t.files, [Output]).dirs, t.files);
    var dst := AssetsFor(cfg, None);
    forall q | q in root.dirs && q !in t.dirs ensures q == Output {
      assert q in Prefixes(Output);
    }
    if cfg.copyAssets && !cfg.useGigFolders {
      assert dst == Output + ["assets", "images"];
      match Ensured(root.dirs, root.files, dst)
      case None =>
      case Some(d) =>
        forall q | q in d && q !in root.dirs ensures q == Output || (|q| >= 2 && q[..2] == Output + ["assets"]) {
          assert q == dst[..|q|];
          if |q| >= 2 {
            assert q[..2] == dst[..2];
          }
        }
    }
  }

  /** Preparing the output tree leaves every record ready. */
  lemma PreparedReady(cfg: Settings, uncopyable: set<Path>, ts: seq<Thumbnail>, t: Tree)
    requires Identified(ts) && Ready(cfg, ts, 0, t)
    ensures Ready(cfg, ts, 0, Prepared(cfg, uncopyable, t))
  {
    var after := Prepared(cfg, uncopyable, t);
    PreparedFootprint(cfg, uncopyable, t);
    forall j | 0 <= j < |ts| ensures RecordReady(cfg, ts[j].id.GetOr(""), after) {
      PrepKeepsReady(cfg, ts[j].id.value, t, after);
    }
  }

  /** One more record: the loop over a longer prefix is the loop over the
      shorter one followed by that record's step. */
  lemma RunRecordsStep(cfg: Settings, uncopyable: set<Path>, ts: seq<Thumbnail>, xs: seq<Result<string, ExpandError>>,
                       n: nat, t: Tree)
    requires |xs| == |ts| && n < |ts|
    ensures var prev := RunRecords(cfg, uncopyable, ts[..n], xs[..n], t);
            var s := RecordStep(cfg, uncopyable, ts[n], xs[n], prev.tree);
            RunRecords(cfg, uncopyable, ts[..n + 1], xs[..n + 1], t) == Batch(prev.outcomes + [s.r], s.tree)
  {
    assert ts[..n + 1][..n] == ts[..n] && xs[..n + 1][..n] == xs[..n];
  }

  /** From a tree where every record is ready, the first `n` records all
      succeed and leave the rest ready. */
  lemma {:induction false} RunRecordsSucceed(cfg: Settings, uncopyable: set<Path>, ts: seq<Thumbnail>,
                                             xs: seq<Result<string, ExpandError>>, n: nat, t: Tree)
    requires |xs| == |ts| && Identified(ts) && n <= |ts| && Ready(cfg, ts, 0, t)
    requires !Strings.EndsWith(cfg.screenshotSubfolder, ".html")
    requires forall j | 0 <= j < |xs| :: xs[j].Success?
    ensures var b := RunRecords(cfg, uncopyable, ts[..n], xs[..n], t);
            && Ready(cfg, ts, n, b.tree)
            && (forall k | 0 <= k < n :: b.outcomes[k].Success?)
    decreases n
  {
    if n > 0 {
      RunRecordsSucceed(cfg, uncopyable, ts, xs, n - 1, t);
      RunRecordsStep(cfg, uncopyable, ts, xs, n - 1, t);
      var prev := RunRecords(cfg, uncopyable, ts[..n - 1], xs[..n - 1], t);
      RecordStepClears(cfg, uncopyable, ts, n - 1, xs[n - 1], prev.tree);
    } else {
      assert ts[..0] == [] && xs[..0] == [];
    }
  }

  lemma {:induction false} FailuresNone(ts: seq<Thumbnail>, outcomes: seq<Result<Path, Reason>>, n: nat)
    requires n <= |ts| && n <= |outcomes| && forall k | 0 <= k < n :: outcomes[k].Success?
    ensures Failures(ts, outcomes, n) == []
    decreases n
  {
    if n > 0 {
      FailuresNone(ts, outcomes, n - 1);
    }
  }

  /** Every error names a failed record and its reason. */
  lemma {:induction false} FailuresFrom(ts: seq<Thumbnail>, outcomes: seq<Result<Path, Reason>>, n: nat)
    requires n <= |ts| && n <= |outcomes|
    ensures forall e | e in Failures(ts, outcomes, n) ::
              exists k | 0 <= k < n :: outcomes[k].Failure? && e == Failed(ts[k].id, outcomes[k].error)
    decreases n
  {
    if n > 0 {
      FailuresFrom(ts, outcomes, n - 1);
    }
  }

  /** Completeness: when nothing in the tree stands in the way of any
      record, every record expands and the screenshot sub-folder is not
      named like a page, every page is written and there are no errors. */
  lemma AllRecordsSucceed(cfg: Settings, uncopyable: set<Path>, ts: seq<Thumbnail>,
                          xs: seq<Result<string, ExpandError>>, t: Tree)
    requires |xs| == |ts| && Identified(ts) && Ready(cfg, ts, 0, t)
    requires !Strings.EndsWith(cfg.screenshotSubfolder, ".html")
    requires forall j | 0 <= j < |xs| :: xs[j].Success?
    ensures var b := RunRecords(cfg, uncopyable, ts, xs, Prepared(cfg, uncopyable, t));
            && (forall k | 0 <= k < |ts| :: k in Succeeded(b.outcomes))
            && Failures(ts, b.outcomes, |ts|) == []
  {
    var p := Prepared(cfg, uncopyable, t);
    PreparedReady(cfg, uncopyable, ts, t);
    RunRecordsSucceed(cfg, uncopyable, ts, xs, |ts|, p);
    assert ts[..|ts|] == ts && xs[..|xs|] == xs;
    FailuresNone(ts, RunRecords(cfg, uncopyable, ts, xs, p).outcomes, |ts|);
  }

  /** Soundness: every record the loop counts as written has its expansion
      at its page at the end. */
  lemma {:induction false} RunRecordsWritten(cfg: Settings, uncopyable: set<Path>, ts: seq<Thumbnail>,
                                             xs: seq<Result<string, ExpandError>>, t: Tree)
    requires |xs| == |ts| && Identified(ts)
    ensures var b := RunRecords(cfg, uncopyable, ts, xs, t);
            forall k | k in Succeeded(b.outcomes) :: Holds(cfg, b.tree.files, ts[k], xs[k])
    decreases |ts|
  {
    if ts != [] {
      var n := |ts| - 1;
      var init, xinit := ts[..n], xs[..n];
      assert forall k | 0 <= k < n :: init[k] == ts[k] && xinit[k] == xs[k];
      RunRecordsWritten(cfg, uncopyable, init, xinit, t);
      var prev := RunRecords(cfg, uncopyable, init, xinit, t);
      var s := RecordStep(cfg, uncopyable, ts[n], xs[n], prev.tree);
      SucceededAppend(prev.outcomes, s.r);
      var done := Succeeded(prev.outcomes);
      var except := if s.r.Success? then Some(s.r.value) else None;
      if xs[n].Success? {
        WritePageKeeps(cfg, uncopyable, ts[n].id.value, xs[n].value, prev.tree);
      }
      forall k | k in done
        ensures |PagePath(cfg, ts[k].id.value)| == PageDepth(cfg)
        ensures except != Some(PagePath(cfg, ts[k].id.value))
      {
        PagePathsDistinct(cfg, ts[k].id.value, ts[n].id.value);
      }
      WrittenKept(cfg, ts, xs, prev.tree.files, s.tree.files, done, except);
    }
  }

  /** With truthy ids no record of the loop fails for `MissingId`. */
  lemma {:induction false} RunRecordsIdentified(cfg: Settings, uncopyable: set<Path>, ts: seq<Thumbnail>,
                                                xs: seq<Result<string, ExpandError>>, t: Tree)
    requires |xs| == |ts| && forall i | 0 <= i < |ts| :: Truthy(ts[i].id)
    ensures var b := RunRecords(cfg, uncopyable, ts, xs, t);
            forall e | e in Failures(ts, b.outcomes, |ts|) :: e.reason != MissingId
    decreases |ts|
  {
    var b := RunRecords(cfg, uncopyable, ts, xs, t);
    RunRecordsNoMissingId(cfg, uncopyable, ts, xs, t);
    FailuresFrom(ts, b.outcomes, |ts|);
  }

  lemma {:induction false} RunRecordsNoMissingId(cfg: Settings, uncopyable: set<Path>, ts: seq<Thumbnail>,
                                                 xs: seq<Result<string, ExpandError>>, t: Tree)
    requires |xs| == |ts| && forall i | 0 <= i < |ts| :: Truthy(ts[i].id)
    ensures forall k | 0 <= k < |ts| :: RunRecords(cfg, uncopyable, ts, xs, t).outcomes[k] != Failure(MissingId)
    decreases |ts|
  {
    if ts != [] {
      var n := |ts| - 1;
      assert forall k | 0 <= k < n :: ts[..n][k] == ts[k];
      RunRecordsNoMissingId(cfg, uncopyable, ts[..n], xs[..n], t);
    }
  }

  /** `generateAll` from this state writes every record's page: the inputs
      pass validation, every record expands, the screenshot sub-folder is
      not named like a page, and nothing in the tree stands in the way of
      any record's folders or page. */
  ghost predicate Clear(cfg: Settings, inputs: Inputs, dirs: set<Path>, files: map<Path, string>) {
    && Validator.Passes(inputs)
    && !Strings.EndsWith(cfg.screenshotSubfolder, ".html")
    && (forall j | 0 <= j < |Records(inputs)| ::
          Expanded(inputs.template.GetOr(""), Records(inputs)[j], CatalogDefaults(inputs)).Success?)
    && Ready(cfg, Records(inputs), 0, Tree(dirs, files))
  }

  /** `generateSingle(id)` writes the page from this state. */
  predicate SingleWrites(cfg: Settings, inputs: Inputs, dirs: set<Path>, files: map<Path, string>, id: string) {
    && Validator.Passes(inputs)
    && FindById(Records(inputs), id).Some?
    && PageWritable(cfg, dirs, files, id)
    && Expanded(inputs.template.GetOr(""), Records(inputs)[FindById(Records(inputs), id).value],
                CatalogDefaults(inputs)).Success?
  }

  /** What `generateSingle(id)` returns and the tree it leaves. */
  datatype Single = Single(r: Result<bool, Reason>, tree: Tree)

  /** `generateSingle(id)` over the tree `t`: validation, the lookup, then
      `ensureOutputDir(id)`, `copyAssets(id)` when asset copying is on
      (whatever the layout), the expansion and the write. */
  ghost function SingleRun(cfg: Settings, uncopyable: set<Path>, inputs: Inputs, id: string, t: Tree): Single {
    if !Validator.Passes(inputs) then Single(Success(false), t)
    else
      var ts := Records(inputs);
      match FindById(ts, id)
      case None => Single(Success(false), t)
      case Some(k) => SingleWrite(cfg, uncopyable, id, Expanded(inputs.template.GetOr(""), ts[k], CatalogDefaults(inputs)), t)
  }

  /** The rest of `generateSingle(id)` once the record is found, for an
      expansion that comes out as `x`. */
  ghost function SingleWrite(cfg: Settings, uncopyable: set<Path>, id: string, x: Result<string, ExpandError>, t: Tree): Single {
    var e := EnsureAll(t.dirs, t.files, OutputDirs(cfg, Some(id)));
    if !e.ok then Single(Failure(DirFailed), Tree(e.dirs, t.files))
    else
      var c := if cfg.copyAssets then AfterCopy(uncopyable, AssetsFor(cfg, Some(id)), Tree(e.dirs, t.files))
               else Tree(e.dirs, t.files);
      var page := PagePath(cfg, id);
      match x
      case Failure(_) => Single(Success(false), c)
      case Success(html) =>
        if DirIn(c.dirs, Parent(page)) && page !in c.dirs then Single(Success(true), Tree(c.dirs, c.files[page := html]))
        else Single(Success(false), c)
  }

  /** Once the record is found, the page is written exactly when its text
      expands and nothing stands in the way of its folders or its page; the
      asset copy, in either layout, never does. */
  lemma SingleWriteSucceeds(cfg: Settings, uncopyable: set<Path>, id: string, x: Result<string, ExpandError>, t: Tree)
    requires id != ""
    ensures SingleWrite(cfg, uncopyable, id, x, t).r == Success(true) <==> x.Success? && PageWritable(cfg, t.dirs, t.files, id)
  {
    var e := EnsureAll(t.dirs, t.files, OutputDirs(cfg, Some(id)));
    if e.ok {
      OutputDirReady(cfg, Some(id), t.dirs, t.files);
      AssetsFolderKeepsPage(cfg, id, e.dirs, t.files);
      assert Parent(PagePath(cfg, id)) == OutputDirFor(cfg, Some(id));
    }
  }

  /** `generateSingle(id)` raises exactly when validation passes, the id is
      in the catalog and one of its folders cannot be made. */
  lemma SingleRunRaises(cfg: Settings, uncopyable: set<Path>, inputs: Inputs, id: string, t: Tree)
    ensures SingleRun(cfg, uncopyable, inputs, id, t).r.Failure?
            <==> && Validator.Passes(inputs) && FindById(Records(inputs), id).Some?
                 && !EnsureAll(t.dirs, t.files, OutputDirs(cfg, Some(id))).ok
    ensures SingleRun(cfg, uncopyable, inputs, id, t).r.Failure? ==> SingleRun(cfg, uncopyable, inputs, id, t).r.error == DirFailed
  {
  }

  /** `generateSingle(id)` answers `true` exactly when validation passes, the
      id is in the catalog, its expansion succeeds and nothing in the tree
      stands in the way of its folders or its page. */
  lemma SingleRunSucceeds(cfg: Settings, uncopyable: set<Path>, inputs: Inputs, id: string, t: Tree)
    ensures SingleRun(cfg, uncopyable, inputs, id, t).r == Success(true) <==> SingleWrites(cfg, inputs, t.dirs, t.files, id)
  {
    if Validator.Passes(inputs) && FindById(Records(inputs), id).Some? {
      Validator.PassedIdsIdentify(inputs);
      ValidatedInputsLoad(inputs);
      var k := FindById(Records(inputs), id).value;
      assert Records(inputs)[k].id == Some(id);
      SingleWriteSucceeds(cfg, uncopyable, id, Expanded(inputs.template.GetOr(""), Records(inputs)[k], CatalogDefaults(inputs)), t);
    }
  }

  /** The run of `generateAll` on inputs that pass validation, stated on
      the inputs: every record counted as written has its expansion at its
      page, and no error is `MissingId`. */
  lemma GeneratedWritten(cfg: Settings, uncopyable: set<Path>, inputs: Inputs, t: Tree)
    requires Validator.Passes(inputs)
    ensures var ts := Records(inputs);
            var b := RunRecords(cfg, uncopyable, ts, Expansions(inputs.template.GetOr(""), ts, CatalogDefaults(inputs)), t);
            && (forall k | k in Succeeded(b.outcomes) :: Written(cfg, inputs, b.tree.files, k))
            && (forall e | e in Failures(ts, b.outcomes, |ts|) :: e.reason != MissingId)
  {
    Validator.PassedIdsIdentify(inputs);
    var ts := Records(inputs);
    var xs := Expansions(inputs.template.GetOr(""), ts, CatalogDefaults(inputs));
    RunRecordsWritten(cfg, uncopyable, ts, xs, t);
    RunRecordsIdentified(cfg, uncopyable, ts, xs, t);
  }

  /** From a clear tree the output folder can be made, unless there is no
      record at all, and the run leaves no error. */
  lemma ClearRunComplete(cfg: Settings, uncopyable: set<Path>, inputs: Inputs, t: Tree)
    requires Clear(cfg, inputs, t.dirs, t.files)
    ensures |Records(inputs)| > 0 ==> EnsureAll(t.dirs, t.files, [Output]).ok
    ensures Failures(Records(inputs), GenerateAllRun(cfg, uncopyable, inputs, t).outcomes, |Records(inputs)|) == []
  {
    Validator.PassedIdsIdentify(inputs);
    var ts := Records(inputs);
    if |ts| > 0 {
      assert RecordReady(cfg, ts[0].id.GetOr(""), t);
      assert OutputDirs(cfg, Some(ts[0].id.value))[0] == Output;
    }
    AllRecordsSucceed(cfg, uncopyable, ts, Expansions(inputs.template.GetOr(""), ts, CatalogDefaults(inputs)), t);
  }

  // ---------------------------------------------------------------------
  // The generator

  class ThumbnailGenerator {
    const cfg: Settings
    const fs: Fs
    const inputs: Inputs

    /** The run gets past `ensureOutputDir()` from this state. */
    predicate Reached(dirs: set<Path>, files: map<Path, string>) {
      Validator.Passes(inputs) && EnsureAll(dirs, files, [Output]).ok
    }

    constructor (cfg0: Settings, fs0: Fs, inputs0: Inputs)
      ensures cfg == cfg0 && fs == fs0 && inputs == inputs0
    {
      cfg := cfg0;
      fs := fs0;
      inputs := inputs0;
    }

    /** The two-call step that creates a directory unless something is
        already there. */
    method EnsureDir(p: Path) returns (ok: bool)
      modifies fs
      ensures var e := Ensured(old(fs.dirs), old(fs.files), p);
              && ok == e.Some?
              && fs.dirs == (if ok then e.value else old(fs.dirs))
      ensures fs.files == old(fs.files)
    {
      ok := true;
      if !fs.Exists(p) {
        ok := fs.MkdirP(p);
      }
    }

    /** `ensureOutputDir(gigId)`: `None` when a `mkdirSync` raises. */
    method EnsureOutputDir(id: Option<string>) returns (r: Option<Path>)
      modifies fs
      ensures var e := EnsureAll(old(fs.dirs), old(fs.files), OutputDirs(cfg, id));
              r.Some? == e.ok && fs.dirs == e.dirs
      ensures r.Some? ==> r.value == OutputDirFor(cfg, id)
      ensures fs.files == old(fs.files)
    {
      ghost var ps, f := OutputDirs(cfg, id), fs.files;
      ghost var d0 := fs.dirs;
      var ok := EnsureDir(Output);
      if !ok {
        return None;
      }
      assert EnsureAll(d0, f, ps) == EnsureAll(fs.dirs, f, ps[1..]);
      if cfg.useGigFolders && Truthy(id) {
        var gigDir := Output + [id.value];
        var sub := gigDir + [cfg.screenshotSubfolder];
        assert ps[1..] == [gigDir, sub] && ps[1..][1..] == [sub] && ps[1..][1..][1..] == [];
        ghost var d1 := fs.dirs;
        ok := EnsureDir(gigDir);
        if !ok {
          assert EnsureAll(d1, f, ps[1..]) == Ensure(false, d1);
          return None;
        }
        assert EnsureAll(d1, f, ps[1..]) == EnsureAll(fs.dirs, f, ps[1..][1..]);
        ghost var d2 := fs.dirs;
        ok := EnsureDir(sub);
        if !ok {
          assert EnsureAll(d2, f, ps[1..][1..]) == Ensure(false, d2);
          return None;
        }
        assert EnsureAll(d2, f, ps[1..][1..]) == EnsureAll(fs.dirs, f, []);
        return Some(gigDir);
      }
      assert ps[1..] == [];
      return Some(Output);
    }

    /** `copyAssets(gigId)`: returns how many asset files were copied. A
        copy that raises is skipped; a failure before the loop returns 0. */
    method CopyAssets(id: Option<string>) returns (count: nat, ghost done: set<string>)
      modifies fs
      ensures var dst := AssetsFor(cfg, id);
              var e := Ensured(old(fs.dirs), old(fs.files), dst);
              && fs.dirs == (if e.None? then old(fs.dirs) else e.value)
              && done == (if e.None? then {} else Copied(e.value, old(fs.files), fs.uncopyable, dst))
              && count == |done|
              && CopiedFiles(old(fs.files), fs.files, dst, done)
    {
      var dst := AssetsFor(cfg, id);
      done := {};
      var ok := EnsureDir(dst);
      if !ok {
        return 0, {};
      }
      ghost var d1, f0 := fs.dirs, fs.files;
      if !fs.Exists(Images) {
        return 0, {};
      }
      var names := fs.ListDir(Images);
      if names.None? {
        return 0, {};
      }
      count := CopyEntries(names.value, dst);
      AfterCopiesSpec(d1, f0, fs.uncopyable, dst, names.value);
      done := set n | n in names.value && CopyOk(d1, f0, fs.uncopyable, dst, n);
      assert done == Copied(d1, f0, fs.uncopyable, dst) by {
        forall n | CopyOk(d1, f0, fs.uncopyable, dst, n) ensures n in names.value {
          assert n in ChildNames(d1, f0, Images);
        }
      }
    }

    /** One turn of the loop of `copyAssets`: a regular file is copied,
        anything else is passed over; `false` unless the copy went through. */
    method CopyEntry(n: string, dst: Path) returns (copied: bool)
      modifies fs
      ensures copied == CopyOk(old(fs.dirs), old(fs.files), fs.uncopyable, dst, n)
      ensures fs.dirs == old(fs.dirs)
      ensures fs.files == if copied then old(fs.files)[dst + [n] := old(fs.files)[Images + [n]]] else old(fs.files)
    {
      var src := Images + [n];
      copied := false;
      if src in fs.files {
        assert Parent(dst + [n]) == dst;
        copied := fs.CopyFile(src, dst + [n]);
      }
    }

    /** The `files.forEach` loop of `copyAssets`. */
    method CopyEntries(ns: seq<string>, dst: Path) returns (count: nat)
      requires |dst| > 0 && dst[0] == "output"
      modifies fs
      ensures fs.dirs == old(fs.dirs)
      ensures fs.files == AfterCopies(old(fs.dirs), old(fs.files), fs.uncopyable, dst, ns)
      ensures count == CopyCount(old(fs.dirs), old(fs.files), fs.uncopyable, dst, ns)
    {
      ghost var d1, f0 := fs.dirs, fs.files;
      count := 0;
      for i := 0 to |ns|
        invariant fs.dirs == d1
        invariant fs.files == AfterCopies(d1, f0, fs.uncopyable, dst, ns[..i])
        invariant count == CopyCount(d1, f0, fs.uncopyable, dst, ns[..i])
      {
        var n := ns[i];
        assert ns[..i + 1][..i] == ns[..i] && ns[..i + 1][i] == n;
        AfterCopiesOutside(d1, f0, fs.uncopyable, dst, ns[..i], Images + [n]) by {
          assert (Images + [n])[0] != dst[0];
        }
        var copied := CopyEntry(n, dst);
        if copied {
          count := count + 1;
        }
      }
      assert ns[..|ns|] == ns;
    }

    /** The body of the `try` block of `generateAll` for one record: the
        page path on success, or why the record failed. */
    method GenerateRecord(t: Thumbnail, template: string, defaults: Option<Defaults>) returns (r: Result<Path, Reason>)
      modifies fs
      ensures var s := RecordStep(cfg, fs.uncopyable, t, Expanded(template, t, defaults), Tree(old(fs.dirs), old(fs.files)));
              r == s.r && Tree(fs.dirs, fs.files) == s.tree
    {
      if !Truthy(t.id) {
        return Failure(MissingId);
      }
      var html := ReplacePlaceholders(template, t, defaults);
      if html.Failure? {
        return Failure(ExpandFailed(html.error));
      }
      r := WritePage(t.id.value, html.value);
    }

    /** The rest of that block once the page text is known: the record's
        folders, its assets in per-record mode, then the page itself. */
    method WritePage(id: string, html: string) returns (r: Result<Path, Reason>)
      requires id != ""
      modifies fs
      ensures var s := WritePageStep(cfg, fs.uncopyable, id, html, Tree(old(fs.dirs), old(fs.files)));
              r == s.r && Tree(fs.dirs, fs.files) == s.tree
    {
      ghost var f0 := fs.files;
      var outDir := EnsureOutputDir(Some(id));
      if outDir.None? {
        return Failure(DirFailed);
      }
      var path := outDir.value + [id + ".html"];
      if cfg.useGigFolders {
        ghost var t1 := Tree(fs.dirs, fs.files);
        var _, done := CopyAssets(Some(id));
        CopyIsAfterCopy(fs.uncopyable, AssetsFor(cfg, Some(id)), t1, Tree(fs.dirs, fs.files), done);
      }
      var ok := fs.WriteFile(path, html);
      if !ok {
        return Failure(WriteFailed);
      }
      return Success(path);
    }

    /** The `data.thumbnails.forEach` loop of `generateAll`: a failing
        record is counted and logged, and the loop goes on. */
    method GenerateRecords(ts: seq<Thumbnail>, template: string, defaults: Option<Defaults>)
      returns (successCount: nat, failCount: nat, errors: seq<Failed>,
               ghost pages: set<nat>, ghost outs: seq<Result<Path, Reason>>, ghost trees: seq<Tree>)
      modifies fs
      ensures Traced(cfg, fs.uncopyable, ts, Expansions(template, ts, defaults), |ts|, outs, trees)
      ensures trees[0] == Tree(old(fs.dirs), old(fs.files)) && trees[|ts|] == Tree(fs.dirs, fs.files)
      ensures pages == Succeeded(outs) && errors == Failures(ts, outs, |ts|)
      ensures successCount == |pages| && failCount == |errors| && successCount + failCount == |ts|
    {
      ghost var xs := Expansions(template, ts, defaults);
      outs, trees := [], [Tree(fs.dirs, fs.files)];
      successCount, failCount, errors := 0, 0, [];
      var i: nat := 0;
      while i < |ts|
        invariant Traced(cfg, fs.uncopyable, ts, xs, i, outs, trees)
        invariant trees[0] == Tree(old(fs.dirs), old(fs.files)) && trees[i] == Tree(fs.dirs, fs.files)
        invariant errors == Failures(ts, outs, i)
        invariant successCount == Successes(outs) && failCount == |errors| && successCount + failCount == i
      {
        var r := GenerateRecord(ts[i], template, defaults);
        TracedStep(cfg, fs.uncopyable, ts, xs, i, outs, trees, r, Tree(fs.dirs, fs.files));
        outs := outs + [r];
        trees := trees + [Tree(fs.dirs, fs.files)];
        if r.Success? {
          successCount := successCount + 1;
        } else {
          failCount := failCount + 1;
          errors := errors + [Failed(ts[i].id, r.error)];
        }
        i := i + 1;
      }
      pages := Succeeded(outs);
      SucceededCount(outs);
    }

    /** `new Validator().validate()` over the current tree. */
    method Validate() returns (valid: bool)
      ensures valid == Validator.Passes(inputs)
    {
      var v := new Validator.Validator();
      valid := v.Validate(inputs, fs.Entries());
    }

    /** The start of `generateAll` once validation has passed:
        `ensureOutputDir()`, then `copyAssets()` in the flat layout when
        asset copying is on; `false` when the `mkdirSync` raises. */
    method Prepare() returns (ok: bool)
      modifies fs
      ensures ok == EnsureAll(old(fs.dirs), old(fs.files), [Output]).ok
      ensures ok ==> Tree(fs.dirs, fs.files) == Prepared(cfg, fs.uncopyable, Tree(old(fs.dirs), old(fs.files)))
      ensures !ok ==> fs.dirs == old(fs.dirs) && fs.files == old(fs.files)
    {
      ghost var t0 := Tree(fs.dirs, fs.files);
      assert OutputDirs(cfg, None) == [Output];
      var root := EnsureOutputDir(None);
      if root.None? {
        assert [Output][1..] == [];
        assert Ensured(t0.dirs, t0.files, Output).None?;
        return false;
      }
      if cfg.copyAssets && !cfg.useGigFolders {
        ghost var t1 := Tree(fs.dirs, fs.files);
        var _, done := CopyAssets(None);
        CopyIsAfterCopy(fs.uncopyable, AssetsFor(cfg, None), t1, Tree(fs.dirs, fs.files), done);
      }
      return true;
    }

    /** `generateAll`: validates, then generates every record, counting
        successes and failures; `true` when at least one page was written.
        `pages` names the records whose page was written. */
    method GenerateAll() returns (ok: bool, successCount: nat, failCount: nat, errors: seq<Failed>, ghost pages: set<nat>)
      modifies fs
      ensures !Reached(old(fs.dirs), old(fs.files))
              ==> && !ok && successCount == failCount == 0 && errors == []
                  && fs.dirs == old(fs.dirs) && fs.files == old(fs.files)
      ensures Reached(old(fs.dirs), old(fs.files)) ==>
                var ts := Records(inputs);
                var b := GenerateAllRun(cfg, fs.uncopyable, inputs, Tree(old(fs.dirs), old(fs.files)));
                && Tree(fs.dirs, fs.files) == b.tree
                && pages == Succeeded(b.outcomes)
                && errors == Failures(ts, b.outcomes, |ts|)
      ensures ok == (successCount > 0)
      ensures successCount == |pages| && failCount == |errors|
      ensures successCount + failCount == if Reached(old(fs.dirs), old(fs.files)) then |Records(inputs)| else 0
      ensures forall e | e in errors :: e.reason != MissingId
      ensures forall k | k in pages :: Written(cfg, inputs, fs.files, k)
      ensures Clear(cfg, inputs, old(fs.dirs), old(fs.files)) ==> successCount == |Records(inputs)| && errors == []
    {
      successCount, failCount, errors, pages := 0, 0, [], {};
      var valid := Validate();
      if !valid {
        return false, 0, 0, [], {};
      }
      ValidatedInputsLoad(inputs);
      ghost var t0 := Tree(fs.dirs, fs.files);
      var doc := LoadData(inputs.catalog).value;
      var template := LoadTemplate(inputs.template).value;
      var ts := doc.thumbnails.value;
      assert template == inputs.template.GetOr("") && ts == Records(inputs) && doc.defaults == CatalogDefaults(inputs);
      if Clear(cfg, inputs, t0.dirs, t0.files) {
        ClearRunComplete(cfg, fs.uncopyable, inputs, t0);
      }
      var prepared := Prepare();
      if !prepared {
        return false, 0, 0, [], {};
      }
      GeneratedWritten(cfg, fs.uncopyable, inputs, Tree(fs.dirs, fs.files));
      ghost var outs, trees;
      successCount, failCount, errors, pages, outs, trees := GenerateRecords(ts, template, doc.defaults);
      TracedWhole(cfg, fs.uncopyable, ts, Expansions(template, ts, doc.defaults), outs, trees);
      ok := successCount > 0;
    }

    /** `generateSingle(thumbnailId)`: `Success(false)` when validation
        fails, no record has the id, the expansion raises or the write
        raises; a `mkdirSync` that raises in `ensureOutputDir` is outside
        the `try` block and escapes as `Failure(DirFailed)`. */
    method GenerateSingle(id: string) returns (r: Result<bool, Reason>)
      modifies fs
      ensures !Validator.Passes(inputs) ==> r == Success(false) && unchanged(fs)
      ensures Validator.Passes(inputs) && FindById(Records(inputs), id).None? ==> r == Success(false) && unchanged(fs)
      ensures r.Failure? <==> && Validator.Passes(inputs) && FindById(Records(inputs), id).Some?
                              && !EnsureAll(old(fs.dirs), old(fs.files), OutputDirs(cfg, Some(id))).ok
      ensures r.Failure? ==> r.error == DirFailed
      ensures r == Success(true) ==> && FindById(Records(inputs), id).Some?
                                     && Written(cfg, inputs, fs.files, FindById(Records(inputs), id).value)
      ensures r == Success(true) <==> SingleWrites(cfg, inputs, old(fs.dirs), old(fs.files), id)
      ensures var s := SingleRun(cfg, fs.uncopyable, inputs, id, Tree(old(fs.dirs), old(fs.files)));
              r == s.r && Tree(fs.dirs, fs.files) == s.tree
    {
      SingleRunSucceeds(cfg, fs.uncopyable, inputs, id, Tree(fs.dirs, fs.files));
      SingleRunRaises(cfg, fs.uncopyable, inputs, id, Tree(fs.dirs, fs.files));
      var valid := Validate();
      if !valid {
        return Success(false);
      }
      ValidatedInputsLoad(inputs);
      Validator.PassedIdsIdentify(inputs);
      var doc := LoadData(inputs.catalog).value;
      var template := LoadTemplate(inputs.template).value;
      var ts := doc.thumbnails.value;
      assert template == inputs.template.GetOr("") && ts == Records(inputs) && doc.defaults == CatalogDefaults(inputs);
      var found := FindById(ts, id);
      if found.None? {
        return Success(false);
      }
      var t := ts[found.value];
      assert t.id == Some(id) && Truthy(t.id);
      var outDir := EnsureOutputDir(t.id);
      if outDir.None? {
        return Failure(DirFailed);
      }
      if cfg.copyAssets {
        ghost var t1 := Tree(fs.dirs, fs.files);
        var _, done := CopyAssets(t.id);
        CopyIsAfterCopy(fs.uncopyable, AssetsFor(cfg, Some(id)), t1, Tree(fs.dirs, fs.files), done);
      }
      var html := ReplacePlaceholders(template, t, doc.defaults);
      if html.Failure? {
        return Success(false);
      }
      var ok := fs.WriteFile(outDir.value + [id + ".html"], html.value);
      return Success(ok);
    }
  }
}
