/** `ScreenshotGenerator`, the older Puppeteer backend: takes one screenshot
    per `.html` file directly under the output folder. It only reads the
    filesystem; the screenshots it writes are kept in `shots`. */
module Puppeteer {
  import opened Wrappers
  import opened FileSystem
  import opened Config
  import opened Strings
  import opened Capture

  /** `readdirSync(output).filter(f => f.endsWith('.html'))`. */
  function HtmlCandidates(names: seq<string>): (r: seq<string>)
    ensures |r| <= |names|
    ensures forall n :: n in r <==> n in names && EndsWith(n, ".html")
    ensures (forall i, j | 0 <= i < j < |names| :: names[i] != names[j])
            ==> forall i, j | 0 <= i < j < |r| :: r[i] != r[j]
  {
    if names == [] then []
    else
      var rest := HtmlCandidates(names[1..]);
      assert forall n :: n in names <==> n == names[0] || n in names[1..];
      if EndsWith(names[0], ".html") then [names[0]] + rest else rest
  }

  /** `${path.basename(htmlFile, '.html')}.${screenshotFormat}`. */
  function ShotName(cfg: Settings, htmlFile: string): string
    requires EndsWith(htmlFile, ".html")
  {
    StripSuffix(htmlFile, ".html") + "." + cfg.screenshotFormat
  }

  /** `generateSingle(id)` names the screenshot as `generateAll` names the
      screenshot of `id.html`. */
  lemma SingleNameAgrees(cfg: Settings, id: string)
    ensures EndsWith(id + ".html", ".html")
    ensures ShotName(cfg, id + ".html") == id + "." + cfg.screenshotFormat
  {
    StripAppended(id, ".html");
  }

  /** Different pages get different screenshot names. */
  lemma ShotNamesDistinct(cfg: Settings, a: string, b: string)
    requires EndsWith(a, ".html") && EndsWith(b, ".html") && a != b
    ensures ShotName(cfg, a) != ShotName(cfg, b)
  {
    var sa, sb := StripSuffix(a, ".html"), StripSuffix(b, ".html");
    var tail := "." + cfg.screenshotFormat;
    assert sa != sb;
    assert ShotName(cfg, a) == sa + tail && ShotName(cfg, b) == sb + tail;
    assert (sa + tail)[..|sa|] == sa && (sb + tail)[..|sb|] == sb;
  }

  /** Different pages get different screenshot paths. */
  lemma ShotPathsApart(cfg: Settings, a: string, b: string)
    requires EndsWith(a, ".html") && EndsWith(b, ".html") && a != b
    ensures Output + [ShotName(cfg, a)] != Output + [ShotName(cfg, b)]
  {
    ShotNamesDistinct(cfg, a, b);
    assert (Output + [ShotName(cfg, a)])[|Output|] == ShotName(cfg, a);
  }

  /** How many of the first `n` pages `names` under the output folder load. */
  function Loadable(env: Env, names: seq<string>, n: nat): (r: nat)
    requires n <= |names|
    ensures r <= n
  {
    if n == 0 then 0
    else Loadable(env, names, n - 1) + if Output + [names[n - 1]] in env.navFails then 0 else 1
  }

  /** The page `output/<htmlFile>` is there and `goto` gets through. */
  predicate PageLoads(env: Env, dirs: set<Path>, files: map<Path, string>, htmlFile: string) {
    Present(dirs, files, Output + [htmlFile]) && Output + [htmlFile] !in env.navFails
  }

  /** The screenshots after the loop of `generateAll` over the first `n`
      candidates, from `shots0`: each page that loads is captured into
      `output/<name>.<format>`; a capture that raises writes nothing. */
  function CandidateShots(cfg: Settings, env: Env, dirs: set<Path>, files: map<Path, string>,
                          shots0: map<Path, Shot>, candidates: seq<string>, n: nat): map<Path, Shot>
    requires n <= |candidates| && forall i | 0 <= i < |candidates| :: EndsWith(candidates[i], ".html")
  {
    if n == 0 then shots0
    else
      var prev := CandidateShots(cfg, env, dirs, files, shots0, candidates, n - 1);
      var c := candidates[n - 1];
      if PageLoads(env, dirs, files, c) then prev[Output + [ShotName(cfg, c)] := ShotOf(env, Output + [c])] else prev
  }

  /** Over distinct candidates, each candidate seen has its screenshot
      exactly when its page loads (or one was there before), showing that
      page. */
  lemma {:induction false} CandidateShot(cfg: Settings, env: Env, dirs: set<Path>, files: map<Path, string>,
                                         shots0: map<Path, Shot>, candidates: seq<string>, n: nat, k: nat)
    requires k < n <= |candidates| && forall i | 0 <= i < |candidates| :: EndsWith(candidates[i], ".html")
    requires forall i, j | 0 <= i < j < |candidates| :: candidates[i] != candidates[j]
    ensures var w := CandidateShots(cfg, env, dirs, files, shots0, candidates, n);
            var c := candidates[k];
            var p := Output + [ShotName(cfg, c)];
            && (p in w <==> PageLoads(env, dirs, files, c) || p in shots0)
            && (PageLoads(env, dirs, files, c) ==> w[p] == ShotOf(env, Output + [c]))
  {
    var c := candidates[k];
    var p := Output + [ShotName(cfg, c)];
    if k < n - 1 {
      CandidateShot(cfg, env, dirs, files, shots0, candidates, n - 1, k);
      ShotPathsApart(cfg, c, candidates[n - 1]);
      CandidateStepOther(cfg, env, dirs, files, shots0, candidates, n, p);
    } else {
      EarlierPathsApart(cfg, candidates, k);
      CandidateOnly(cfg, env, dirs, files, shots0, candidates, n - 1, p);
      CandidateStepSelf(cfg, env, dirs, files, shots0, candidates, n);
    }
  }

  /** One more candidate leaves every path but its own screenshot as it was. */
  lemma CandidateStepOther(cfg: Settings, env: Env, dirs: set<Path>, files: map<Path, string>,
                           shots0: map<Path, Shot>, candidates: seq<string>, n: nat, p: Path)
    requires 0 < n <= |candidates| && forall i | 0 <= i < |candidates| :: EndsWith(candidates[i], ".html")
    requires p != Output + [ShotName(cfg, candidates[n - 1])]
    ensures var w := CandidateShots(cfg, env, dirs, files, shots0, candidates, n);
            var prev := CandidateShots(cfg, env, dirs, files, shots0, candidates, n - 1);
            (p in w <==> p in prev) && (p in prev ==> w[p] == prev[p])
  {
  }

  /** One more candidate writes its own screenshot exactly when its page loads. */
  lemma CandidateStepSelf(cfg: Settings, env: Env, dirs: set<Path>, files: map<Path, string>,
                          shots0: map<Path, Shot>, candidates: seq<string>, n: nat)
    requires 0 < n <= |candidates| && forall i | 0 <= i < |candidates| :: EndsWith(candidates[i], ".html")
    ensures var c := candidates[n - 1];
            var p := Output + [ShotName(cfg, c)];
            var w := CandidateShots(cfg, env, dirs, files, shots0, candidates, n);
            var prev := CandidateShots(cfg, env, dirs, files, shots0, candidates, n - 1);
            && (p in w <==> PageLoads(env, dirs, files, c) || p in prev)
            && (PageLoads(env, dirs, files, c) ==> w[p] == ShotOf(env, Output + [c]))
  {
  }

  /** No candidate before the `k`-th has its screenshot path. */
  lemma EarlierPathsApart(cfg: Settings, candidates: seq<string>, k: nat)
    requires k < |candidates| && forall i | 0 <= i < |candidates| :: EndsWith(candidates[i], ".html")
    requires forall i, j | 0 <= i < j < |candidates| :: candidates[i] != candidates[j]
    ensures forall j | 0 <= j < k :: Output + [ShotName(cfg, candidates[k])] != Output + [ShotName(cfg, candidates[j])]
  {
    forall j | 0 <= j < k ensures Output + [ShotName(cfg, candidates[k])] != Output + [ShotName(cfg, candidates[j])] {
      ShotPathsApart(cfg, candidates[k], candidates[j]);
    }
  }

  /** Nothing but the screenshot of a candidate whose page loads is written:
      any other path keeps what it had. */
  lemma {:induction false} CandidateOnly(cfg: Settings, env: Env, dirs: set<Path>, files: map<Path, string>,
                                         shots0: map<Path, Shot>, candidates: seq<string>, n: nat, p: Path)
    requires n <= |candidates| && forall i | 0 <= i < |candidates| :: EndsWith(candidates[i], ".html")
    ensures var w := CandidateShots(cfg, env, dirs, files, shots0, candidates, n);
            (forall j | 0 <= j < n && PageLoads(env, dirs, files, candidates[j]) :: p != Output + [ShotName(cfg, candidates[j])])
            ==> (p in w <==> p in shots0) && (p in shots0 ==> w[p] == shots0[p])
  {
    if n > 0 {
      CandidateOnly(cfg, env, dirs, files, shots0, candidates, n - 1, p);
    }
  }

  /** How a `generateAll` call ends: no candidate, a rejection outside the
      per-file `try`, or the loop went through every candidate. */
  datatype Outcome =
    | NoCandidates
    | Raised
    | Done(candidates: seq<string>, successCount: nat, failCount: nat)

  /** How a `generateSingle` call ends: the page is missing, the launch
      rejects, or the capture was attempted with this result. */
  datatype Single =
    | PageMissing
    | LaunchRaised
    | Attempted(r: Result<Path, CaptureError>)

  class PuppeteerScreenshots {
    const cfg: Settings
    const env: Env
    const fs: Fs
    var browser: Browser?
    var shots: map<Path, Shot>

    constructor (cfg0: Settings, env0: Env, fs0: Fs)
      ensures cfg == cfg0 && env == env0 && fs == fs0
      ensures browser == null && shots == map[]
    {
      cfg := cfg0;
      env := env0;
      fs := fs0;
      browser := null;
      shots := map[];
    }

    /** `initialize`: launches a new browser; `false` when the launch
        rejects, which leaves `this.browser` as it was. */
    method Initialize() returns (ok: bool)
      modifies this`browser
      ensures ok == !env.launchFails
      ensures ok ==> fresh(browser) && browser.open && browser.pages == 0
      ensures !ok ==> browser == old(browser)
    {
      if env.launchFails {
        return false;
      }
      browser := new Browser();
      return true;
    }

    /** `close`: closes the browser, if one was ever acquired. */
    method Close()
      modifies browser
      ensures browser != null ==> !browser.open && browser.pages == 0
    {
      if browser != null {
        browser.Close();
      }
    }

    /** `captureScreenshot`: loads `output/htmlFile` and takes the element
        or, failing that, the viewport. There is no `finally`: the page is
        closed only when the capture gets through. */
    method CaptureScreenshot(htmlFile: string, outputFile: string) returns (r: Result<Path, CaptureError>)
      modifies browser, this`shots
      ensures browser != null ==> browser.open == old(browser.open)
      ensures var html := Output + [htmlFile];
              && (r.Success? <==> && browser != null && old(browser.open)
                                  && fs.Exists(html) && html !in env.navFails)
              && (r.Success? ==> && r.value == Output + [outputFile]
                                 && shots == old(shots)[r.value := ShotOf(env, html)]
                                 && browser.pages == old(browser.pages))
              && (r.Failure? ==> shots == old(shots))
              && (r.Failure? && browser != null && old(browser.open) ==> browser.pages == old(browser.pages) + 1)
    {
      if browser == null {
        return Failure(NoBrowser);
      }
      var paged := browser.NewPage();
      if !paged {
        return Failure(NoBrowser);
      }
      var html := Output + [htmlFile];
      if !fs.Exists(html) || html in env.navFails {
        return Failure(NavFailed(html));
      }
      var shot := Output + [outputFile];
      shots := shots[shot := ShotOf(env, html)];
      browser.ClosePage();
      return Success(shot);
    }

    /** The `for...of` loop of `generateAll` with the browser `b` open: one
        capture per candidate, none of which stops the loop. */
    method CaptureAll(candidates: seq<string>, b: Browser) returns (successCount: nat, failCount: nat)
      requires browser == b && b.open
      requires forall i | 0 <= i < |candidates| :: EndsWith(candidates[i], ".html") && fs.Exists(Output + [candidates[i]])
      modifies this`shots, b
      ensures b.open
      ensures successCount + failCount == |candidates|
      ensures successCount == Loadable(env, candidates, |candidates|)
      ensures shots == CandidateShots(cfg, env, fs.dirs, fs.files, old(shots), candidates, |candidates|)
    {
      successCount, failCount := 0, 0;
      for i := 0 to |candidates|
        invariant b.open
        invariant successCount + failCount == i
        invariant successCount == Loadable(env, candidates, i)
        invariant shots == CandidateShots(cfg, env, fs.dirs, fs.files, old(shots), candidates, i)
      {
        var htmlFile := candidates[i];
        var r := CaptureScreenshot(htmlFile, ShotName(cfg, htmlFile));
        if r.Success? {
          successCount := successCount + 1;
        } else {
          failCount := failCount + 1;
        }
      }
    }

    /** `generateAll`: captures every `.html` file under the output folder,
        launching the browser only when there is one. */
    method GenerateAll() returns (r: Outcome)
      modifies this, browser
      ensures r.NoCandidates? ==> browser == old(browser) && (browser != null ==> unchanged(browser))
      ensures r.NoCandidates? ==> fs.IsDir(Output) && forall n | n in fs.Children(Output) :: !EndsWith(n, ".html")
      ensures r.Raised? <==> !fs.IsDir(Output) || (!r.NoCandidates? && env.launchFails)
      ensures !r.Done? ==> shots == old(shots)
      ensures r.Done? ==>
                && fresh(browser) && !browser.open && browser.pages == 0
                && (forall n :: n in r.candidates <==> n in fs.Children(Output) && EndsWith(n, ".html"))
                && (forall i, j | 0 <= i < j < |r.candidates| :: r.candidates[i] != r.candidates[j])
                && (forall i | 0 <= i < |r.candidates| :: EndsWith(r.candidates[i], ".html"))
                && |r.candidates| > 0
                && r.successCount + r.failCount == |r.candidates|
                && r.successCount == Loadable(env, r.candidates, |r.candidates|)
                && shots == CandidateShots(cfg, env, fs.dirs, fs.files, old(shots), r.candidates, |r.candidates|)
    {
      var entries := fs.ListDir(Output);
      if entries.None? {
        return Raised;
      }
      var htmlFiles := HtmlCandidates(entries.value);
      if |htmlFiles| == 0 {
        assert forall n | n in fs.Children(Output) :: !EndsWith(n, ".html");
        return NoCandidates;
      }
      var launched := Initialize();
      if !launched {
        return Raised;
      }
      var successCount, failCount := CaptureAll(htmlFiles, browser);
      Close();
      return Done(htmlFiles, successCount, failCount);
    }

    /** `generateSingle(id)`: captures `output/id.html` into
        `output/id.<format>`, launching only when the page exists. */
    method GenerateSingle(thumbnailId: string) returns (r: Single)
      modifies this, browser
      ensures r.PageMissing? <==> !fs.Exists(Output + [thumbnailId + ".html"])
      ensures r.Attempted? <==> fs.Exists(Output + [thumbnailId + ".html"]) && !env.launchFails
      ensures r.PageMissing? ==> browser == old(browser) && (browser != null ==> unchanged(browser))
      ensures r.LaunchRaised? ==> env.launchFails && browser == old(browser)
      ensures r.Attempted? ==> && fresh(browser) && !browser.open && browser.pages == 0
                               && (r.r.Success? <==> Output + [thumbnailId + ".html"] !in env.navFails)
                               && (r.r.Success? ==> r.r.value == Output + [thumbnailId + "." + cfg.screenshotFormat])
      ensures r.Attempted? && r.r.Success?
              ==> shots == old(shots)[Output + [thumbnailId + "." + cfg.screenshotFormat] := ShotOf(env, Output + [thumbnailId + ".html"])]
      ensures !(r.Attempted? && r.r.Success?) ==> shots == old(shots)
    {
      var htmlFile := thumbnailId + ".html";
      if !fs.Exists(Output + [htmlFile]) {
        return PageMissing;
      }
      var launched := Initialize();
      if !launched {
        return LaunchRaised;
      }
      var c := CaptureScreenshot(htmlFile, thumbnailId + "." + cfg.screenshotFormat);
      Close();
      return Attempted(c);
    }
  }
}
