/** What the two screenshot backends share: the headless browser they drive,
    the environment it runs in, and what a screenshot shows. The browser is
    foreign code, so how it behaves on a given page is part of the
    environment: whether `launch` raises, the pages whose `goto` raises
    (a navigation timeout or an unreachable file), and the pages on which
    the selector `.relative.w-full.max-w-4xl` finds the thumbnail element. */
module Capture {
  import opened FileSystem

  datatype Env = Env(launchFails: bool, navFails: set<Path>, regionPages: set<Path>)

  /** A screenshot file: of the thumbnail element, or of the viewport
      (`fullPage: false`) when the element is not found. */
  datatype Shot = Element(page: Path) | Viewport(page: Path)

  /** The screenshot a capture of `page` takes. */
  function ShotOf(env: Env, page: Path): (r: Shot)
    ensures r.page == page
    ensures r.Element? <==> page in env.regionPages
  {
    if page in env.regionPages then Element(page) else Viewport(page)
  }

  /** Why a `captureScreenshot` call raises. */
  datatype CaptureError =
    | NoBrowser              // `this.browser` is null or closed, so `newPage` raises
    | HtmlMissing(html: Path)
    | NavFailed(html: Path)  // `goto` raises

  /** An acquired browser: whether it is still open, and how many of its
      pages were opened and not closed. */
  class Browser {
    var open: bool
    var pages: nat

    /** `launch()` that gets through. */
    constructor ()
      ensures open && pages == 0
    {
      open := true;
      pages := 0;
    }

    /** `browser.newPage()`: raises once the browser is closed. */
    method NewPage() returns (ok: bool)
      modifies this
      ensures ok == old(open) && open == old(open)
      ensures pages == if ok then old(pages) + 1 else old(pages)
    {
      ok := open;
      if ok {
        pages := pages + 1;
      }
    }

    /** `page.close()` on one of the open pages. */
    method ClosePage()
      requires pages > 0
      modifies this
      ensures open == old(open) && pages == old(pages) - 1
    {
      pages := pages - 1;
    }

    /** `browser.close()`: the browser and every page it still has. */
    method Close()
      modifies this
      ensures !open && pages == 0
    {
      open := false;
      pages := 0;
    }
  }
}
