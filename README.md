# thumbnail-factory, modelled in Dafny

thumbnail-factory turns a JSON catalog of thumbnail records into one HTML
page per record and then photographs each page with a headless browser.
This project models the five modules that do this work, and proves
properties of the model:

- the **validator** checks the catalog, the template and the asset folders
  and collects errors and warnings;
- the **generator** loads the catalog and template, expands the fourteen
  `{{NAME}}` tokens of the template for each record, creates the output
  folders, copies the image assets and writes the pages;
- the **Playwright backend** regenerates the pages, then takes one PNG per
  record folder. It names each file after the record's `filename`;
- the **Puppeteer backend**, the older one, takes one screenshot of every
  `.html` file in the output folder;
- the **logger** filters entries by severity, formats them and appends
  them to a log file.

The model follows the form of the code:

- Each JavaScript class is a Dafny class whose fields are the state the
  code mutates:
  - the validator's `errors` and `warnings` lists;
  - the filesystem as a set of directories and a map of file texts;
  - the browser handle, the catalog cache and the screenshots taken;
  - the log file's text.
- The pure parts are functions with lemmas about them: the checks, token
  expansion, output paths and log-line formatting.
- The statement loops of the code are `while` or `for` loops in methods:
  - the validator's record loop and its placeholder loop;
  - the token-replacement loop;
  - the asset copy loop;
  - the record loop of `generateAll`;
  - the folder loop of the Playwright backend and the page loop of the
    Puppeteer backend.

  Their invariants tie each loop to a specification function. Lemmas
  prove what the code promises about that function.
- Array-method chains that only compute a value become recursive
  functions: `map`, `filter`, `find`, `indexOf`, and the `forEach` of
  `listThumbnails` that only prints. These are `Catalog.Ids`,
  `Catalog.FindById`, `Validator.Duplicates`, `Generator.ListRecords`,
  `Playwright.Subdirs` and `Puppeteer.HtmlCandidates`.
- Each state-changing operation is stated against a function of the state
  before it:
  - one record of `generateAll` is `Generator.RecordStep`;
  - the whole loop is `Generator.RunRecords`;
  - `generateSingle` is `Generator.SingleRun`;
  - the Playwright folder loop is `Playwright.FolderRun`;
  - the Puppeteer page loop is `Puppeteer.CandidateShots`.

  Lemmas about these functions give the success conditions as
  if-and-only-if statements. They also show what nothing else changes.

Some facts proved about the model:

- Validation passes exactly when:
  - the template exists;
  - the catalog parses and has a `thumbnails` array;
  - every record has an id, a complete title, badge text, a description,
    a founder image and well-formed colours;
  - no id repeats.
- Warnings never affect the verdict. Any number of repeated ids gives a
  single duplicate error. A template gets one warning per required token
  it lacks.
- In `generateAll` of the generator, a record's turn of the loop writes
  its page exactly when nothing in the tree at that point blocks the
  record's folders or page. Each written
  record has its expansion at its page path. Pages of earlier records
  survive later records and asset copies. The `errors` array lists the id
  and reason of each failed record, in record order.
- `generateAll` writes every page and reports no error from a *clear*
  state:
  - the inputs pass validation;
  - every record expands;
  - the screenshot sub-folder is not named like a page;
  - no file sits where a record's folder must go, and no folder sits at a
    page path.
- `generateSingle` returns `true` exactly when validation passes, the id
  is in the catalog, its text expands, and its folders and page can be
  made. Once the id is found, it raises exactly when one of the folders
  cannot be made.
- Token expansion is applied token by token. The template of one token
  alone expands to that token's value. That value is then rewritten by
  any later token it contains.
- The Playwright backend loads the page the generator wrote. It closes
  every page it opens and every browser it launches. It reads a catalog
  that parses from disk at most once.
  - Each record folder, when its page loads, gets its screenshot at the
    path named by the record's `filename`, and no other path changes.
  - A run ends fatally exactly when the output listing or the launch
    raises.
  - In flat-folder mode its `generateAll` never reports success: with no
    record folders there is nothing to capture.
- The Puppeteer backend leaves a page open on every failed capture, since
  it has no `finally` for the page. It names each screenshot after its page,
  and distinct pages get distinct names. A page gets its screenshot
  exactly when it loads.
- The logger writes an entry exactly when the level passes the threshold,
  file logging is on and the append works. Error entries always pass a
  valid threshold.

Replacement is not a single pass. The code runs one global replace per
token, in table order, each over the previous result. A value that
contains a later token is therefore rewritten again:

- `Expander.ApplyAll` is the sequential fold.
- `Expander.LaterTokenRewritesValue` proves the re-substitution.

Validation does not rule such values out: a title line that spells
`{{DESCRIPTION}}` passes every check.

Outside influences are parameters of the model:

- The browser is foreign code. Its behaviour on a page is an `Env`:
  - whether `launch` raises;
  - the pages whose `goto` raises;
  - the pages on which the thumbnail element is found.
- The clock is the timestamp passed to each logger call.
- The `LOG_LEVEL` environment variable is a constructor argument.
- The catalog and the template are read-only `Inputs` values.
- A source file whose copy raises is in the filesystem's `uncopyable` set.

## Model

| member | source | states |
|---|---|---|
| Catalog.Ids | src/validator.js:94 | the id list has one entry per record, the record's own id |
| Catalog.FindById | src/generator.js:234 | returns the first record whose id equals the argument, or none when no record has it |
| Strings.StripSuffix | src/screenshot.js:84 | the result with the suffix appended is the original name |
| Strings.StripAppended | src/screenshot.js:84-85 | a stem with `.html` appended ends in `.html`, and stripping that suffix gives back the stem |
| Strings.ReplaceAllAbsent | src/generator.js:85 | a global replace of a pattern the string does not contain changes nothing |
| Strings.ReplaceAllSelf | src/generator.js:85 | replacing a pattern by itself is the identity |
| Strings.ReplaceAllLength | src/generator.js:85 | the result's length is the input's, plus, per rewritten occurrence, the value's length minus the pattern's |
| Strings.OccurrencesPositive | src/generator.js:85 | a replace rewrites something exactly when the pattern occurs |
| Strings.ReplaceAllWhole | src/generator.js:85 | a string that is exactly the pattern becomes exactly the value |
| FileSystem.Fs.MkdirP | src/generator.js:93 | recursive mkdir succeeds exactly when no prefix is a file, and then adds every prefix as a directory; files are untouched |
| FileSystem.Fs.WriteFile | src/generator.js:195 | a write succeeds exactly when the parent is a directory and the target is not, and then sets that one file's text |
| FileSystem.Fs.CopyFile | src/generator.js:139 | a copy succeeds exactly when the source is a copyable file and the target's parent is a directory, and then gives the target the source's text |
| FileSystem.Fs.ListDir | src/generator.js:130 | listing fails unless the path is a directory; it lists each child exactly once |
| Validator.HexColorIff | src/validator.js:54-56 | a colour is valid exactly when it is `#` followed by six hex digits of either case |
| Validator.IdConventionIff | src/validator.js:17-19 | an id meets the convention exactly when it is non-empty and made of `a-z`, `0-9` and `-` |
| Validator.RecordErrorsIff | src/validator.js:11-52 | one error per failed check, and a finding is a record error exactly when its check fails |
| Validator.RecordErrorsAreErrors | src/validator.js:11-52 | record findings on the error side are never warnings and never the duplicate-id error |
| Validator.RecordWarningsIff | src/validator.js:15-40 | a record warns exactly for an unconventional id and for a founder image missing from the images folder |
| Validator.RecordErrorsEmpty | src/validator.js:11-52 | a record has no errors exactly when it passes all seven checks |
| Validator.AllRecordErrorsEmpty | src/validator.js:88-92 | the record loop adds no error exactly when every record passes its checks |
| Validator.IndexOf | src/validator.js:95 | `indexOf` gives the first position of the id, or -1 exactly when the id is absent |
| Validator.DuplicatesEmptyIffDistinct | src/validator.js:94-96 | the duplicate filter is empty exactly when all ids are distinct |
| Validator.DuplicatesListLaterOccurrences | src/validator.js:95-97 | an id is listed as duplicate once per occurrence after its first |
| Validator.DuplicateFinding | src/validator.js:96-98 | at most one duplicate finding, present exactly when some id repeats, and it lists the duplicates |
| Validator.OneDuplicateError | src/validator.js:88-98 | however often ids repeat, the data-file check reports exactly one duplicate error, and none for distinct ids |
| Validator.EarlyExitIsSingleError | src/validator.js:61-82 | a missing file, a parse failure or a missing `thumbnails` array gives one error, and the only possible warning is the missing-defaults one |
| Validator.MissingPlaceholdersIff | src/validator.js:112-122 | the template warns exactly for each listed token it does not contain, and never more often than there are tokens |
| Validator.MissingPlaceholdersCount | src/validator.js:118-122 | over distinct tokens there is exactly one warning per token the template lacks |
| Validator.RequiredPlaceholdersDistinct | src/validator.js:112-116 | the nine required tokens are pairwise different |
| Validator.TemplateWarningsCount | src/validator.js:103-125 | a template that exists gets exactly as many warnings as there are required tokens it lacks |
| Validator.PassesIff | src/validator.js:139-165 | validation passes exactly when the template exists, the catalog parses with a thumbnails array, every record is valid and ids are distinct |
| Validator.PassedIdsIdentify | src/validator.js:88-100 | after a pass every record has a truthy id and no two records share an id |
| Validator.Validator.constructor | src/validator.js:6-9 | a new validator has no errors and no warnings |
| Validator.Validator.ValidateThumbnailData | src/validator.js:11-52 | returns exactly the record's errors and warnings, in check order |
| Validator.Validator.ValidateRecords | src/validator.js:88-92 | appends every record's errors and warnings, in record order |
| Validator.Validator.ValidateDocument | src/validator.js:75-100 | appends the parsed catalog's errors and warnings, including the defaults, empty-array and duplicate checks |
| Validator.Validator.ValidateDataFile | src/validator.js:58-101 | appends the data file's findings; the result is true exactly when no error has been recorded |
| Validator.Validator.ValidateTemplate | src/validator.js:103-125 | a missing template is the one error; otherwise one warning per missing required token, and the result is whether the template exists |
| Validator.Validator.ValidateAssets | src/validator.js:127-137 | only warnings, one per missing images or logos folder; always true |
| Validator.Validator.Validate | src/validator.js:139-165 | runs all three checks; on a fresh validator it passes exactly when the inputs pass |
| Expander.NamesDistinct | src/generator.js:66-81 | the table's token names are pairwise different |
| Expander.TokensAreApart | src/generator.js:66-81 | no token of the table occurs inside another |
| Expander.StatusBadgeHtml | src/generator.js:52-61 | the badge markup is empty exactly when no badge is shown, and otherwise contains the badge text |
| Expander.ValuesFailure | src/generator.js:63-81 | building the table fails exactly when the defaults, the theme or branding defaults, the title or the badge are absent |
| Expander.ValuesTheme | src/generator.js:64-70 | the theme overlay key by key: a colour the record's theme carries overrides the default theme's, a colour it lacks comes from the default theme, and without a record theme both colours are the defaults; the gradient always comes from the defaults |
| Expander.ValuesText | src/generator.js:67-80 | the title value joins the three lines with ` - TKTurners`; image values are prefixed with `assets/images/` |
| Expander.ApplyAllAbsent | src/generator.js:83-88 | a template holding none of the tokens passes through unchanged |
| Expander.ExpandedAbsent | src/generator.js:63-89 | an expansion of a token-free template that succeeds is the template itself |
| Expander.ApplyAllSkip | src/generator.js:83-88 | tokens a string does not contain leave it as it is |
| Expander.EntryExpands | src/generator.js:83-88 | with tokens apart, the template of token k alone becomes token k's value, then only later tokens act on it |
| Expander.ExpandToken | src/generator.js:83-88 | the template of one table token becomes its value, rewritten only by later tokens |
| Expander.TitleLineRewritten | src/generator.js:83-88 | a value spelling a later token is replaced again by that token's value |
| Expander.LaterTokenRewritesValue | src/generator.js:74-88 | a first title line of `{{DESCRIPTION}}` shows the description in the page |
| Expander.ReplacePlaceholders | src/generator.js:63-89 | the replace loop computes the table expansion, or fails as building the table fails |
| Layout.Ensured | src/generator.js:92-94 | the exists-then-mkdir step fails exactly when nothing is there and a prefix is a file; it only adds prefixes of the path |
| Layout.EnsureAll | src/generator.js:91-111 | after the steps succeed every folder exists; they succeed when every path can be made; only prefixes are added |
| Layout.EnsureAllIdempotent | src/generator.js:91-111 | running the same folder steps twice changes nothing more |
| Layout.OutputDirReady | src/generator.js:91-111 | after success the folder returned and, per record, its screenshot sub-folder exist |
| Layout.PagePathsDistinct | src/generator.js:188-189 | records with different ids get different page paths, all of one depth |
| Layout.AssetsFor | src/generator.js:115-119 | the asset folder sits two levels under the record's output folder, inside `output` |
| Layout.Copied | src/generator.js:125-145 | nothing is copied without the images folder; otherwise exactly the regular files whose copy goes through |
| Layout.AfterCopiesOutside | src/generator.js:133-145 | the copy loop writes nothing outside the asset folder |
| Layout.AfterCopiesSpec | src/generator.js:133-145 | whatever the listing order, the loop copies exactly the copyable files and counts them |
| Layout.CopyIsAfterCopy | src/generator.js:113-153 | the state `copyAssets` leaves, as its method states it, is the one tree the copy function describes |
| Layout.AssetsFolderKeepsPage | src/generator.js:119-123 | making a record's asset folder changes neither whether its folder is a directory nor whether a folder sits at its page path |
| Layout.ReadyWritable | src/generator.js:188-195 | a record whose folders can be made, with no folder at its page path, can have its page written unless the screenshot sub-folder has the page's name |
| Layout.OtherStaysReady | src/generator.js:180-203 | one record's run, which adds only inside its own area, leaves every other record's folders and page unblocked |
| Layout.PrepKeepsReady | src/generator.js:169-174 | making the output folder, and in the flat layout copying the assets into it, leaves a record unblocked |
| Generator.ValidatedInputsLoad | src/generator.js:160-167 | after validation passes both loaders succeed and the catalog has its `thumbnails` array |
| Generator.SummaryLines | src/generator.js:267-271 | a record lists four lines, starting with its id, exactly when it has a title and a badge |
| Generator.ListRecordsRaises | src/generator.js:264-273 | the listing raises exactly when some record lacks a title or a badge |
| Generator.ListRecordsComplete | src/generator.js:264-273 | a listing that does not raise has four lines per record, the block of record k opening with its id |
| Generator.SummaryTheme | src/generator.js:271 | the theme line shows a truthy primary colour, and `default` otherwise |
| Generator.CopiesKeepPages | src/generator.js:133-145 | a copy pass removes no file and changes no page |
| Generator.WrittenKept | src/generator.js:180-203 | a step that keeps other pages keeps every page already written |
| Generator.SucceededCount | src/generator.js:197 | the success counter is the number of records whose page was written |
| Generator.FailuresFrom | src/generator.js:198-201 | every entry of `errors` names a failed record's id and the reason it failed |
| Generator.TracedStep | src/generator.js:180-203 | one turn of the loop extends its trace; the success counter grows exactly on a success, and a failure appends its id and reason to `errors` |
| Generator.TracedRun | src/generator.js:180-203 | a trace of the loop over the first n records has the outcomes and final tree of the run over those records |
| Generator.TracedWhole | src/generator.js:180-203 | a trace over all records is the whole run |
| Generator.WritePageSucceeds | src/generator.js:188-195 | a record's page is written exactly when nothing in the tree blocks its folders or its page; the per-record asset copy, made whatever `copyAssets` says, never blocks it |
| Generator.WritePageKeeps | src/generator.js:188-195 | a record's step only adds folders; a success puts the text at the page path; a failure is a folder or write failure; no file vanishes and every other page keeps its text |
| Generator.WritePageFootprint | src/generator.js:188-195 | a record's step adds folders and files only inside that record's area of the tree |
| Generator.RecordStepClears | src/generator.js:181-197 | from a tree where nothing blocks the record, its step succeeds and leaves every later record with another id unblocked |
| Generator.PreparedFootprint | src/generator.js:169-174 | preparing adds only the output folder and, in the flat layout, its asset folder and the files copied there |
| Generator.PreparedReady | src/generator.js:169-174 | preparing leaves every record unblocked |
| Generator.RunRecordsSucceed | src/generator.js:180-203 | from a tree where no record is blocked and every record expands, the first n records all succeed and the rest stay unblocked |
| Generator.AllRecordsSucceed | src/generator.js:169-203 | completeness: with no record blocked, every record expanding and the screenshot sub-folder not named like a page, every record is written and `errors` is empty |
| Generator.RunRecordsWritten | src/generator.js:180-203 | soundness: each record counted as written has its expansion at its page when the loop ends |
| Generator.RunRecordsIdentified | src/generator.js:182-184 | with truthy ids no error is a missing id |
| Generator.GeneratedWritten | src/generator.js:159-203 | on inputs that pass validation each record counted as written has its page, and no error is a missing id |
| Generator.ClearRunComplete | src/generator.js:155-216 | from a clear state the output folder can be made and the run records no error |
| Generator.SingleWriteSucceeds | src/generator.js:243-257 | once the record is found its page is written exactly when its text expands and nothing blocks its folders or page; the asset copy never blocks it |
| Generator.SingleRunRaises | src/generator.js:226-243 | `generateSingle` raises exactly when validation passes, the id is found and one of its folders cannot be made; the error is that folder failure |
| Generator.SingleRunSucceeds | src/generator.js:223-262 | `generateSingle` answers true exactly when validation passes, the id is found, its text expands and nothing blocks its folders or page |
| Generator.ThumbnailGenerator.constructor | src/generator.js:8-10 | the generator holds the configuration, the filesystem and the inputs |
| Generator.ThumbnailGenerator.EnsureDir | src/generator.js:92-94 | a folder step succeeds as `Ensured` says and changes only the folders |
| Generator.ThumbnailGenerator.EnsureOutputDir | src/generator.js:91-111 | the folders are ensured in order; on success the result is the record's output folder; files are untouched |
| Generator.ThumbnailGenerator.CopyAssets | src/generator.js:113-153 | the count is the number of files copied, and the files after are the files before plus exactly those copies |
| Generator.ThumbnailGenerator.CopyEntry | src/generator.js:134-144 | one asset is copied exactly when it is a copyable file, and nothing else changes |
| Generator.ThumbnailGenerator.CopyEntries | src/generator.js:133-145 | the loop leaves the files as the copy specification says and counts the copies |
| Generator.ThumbnailGenerator.GenerateRecord | src/generator.js:181-197 | the outcome and the new tree are the record's step: a missing id or a failed expansion changes nothing, otherwise the page write |
| Generator.ThumbnailGenerator.WritePage | src/generator.js:188-195 | the outcome and the new tree are the record's write step, whose success and effects the lemmas above state |
| Generator.ThumbnailGenerator.GenerateRecords | src/generator.js:176-203 | the loop follows the per-record step from the tree before it to the tree after; `pages` are the records written; `errors` are the failures' ids and reasons in record order; the counts add up |
| Generator.ThumbnailGenerator.Validate | src/generator.js:159-160 | the result is whether the inputs pass validation |
| Generator.ThumbnailGenerator.Prepare | src/generator.js:169-174 | succeeds exactly when the output folder can be made, and then leaves the prepared tree; a failure changes nothing |
| Generator.ThumbnailGenerator.GenerateAll | src/generator.js:155-221 | a run that does not get past the output folder answers false and changes nothing; otherwise the tree, `pages` and `errors` are the run's; true exactly when a page was written; each counted page is written; no error is a missing id; from a clear state every record is written without error |
| Generator.ThumbnailGenerator.GenerateSingle | src/generator.js:223-262 | true exactly when validation passes, the id is found, its text expands and nothing blocks its folders or page; it raises exactly when a folder cannot be made; invalid inputs or an unknown id change nothing; the new tree is the single run's |
| Capture.Browser.constructor | src/screenshot-playwright.js:33-36 | a launched browser is open with no pages |
| Capture.Browser.NewPage | src/screenshot-playwright.js:53 | a page opens exactly when the browser is open |
| Capture.Browser.ClosePage | src/screenshot-playwright.js:100-102 | closing a page leaves one page fewer |
| Capture.Browser.Close | src/screenshot-playwright.js:44-48 | a closed browser has no pages |
| Playwright.CapturesGeneratedPage | src/screenshot-playwright.js:60-62 | the page the capture loads is the page the generator wrote, in both layouts |
| Playwright.ShotInSubfolder | src/screenshot-playwright.js:74-76 | per record, the screenshot lands in the sub-folder the generator creates |
| Playwright.ShotIsNotPage | src/screenshot-playwright.js:74-76 | a PNG screenshot never overwrites a generated page |
| Playwright.ShotPathsDistinct | src/screenshot-playwright.js:74-76 | different records, or different file names, give different screenshots |
| Playwright.FilenameOfRecord | src/screenshot-playwright.js:24-28 | with distinct ids, a record's screenshot is named by its truthy `filename`, or by its id |
| Playwright.FilenameFallback | src/screenshot-playwright.js:24-28 | an unknown id names the screenshot itself; the name is never empty |
| Playwright.Subdirs | src/screenshot-playwright.js:120-126 | the folder filter keeps exactly the listed entries that are directories, without repeats |
| Playwright.SkippedBound | src/screenshot-playwright.js:139-146 | a folder that has its page is not skipped |
| Playwright.FolderRunCounts | src/screenshot-playwright.js:135-160 | captured, failed and skipped add up to the folders seen; skipped are the folders without their page; failures are the errors listed; per record, successes are the folders whose page loads |
| Playwright.FolderRunErrors | src/screenshot-playwright.js:151-158 | every error names a folder seen that has its page but whose capture raised, with the reason: page missing at the load path, or `goto` failed |
| Playwright.FolderRunShot | src/screenshot-playwright.js:139-160 | over distinct folders, a folder's screenshot is there exactly when its page loads (or it was there before), and it shows that page |
| Playwright.FolderRunKeeps | src/screenshot-playwright.js:139-160 | screenshots taken before the loop stay |
| Playwright.FolderRunOnly | src/screenshot-playwright.js:139-160 | a path that is no loading folder's screenshot keeps its value, and each new screenshot belongs to a folder whose page loads |
| Playwright.PlaywrightScreenshots.constructor | src/screenshot-playwright.js:9-13 | no browser, an empty cache, no reads and no screenshots |
| Playwright.PlaywrightScreenshots.LoadThumbnailData | src/screenshot-playwright.js:15-22 | yields the document exactly when the catalog parses; the file is read only when the cache is empty |
| Playwright.PlaywrightScreenshots.GetFilename | src/screenshot-playwright.js:24-28 | a name exactly when the catalog loads, namely the record's filename or the id; at most one more read |
| Playwright.PlaywrightScreenshots.Initialize | src/screenshot-playwright.js:30-42 | succeeds exactly when the launch does, with a fresh open browser; otherwise the handle is kept |
| Playwright.PlaywrightScreenshots.Close | src/screenshot-playwright.js:44-48 | an acquired browser ends closed with no pages |
| Playwright.PlaywrightScreenshots.CaptureScreenshot | src/screenshot-playwright.js:50-104 | succeeds exactly when the browser is open and the page exists and loads; then the screenshot at the computed path is of the element exactly when the page has it; a missing page or a failing `goto` gives its error; a failure records nothing; no page is left open |
| Playwright.PlaywrightScreenshots.ListFolders | src/screenshot-playwright.js:118-126 | no folders in flat mode; otherwise every directory under the output, once, and none when the listing raises |
| Playwright.PlaywrightScreenshots.CaptureFolders | src/screenshot-playwright.js:139-160 | completes exactly when the catalog loads or every folder is skipped; then counts, errors and screenshots are the folder run's; otherwise no screenshot is recorded |
| Playwright.PlaywrightScreenshots.CaptureRun | src/screenshot-playwright.js:116-183 | per-record mode with no folder ends with false; a listing or launch that raises ends fatally with the browser closed; otherwise every folder is captured as the folder run says and the browser ends closed |
| Playwright.PlaywrightScreenshots.GenerateAll | src/screenshot-playwright.js:106-183 | nothing is captured unless the generator answers true; the tree is the generator's run; the capture ends as `CaptureRun` says; true exactly when a screenshot was taken; flat mode is never a success |
| Playwright.PlaywrightScreenshots.GenerateSingle | src/screenshot-playwright.js:185-229 | true exactly when the generator writes the page, the launch works and the page loads; then exactly the record's screenshot is added, otherwise no screenshot changes; the tree is the single run's; a launched browser is closed |
| Playwright.PlaywrightScreenshots.CaptureOne | src/screenshot-playwright.js:197-221 | true exactly when the page exists, the launch works and the page loads; then exactly the screenshot under the record's filename is added, otherwise none; a missing page launches nothing |
| Playwright.PlaywrightScreenshots.Regenerate | src/screenshot-playwright.js:110-114 | answers the generator's result and leaves its tree; a clear state with records always regenerates |
| Playwright.PlaywrightScreenshots.RegenerateOne | src/screenshot-playwright.js:189-193 | answers true exactly when the generator writes the record's page, and leaves the generator's tree |
| Puppeteer.HtmlCandidates | src/screenshot.js:69-70 | exactly the listed names ending in `.html`, without repeats |
| Puppeteer.SingleNameAgrees | src/screenshot.js:119 | the single capture names the screenshot as the batch capture names that page's |
| Puppeteer.ShotNamesDistinct | src/screenshot.js:84-85 | different pages get different screenshot names |
| Puppeteer.ShotPathsApart | src/screenshot.js:84-85 | different pages get different screenshot paths |
| Puppeteer.CandidateShot | src/screenshot.js:83-95 | over distinct pages, a page's screenshot is there exactly when it loads (or was there before), and it shows that page |
| Puppeteer.CandidateOnly | src/screenshot.js:83-95 | a path that is no loading page's screenshot keeps its value |
| Puppeteer.PuppeteerScreenshots.constructor | src/screenshot.js:7-9 | no browser and no screenshots |
| Puppeteer.PuppeteerScreenshots.Initialize | src/screenshot.js:11-24 | succeeds exactly when the launch does, with a fresh open browser |
| Puppeteer.PuppeteerScreenshots.Close | src/screenshot.js:26-30 | an acquired browser ends closed |
| Puppeteer.PuppeteerScreenshots.CaptureScreenshot | src/screenshot.js:32-64 | succeeds exactly when the browser is open and the page exists and loads; a failure after the page opened leaves that page open |
| Puppeteer.PuppeteerScreenshots.CaptureAll | src/screenshot.js:83-95 | successes and failures add up to the pages; successes are the pages that load; the screenshots are the page loop's |
| Puppeteer.PuppeteerScreenshots.GenerateAll | src/screenshot.js:66-103 | no page launches nothing; it rejects exactly when the listing or the launch raises; a finished run took each distinct `.html` page once, closed its browser, and its screenshots are the page loop's; otherwise none changes |
| Puppeteer.PuppeteerScreenshots.GenerateSingle | src/screenshot.js:105-129 | a missing page launches nothing; the capture is attempted exactly when the page exists and the launch works; it succeeds exactly when the page loads, and then exactly that page's screenshot is added |
| Logging.RankTable | src/logger.js:10-15 | exactly the four level names have a rank, ordered by severity |
| Logging.ShouldLogMonotone | src/logger.js:29-31 | a logged level stays logged under a more verbose threshold, and more severe levels are logged too |
| Logging.ThresholdExtremes | src/logger.js:29-31 | errors pass every valid threshold; debug passes only `debug`; an unknown threshold logs nothing |
| Logging.DefaultThreshold | src/logger.js:29-31 | the default `info` threshold logs everything but debug |
| Logging.UpperNames | src/logger.js:36 | upper-casing the level names gives the labels `ERROR`, `WARN`, `INFO` and `DEBUG` |
| Logging.FormatLayout | src/logger.js:33-37 | the line is the bracketed timestamp, the bracketed label, the message, then the data only when there is some |
| Logging.FormatDistinguishesMessages | src/logger.js:33-37 | lines with the same time, level and data differ exactly when their messages do |
| Logging.Logger.constructor | src/logger.js:5-20 | the threshold is the option when truthy, else a truthy `LOG_LEVEL`, else `info`, and never empty; the log file starts empty |
| Logging.Logger.WriteToFile | src/logger.js:39-47 | the line is appended exactly when file logging is on and the append works |
| Logging.Logger.Entry | src/logger.js:49-55 | an entry is written exactly when file logging works and the level passes the threshold |
| Logging.Logger.Emit | src/logger.js:49-55 | one gated call appends exactly its entry |
| Logging.Logger.Error | src/logger.js:49-55 | appends the error entry |
| Logging.Logger.Warn | src/logger.js:57-63 | appends the warn entry |
| Logging.Logger.Info | src/logger.js:65-71 | appends the info entry |
| Logging.Logger.Debug | src/logger.js:73-79 | appends the debug entry |
| Logging.Logger.Success | src/logger.js:81-87 | gated like `info` and labelled `INFO` |
| Logging.ErrorsReachTheFile | src/logger.js:49-55 | under a valid threshold with working file logging, an error is always written, as its formatted line |

## Definitions

These members define what the code computes. The lemmas and methods in
the table above state their properties:

- `Expander.Tokens` (src/generator.js:66-81): the replacement table's tokens, in table order.
- `Expander.Overlay` (src/generator.js:64): one key of `{ ...defaults.theme, ...data.theme }`.
- `Expander.Values` (src/generator.js:63-81): the replacement table of one record.
- `Expander.ApplyAll` (src/generator.js:83-88): the replace loop as a fold over the table.
- `Expander.Expanded` (src/generator.js:63-89): `replacePlaceholders` as a value.
- `Strings.ReplaceAll` (src/generator.js:85): a global replace of a literal pattern.
- `Validator.IsValidHexColor` (src/validator.js:54-56) and `Validator.MatchesIdConvention` (src/validator.js:17): the two regular expressions.
- `Validator.RecordErrors` and `Validator.RecordWarnings` (src/validator.js:11-52): the findings of one record.
- `Validator.Duplicates` (src/validator.js:94-96): the ids that occur at an earlier position too.
- `Validator.DataFileErrors` and `Validator.DataFileWarnings` (src/validator.js:58-101): the findings of the data file.
- `Validator.MissingPlaceholders` (src/validator.js:118-122): one warning per token missing from the template.
- `Layout.OutputDirFor`, `Layout.OutputDirs` and `Layout.PagePath` (src/generator.js:91-111, 188-189): the folders of a record and its page path.
- `Generator.LoadData` (src/generator.js:12-33) and `Generator.LoadTemplate` (src/generator.js:35-50): the loaders.
- `Generator.ListRecords` and `Generator.ListThumbnails` (src/generator.js:264-273): the summary of `listThumbnails`.
- `Generator.RecordStep`, `Generator.RunRecords` and `Generator.GenerateAllRun` (src/generator.js:169-203): one record of the loop, the loop, and the loop from the prepared tree.
- `Generator.SingleRun` and `Generator.SingleWrite` (src/generator.js:223-262): `generateSingle` as a value.
- `Capture.ShotOf` (src/screenshot-playwright.js:78-93): the element or the viewport.
- `Playwright.HtmlPath`, `Playwright.ShotPath` and `Playwright.FilenameFor` (src/screenshot-playwright.js:24-28, 60-76): the paths of one capture.
- `Playwright.Skipped`, `Playwright.Capturable` and `Playwright.FolderRun` (src/screenshot-playwright.js:139-160): the folder loop.
- `Puppeteer.ShotName`, `Puppeteer.Loadable` and `Puppeteer.CandidateShots` (src/screenshot.js:83-95): the page loop.
- `Logging.Rank`, `Logging.ShouldLog` and `Logging.FormatMessage` (src/logger.js:10-37): the level table, the gate and the line format.
- `Logging.ChosenLevel` (src/logger.js:6) and `Logging.Upper` (src/logger.js:36): the threshold choice and `toUpperCase`.
- `Expander.ThemeKey` (src/generator.js:64-68): the effective colour for one theme key.
- `FileSystem.Fs.Exists`, `FileSystem.Fs.IsDir` and `FileSystem.Fs.Children` (src/generator.js:92, 130; src/screenshot-playwright.js:121-125): `existsSync`, `statSync(p).isDirectory()` and `readdirSync`.
- `FileSystem.Makeable` (src/generator.js:93): no prefix of a path is a regular file, so `mkdirSync(p, { recursive: true })` cannot fail.
- `Validator.TitleComplete`, `Validator.HasBadgeText`, `Validator.BadColor`, `Validator.BadPrimary`, `Validator.BadAccent`, `Validator.ImageMissing` and `Validator.BadId` (src/validator.js:15-49): the per-record checks.
- `Validator.RecordValid` (src/validator.js:15-49): a record that passes all seven error checks.
- `Validator.AllRecordErrors` and `Validator.AllRecordWarnings` (src/validator.js:88-92): the findings the record loop of `validateDataFile` adds.
- `Validator.TemplateErrors` and `Validator.TemplateWarnings` (src/validator.js:103-125): the findings of `validateTemplate`.
- `Validator.AssetWarnings` (src/validator.js:127-137): the findings of `validateAssets`.
- `Validator.Passes` (src/validator.js:139-164): `validate()` returns `true`, that is `errors.length === 0` after the three validations.
- `Layout.CopyOk` (src/generator.js:135-141): one asset is a regular file, and its copy into the asset folder goes through.
- `Layout.AfterCopies` and `Layout.CopyCount` (src/generator.js:130-148): the files and `copiedCount` after the `forEach` over the image folder.
- `Layout.AfterCopy` (src/generator.js:113-153): the tree after `copyAssets`.
- `Layout.CopiedFiles` (src/generator.js:133-145): the files after the loop are the old files plus one copy per copyable name.
- `Layout.PageWritable` (src/generator.js:188-195): the record's folders are made and `writeFileSync` of its page goes through.
- `Layout.RecordReady` (src/generator.js:188-195): nothing in the tree blocks the record's folders or page.
- `Generator.WritePageStep` (src/generator.js:188-195): the folders, the per-record asset copy and the page write of one record, with the new tree.
- `Generator.Prepared` (src/generator.js:169-174): the tree after `ensureOutputDir()` and the flat asset copy.
- `Generator.Traced` (src/generator.js:180-203): the trace of the record loop, one outcome and one tree per record.
- `Generator.Succeeded` and `Generator.Failures` (src/generator.js:197, 200): the records counted in `successCount`, and the `errors` array.
- `Generator.Clear` (src/generator.js:155-216): a state from which `generateAll` writes every page.
- `Generator.SingleWrites` (src/generator.js:223-262): a state from which `generateSingle(id)` returns `true`.
- `Generator.ThumbnailGenerator.Reached` (src/generator.js:159-169): the run gets past validation and `ensureOutputDir()`.
- `Playwright.Loads` and `Playwright.FolderShot` (src/screenshot-playwright.js:60-76, 140-152): a folder's page is there and loads, and the path its screenshot goes to.
- `Playwright.FailedFolder` (src/screenshot-playwright.js:151-159): an entry of `errors` names a folder whose capture raised.
- `Playwright.PlaywrightScreenshots.CapturedAs` (src/screenshot-playwright.js:118-182): how the capture part of `generateAll` ends.
- `Playwright.Regenerates` (src/screenshot-playwright.js:110-114): the generator's `generateAll` returns `true`, so the backend goes on to capture.
- `Puppeteer.PageLoads` (src/screenshot.js:41-42): the page `output/<htmlFile>` is there and `goto` gets through.

## Left out

- Configuration: `src/config.js` is not part of this model. Its values are the `Settings` datatype and the fixed paths `output`, `assets/images` and `assets/logos`.
- The command-line entry blocks (`require.main === module`) and their argument handling.
- Console output, emoji and summary lines are left out. The generator's `listThumbnails` output is modelled as lines, without the header.
- Logger calls made by the generator and the backends: in the code they append to the log file, but no class of this model calls `Logging.Logger`, and the logger is modelled on its own.
- File contents are text, not bytes. Asset copying copies the text.
- JSON decoding is an input: the catalog is `NotFound`, `Unparseable` or a decoded `Document`. JSON `null` and non-string field values are treated as absent. A non-boolean `statusBadge.show` is not modelled.
- A catalog whose whole text is JSON `null` parses, and then `data.defaults` raises in `validateDataFile` (src/validator.js:75). A `null` entry in `thumbnails` makes `data.id` raise in `validateThumbnailData` (src/validator.js:15). Neither is modelled: the catalog is always an object and so is each record. In the code, such a raise escapes `validate()` (src/validator.js:139-144) and the generator's `generateSingle` (src/generator.js:227). The generator's `generateAll` catches it and returns `false` (src/generator.js:156, 217-220). So do the Playwright backend's `generateAll` (src/screenshot-playwright.js:107, 176-182) and `generateSingle` (src/screenshot-playwright.js:186, 222-228).
- `JSON.stringify` of log data is passed in as the serialised string.
- Replacement values containing `$&`, `$1` or other `replace` patterns are assumed to be inserted literally.
- Record ids, `founderImage` values and asset file names are single path segments; `path.join` normalisation of `..` or `/` inside them is not modelled.
- Error messages are modelled as reasons (`Reason`, `CaptureError`, `Finding`), not as their text.
- The browser internals live in `Env`: launch, navigation, the element selector, viewport sizes and timeouts.
- Screenshots are recorded in the backends' `shots` map rather than as files in the filesystem, and writing them is assumed to work. Puppeteer's `quality` option for PNG is not modelled.
- Asynchrony: every `await` is a sequential step.
- Logger: `ensureLogDir` and the log file path are left out; the file is its text.
- Playwright.PlaywrightScreenshots.GenerateAll: the fatal branch where `getFilename` raises inside the loop is proved unreachable after a successful generation, so it is not a separate outcome.
- Playwright.PlaywrightScreenshots.CaptureFolders: the success count is stated for per-record mode only; in flat mode there is no folder to count.
