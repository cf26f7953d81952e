/** The catalog validator: a pass over the catalog file, the template and
    the asset directories that collects every problem it finds. Errors block
    generation; warnings never do. Messages are modelled by the finding they
    report rather than by their text. */
module Validator {
  import opened Wrappers
  import opened Catalog
  import opened FileSystem
  import opened Strings
  import Config

  datatype Finding =
    // errors
    | DataFileNotFound
    | JsonParseFailed
    | NoThumbnailsArray
    | MissingId(index: nat)
    | IncompleteTitle(id: Option<string>)
    | MissingBadgeText(id: Option<string>)
    | MissingDescription(id: Option<string>)
    | MissingFounderImage(id: Option<string>)
    | InvalidPrimaryColor(id: Option<string>)
    | InvalidAccentColor(id: Option<string>)
    | DuplicateIds(ids: seq<Option<string>>)
    | TemplateNotFound
    // warnings
    | NoDefaults
    | EmptyThumbnails
    | IdCharset(badId: string)
    | ImageNotFound(imageOf: Option<string>, image: string)
    | MissingPlaceholder(token: string)
    | ImagesDirNotFound
    | LogosDirNotFound
  {
    predicate IsWarning() {
      NoDefaults? || EmptyThumbnails? || IdCharset? || ImageNotFound? || MissingPlaceholder?
      || ImagesDirNotFound? || LogosDirNotFound?
    }
  }

  function B2I(b: bool): nat {
    if b then 1 else 0
  }

  /** `if (cond) list.push(f)`. */
  function Push(list: seq<Finding>, cond: bool, f: Finding): seq<Finding> {
    if cond then list + [f] else list
  }

  /** A push adds one finding under its condition and keeps everything before it. */
  lemma PushIff(list: seq<Finding>, cond: bool, f: Finding, g: Finding)
    ensures |Push(list, cond, f)| == |list| + B2I(cond)
    ensures g in Push(list, cond, f) <==> g in list || (cond && g == f)
  {
  }

  // ---------------------------------------------------------------------
  // Character classes of the two regular expressions

  predicate IsHexDigit(c: char) {
    '0' <= c <= '9' || 'A' <= c <= 'F' || 'a' <= c <= 'f'
  }

  predicate IsIdChar(c: char) {
    'a' <= c <= 'z' || '0' <= c <= '9' || c == '-'
  }

  /** `[0-9A-Fa-f]{n}$` matched at the start of `s`. */
  predicate HexRun(s: string, n: nat) {
    if n == 0 then s == [] else s != [] && IsHexDigit(s[0]) && HexRun(s[1..], n - 1)
  }

  lemma {:induction false} HexRunIff(s: string, n: nat)
    ensures HexRun(s, n) <==> |s| == n && forall i | 0 <= i < n :: IsHexDigit(s[i])
  {
    if n > 0 && s != [] {
      HexRunIff(s[1..], n - 1);
      if |s| == n && forall i | 0 <= i < n :: IsHexDigit(s[i]) {
        assert forall i | 0 <= i < n - 1 :: IsHexDigit(s[1..][i]) by {
          forall i | 0 <= i < n - 1 ensures IsHexDigit(s[1..][i]) {
            assert s[1..][i] == s[i + 1];
          }
        }
      }
    }
  }

  /** `/^#[0-9A-Fa-f]{6}$/.test(color)`. */
  predicate IsValidHexColor(color: string) {
    color != [] && color[0] == '#' && HexRun(color[1..], HexDigits)
  }

  const HexDigits: nat := 6

  /** The hex-colour test holds exactly for `#` followed by six hex digits of either case. */
  lemma HexColorIff(color: string)
    ensures IsValidHexColor(color)
            <==> |color| == 7 && color[0] == '#' && forall i | 1 <= i < 7 :: IsHexDigit(color[i])
  {
    if color != [] {
      HexRunIff(color[1..], 6);
      assert forall i | 1 <= i < |color| :: color[i] == color[1..][i - 1];
    }
  }

  /** `[a-z0-9-]*$` matched at the start of `s`. */
  predicate IdRun(s: string) {
    s == [] || (IsIdChar(s[0]) && IdRun(s[1..]))
  }

  lemma {:induction false} IdRunIff(s: string)
    ensures IdRun(s) <==> forall i | 0 <= i < |s| :: IsIdChar(s[i])
  {
    if s != [] {
      IdRunIff(s[1..]);
      assert forall i | 0 <= i < |s| - 1 :: s[1..][i] == s[i + 1];
    }
  }

  /** `/^[a-z0-9-]+$/.test(id)`. */
  predicate MatchesIdConvention(id: string) {
    id != [] && IdRun(id)
  }

  /** The id convention holds exactly for non-empty strings over `[a-z0-9-]`. */
  lemma IdConventionIff(id: string)
    ensures MatchesIdConvention(id) <==> |id| > 0 && forall i | 0 <= i < |id| :: IsIdChar(id[i])
  {
    IdRunIff(id);
  }

  // ---------------------------------------------------------------------
  // One record

  predicate TitleComplete(t: Thumbnail) {
    t.title.Some? && Truthy(t.title.value.line1) && Truthy(t.title.value.line2)
    && Truthy(t.title.value.line3)
  }

  predicate HasBadgeText(t: Thumbnail) {
    t.badge.Some? && Truthy(t.badge.value.text)
  }

  /** A colour is checked only when present (truthy), and then must be hex. */
  predicate BadColor(c: Option<string>) {
    Truthy(c) && !IsValidHexColor(c.value)
  }

  predicate BadPrimary(t: Thumbnail) {
    t.theme.Some? && BadColor(t.theme.value.primaryColor)
  }

  predicate BadAccent(t: Thumbnail) {
    t.theme.Some? && BadColor(t.theme.value.accentColor)
  }

  /** `fs.existsSync(p)` over a snapshot of the paths on disk. */
  predicate PathExists(entries: set<Path>, p: Path) {
    p == [] || p in entries
  }

  predicate ImageMissing(t: Thumbnail, entries: set<Path>) {
    Truthy(t.founderImage) && !PathExists(entries, Config.Images + [t.founderImage.value])
  }

  /** The errors `validateThumbnailData` collects for record number `index`:
      seven independent checks, pushed in source order. */
  function RecordErrors(t: Thumbnail, index: nat): seq<Finding> {
    var e1 := Push([], !Truthy(t.id), MissingId(index));
    var e2 := Push(e1, !TitleComplete(t), IncompleteTitle(t.id));
    var e3 := Push(e2, !HasBadgeText(t), MissingBadgeText(t.id));
    var e4 := Push(e3, !Truthy(t.description), MissingDescription(t.id));
    var e5 := Push(e4, !Truthy(t.founderImage), MissingFounderImage(t.id));
    var e6 := Push(e5, BadPrimary(t), InvalidPrimaryColor(t.id));
    Push(e6, BadAccent(t), InvalidAccentColor(t.id))
  }

  /** One error per failed check, and a record error is exactly one of the
      seven failures. */
  lemma RecordErrorsIff(t: Thumbnail, index: nat, g: Finding)
    ensures |RecordErrors(t, index)| == B2I(!Truthy(t.id)) + B2I(!TitleComplete(t)) + B2I(!HasBadgeText(t))
                                        + B2I(!Truthy(t.description)) + B2I(!Truthy(t.founderImage))
                                        + B2I(BadPrimary(t)) + B2I(BadAccent(t))
    ensures g in RecordErrors(t, index)
            <==> || (!Truthy(t.id) && g == MissingId(index))
                 || (!TitleComplete(t) && g == IncompleteTitle(t.id))
                 || (!HasBadgeText(t) && g == MissingBadgeText(t.id))
                 || (!Truthy(t.description) && g == MissingDescription(t.id))
                 || (!Truthy(t.founderImage) && g == MissingFounderImage(t.id))
                 || (BadPrimary(t) && g == InvalidPrimaryColor(t.id))
                 || (BadAccent(t) && g == InvalidAccentColor(t.id))
  {
    var e1 := Push([], !Truthy(t.id), MissingId(index));
    var e2 := Push(e1, !TitleComplete(t), IncompleteTitle(t.id));
    var e3 := Push(e2, !HasBadgeText(t), MissingBadgeText(t.id));
    var e4 := Push(e3, !Truthy(t.description), MissingDescription(t.id));
    var e5 := Push(e4, !Truthy(t.founderImage), MissingFounderImage(t.id));
    var e6 := Push(e5, BadPrimary(t), InvalidPrimaryColor(t.id));
    PushIff([], !Truthy(t.id), MissingId(index), g);
    PushIff(e1, !TitleComplete(t), IncompleteTitle(t.id), g);
    PushIff(e2, !HasBadgeText(t), MissingBadgeText(t.id), g);
    PushIff(e3, !Truthy(t.description), MissingDescription(t.id), g);
    PushIff(e4, !Truthy(t.founderImage), MissingFounderImage(t.id), g);
    PushIff(e5, BadPrimary(t), InvalidPrimaryColor(t.id), g);
    PushIff(e6, BadAccent(t), InvalidAccentColor(t.id), g);
  }

  /** Record errors are errors, never warnings or the duplicate-id error. */
  lemma RecordErrorsAreErrors(t: Thumbnail, index: nat)
    ensures forall f | f in RecordErrors(t, index) :: !f.IsWarning() && !f.DuplicateIds?
  {
    forall f | f in RecordErrors(t, index)
      ensures !f.IsWarning() && !f.DuplicateIds?
    {
      RecordErrorsIff(t, index, f);
    }
  }

  predicate BadId(t: Thumbnail) {
    Truthy(t.id) && !MatchesIdConvention(t.id.value)
  }

  /** The warnings `validateThumbnailData` collects: an id outside the
      `[a-z0-9-]` convention and a founder image that is not on disk. */
  function RecordWarnings(t: Thumbnail, entries: set<Path>): seq<Finding> {
    var w1 := Push([], BadId(t), IdCharset(t.id.GetOr("")));
    Push(w1, ImageMissing(t, entries), ImageNotFound(t.id, t.founderImage.GetOr("")))
  }

  /** At most the two warnings, each exactly when its check fails. */
  lemma RecordWarningsIff(t: Thumbnail, entries: set<Path>, g: Finding)
    ensures |RecordWarnings(t, entries)| == B2I(BadId(t)) + B2I(ImageMissing(t, entries))
    ensures g in RecordWarnings(t, entries)
            <==> || (BadId(t) && g == IdCharset(t.id.value))
                 || (ImageMissing(t, entries) && g == ImageNotFound(t.id, t.founderImage.value))
    ensures g in RecordWarnings(t, entries) ==> g.IsWarning()
  {
    var w1 := Push([], BadId(t), IdCharset(t.id.GetOr("")));
    PushIff([], BadId(t), IdCharset(t.id.GetOr("")), g);
    PushIff(w1, ImageMissing(t, entries), ImageNotFound(t.id, t.founderImage.GetOr("")), g);
  }

  /** The errors of all records, in order, each with its own index. */
  function AllRecordErrors(ts: seq<Thumbnail>): seq<Finding>
  {
    if ts == [] then [] else AllRecordErrors(ts[..|ts| - 1]) + RecordErrors(ts[|ts| - 1], |ts| - 1)
  }

  function AllRecordWarnings(ts: seq<Thumbnail>, entries: set<Path>): seq<Finding>
  {
    if ts == [] then [] else AllRecordWarnings(ts[..|ts| - 1], entries) + RecordWarnings(ts[|ts| - 1], entries)
  }

  lemma AllRecordsSnoc(ts: seq<Thumbnail>, i: nat, entries: set<Path>)
    requires i < |ts|
    ensures AllRecordErrors(ts[..i + 1]) == AllRecordErrors(ts[..i]) + RecordErrors(ts[i], i)
    ensures AllRecordWarnings(ts[..i + 1], entries) == AllRecordWarnings(ts[..i], entries) + RecordWarnings(ts[i], entries)
  {
    assert ts[..i + 1][..i] == ts[..i];
  }

  lemma AppendNil(a: seq<Finding>)
    ensures a + [] == a
  {
  }

  lemma Associative(a: seq<Finding>, b: seq<Finding>, c: seq<Finding>)
    ensures a + b + c == a + (b + c)
  {
  }

  lemma Associative3(a: seq<Finding>, b: seq<Finding>, c: seq<Finding>, d: seq<Finding>)
    ensures a + b + c + d == a + (b + (c + d))
  {
  }

  // ---------------------------------------------------------------------
  // Duplicate ids

  /** `ids.indexOf(x)`: the first position of `x`, or -1. */
  function IndexOf(ids: seq<Option<string>>, x: Option<string>): (r: int)
    ensures -1 <= r < |ids|
    ensures r >= 0 ==> ids[r] == x && x !in ids[..r]
    ensures r == -1 <==> x !in ids
  {
    if ids == [] then -1
    else if ids[0] == x then 0
    else
      var k := IndexOf(ids[1..], x);
      assert k >= 0 ==> ids[..k + 1] == [ids[0]] + ids[1..][..k];
      if k == -1 then -1 else k + 1
  }

  /** `ids.filter((id, index) => ids.indexOf(id) !== index)` over the first `n` ids. */
  function DupsUpTo(ids: seq<Option<string>>, n: nat): seq<Option<string>>
    requires n <= |ids|
  {
    if n == 0 then []
    else DupsUpTo(ids, n - 1) + (if IndexOf(ids, ids[n - 1]) != n - 1 then [ids[n - 1]] else [])
  }

  function Duplicates(ids: seq<Option<string>>): seq<Option<string>> {
    DupsUpTo(ids, |ids|)
  }

  ghost predicate Distinct(ids: seq<Option<string>>) {
    forall i, j | 0 <= i < j < |ids| :: ids[i] != ids[j]
  }

  lemma IndexOfIsEarlier(ids: seq<Option<string>>, k: nat)
    requires k < |ids|
    ensures IndexOf(ids, ids[k]) != k <==> ids[k] in ids[..k]
  {
    var r := IndexOf(ids, ids[k]);
    if r < k {
      assert ids[..k][r] == ids[k];
    }
  }

  lemma {:induction false} DupsUpToEmpty(ids: seq<Option<string>>, n: nat)
    requires n <= |ids|
    ensures DupsUpTo(ids, n) == [] <==> forall i, j | 0 <= i < j < n :: ids[i] != ids[j]
  {
    if n > 0 {
      DupsUpToEmpty(ids, n - 1);
      IndexOfIsEarlier(ids, n - 1);
      if ids[n - 1] in ids[..n - 1] {
        var i :| 0 <= i < n - 1 && ids[..n - 1][i] == ids[n - 1];
        assert ids[i] == ids[n - 1];
      }
    }
  }

  /** There are duplicates exactly when some id repeats. */
  lemma DuplicatesEmptyIffDistinct(ids: seq<Option<string>>)
    ensures Duplicates(ids) == [] <==> Distinct(ids)
  {
    DupsUpToEmpty(ids, |ids|);
  }

  lemma TakeStep(ids: seq<Option<string>>, n: nat, x: Option<string>)
    requires 0 < n <= |ids|
    ensures multiset(ids[..n])[x] == multiset(ids[..n - 1])[x] + (if ids[n - 1] == x then 1 else 0)
    ensures x in ids[..n] <==> x in ids[..n - 1] || ids[n - 1] == x
  {
    assert ids[..n] == ids[..n - 1] + [ids[n - 1]];
  }

  lemma {:induction false} DupsUpToCount(ids: seq<Option<string>>, n: nat, x: Option<string>)
    requires n <= |ids|
    ensures multiset(DupsUpTo(ids, n))[x] == if x in ids[..n] then multiset(ids[..n])[x] - 1 else 0
  {
    if n > 0 {
      DupsUpToCount(ids, n - 1, x);
      IndexOfIsEarlier(ids, n - 1);
      TakeStep(ids, n, x);
      var last := if IndexOf(ids, ids[n - 1]) != n - 1 then [ids[n - 1]] else [];
      assert multiset(DupsUpTo(ids, n))[x] == multiset(DupsUpTo(ids, n - 1))[x] + multiset(last)[x];
    }
  }

  /** The aggregated message lists every occurrence of an id after its first. */
  lemma DuplicatesListLaterOccurrences(ids: seq<Option<string>>, x: Option<string>)
    ensures multiset(Duplicates(ids))[x] == if x in ids then multiset(ids)[x] - 1 else 0
  {
    DupsUpToCount(ids, |ids|, x);
    assert ids[..|ids|] == ids;
  }

  /** At most one duplicate finding, however many repeats there are. */
  function DuplicateFinding(ids: seq<Option<string>>): (r: seq<Finding>)
    ensures |r| == if Distinct(ids) then 0 else 1
    ensures forall f | f in r :: f == DuplicateIds(Duplicates(ids))
  {
    DuplicatesEmptyIffDistinct(ids);
    if Duplicates(ids) != [] then [DuplicateIds(Duplicates(ids))] else []
  }

  // ---------------------------------------------------------------------
  // The data file, the template, the asset directories

  /** The errors of `validateDataFile`. A missing or unparseable file, or
      `thumbnails` not an array, stops the record checks. */
  function DataFileErrors(file: CatalogFile): seq<Finding> {
    match file
    case NotFound => [DataFileNotFound]
    case Unparseable => [JsonParseFailed]
    case Parsed(doc) =>
      if doc.thumbnails.None? then [NoThumbnailsArray]
      else AllRecordErrors(doc.thumbnails.value) + DuplicateFinding(Ids(doc.thumbnails.value))
  }

  function DataFileWarnings(file: CatalogFile, entries: set<Path>): seq<Finding>
  {
    match file
    case NotFound => []
    case Unparseable => []
    case Parsed(doc) =>
      (if doc.defaults.None? then [NoDefaults] else [])
      + match doc.thumbnails
        case None => []
        case Some(ts) => (if ts == [] then [EmptyThumbnails] else []) + AllRecordWarnings(ts, entries)
  }

  const RequiredPlaceholders: seq<string> := [
    "{{TITLE}}", "{{PRIMARY_COLOR}}", "{{ACCENT_COLOR}}",
    "{{TITLE_LINE1}}", "{{TITLE_LINE2}}", "{{TITLE_LINE3}}",
    "{{BADGE_TEXT}}", "{{DESCRIPTION}}", "{{FOUNDER_IMAGE}}"
  ]

  /** One warning per listed token the template does not contain, in list order. */
  function MissingPlaceholders(template: string, tokens: seq<string>): seq<Finding> {
    if tokens == [] then []
    else MissingPlaceholders(template, tokens[..|tokens| - 1])
         + (if Contains(template, tokens[|tokens| - 1]) then []
            else [MissingPlaceholder(tokens[|tokens| - 1])])
  }

  function TemplateErrors(template: Option<string>): seq<Finding> {
    if template.None? then [TemplateNotFound] else []
  }

  function TemplateWarnings(template: Option<string>): seq<Finding> {
    if template.None? then [] else MissingPlaceholders(template.value, RequiredPlaceholders)
  }

  function AssetWarnings(entries: set<Path>): seq<Finding>
  {
    (if PathExists(entries, Config.Images) then [] else [ImagesDirNotFound])
    + (if PathExists(entries, Config.Logos) then [] else [LogosDirNotFound])
  }

  /** The verdict of a fresh validator run over these inputs. */
  predicate Passes(inputs: Inputs) {
    DataFileErrors(inputs.catalog) + TemplateErrors(inputs.template) == []
  }

  // ---------------------------------------------------------------------
  // What the checks add up to

  /** A record that passes all seven error checks. */
  predicate RecordValid(t: Thumbnail) {
    Truthy(t.id) && TitleComplete(t) && HasBadgeText(t) && Truthy(t.description)
    && Truthy(t.founderImage) && !BadPrimary(t) && !BadAccent(t)
  }

  lemma RecordErrorsEmpty(t: Thumbnail, index: nat)
    ensures RecordErrors(t, index) == [] <==> RecordValid(t)
  {
    RecordErrorsIff(t, index, MissingId(index));
  }

  lemma {:induction false} AllRecordErrorsEmpty(ts: seq<Thumbnail>)
    ensures AllRecordErrors(ts) == [] <==> forall i | 0 <= i < |ts| :: RecordValid(ts[i])
  {
    if ts != [] {
      var n := |ts| - 1;
      var init := ts[..n];
      AllRecordErrorsEmpty(init);
      AllRecordErrorsStep(ts);
      assert forall i | 0 <= i < n :: init[i] == ts[i];
    }
  }

  /** The records so far have no errors exactly when the earlier ones have
      none and the last one passes its checks. */
  lemma AllRecordErrorsStep(ts: seq<Thumbnail>)
    requires ts != []
    ensures AllRecordErrors(ts) == [] <==> AllRecordErrors(ts[..|ts| - 1]) == [] && RecordValid(ts[|ts| - 1])
  {
    var n := |ts| - 1;
    RecordErrorsEmpty(ts[n], n);
    ConcatEmpty(AllRecordErrors(ts[..n]), RecordErrors(ts[n], n));
  }

  lemma ConcatEmpty(a: seq<Finding>, b: seq<Finding>)
    ensures a + b == [] <==> a == [] && b == []
  {
    if a + b == [] {
      assert |a + b| == |a| + |b|;
    }
  }

  /** A fresh validator passes exactly when the template exists, the catalog
      parses with a `thumbnails` array, every record passes its checks and
      no id repeats. Warnings play no part. */
  lemma PassesIff(inputs: Inputs)
    ensures Passes(inputs)
            <==> && inputs.template.Some?
                 && inputs.catalog.Parsed?
                 && inputs.catalog.doc.thumbnails.Some?
                 && (forall i | 0 <= i < |inputs.catalog.doc.thumbnails.value|
                      :: RecordValid(inputs.catalog.doc.thumbnails.value[i]))
                 && Distinct(Ids(inputs.catalog.doc.thumbnails.value))
  {
    if inputs.catalog.Parsed? && inputs.catalog.doc.thumbnails.Some? {
      var ts := inputs.catalog.doc.thumbnails.value;
      AllRecordErrorsEmpty(ts);
    }
  }

  /** After a pass, every record has a usable id and ids identify records. */
  lemma PassedIdsIdentify(inputs: Inputs)
    requires Passes(inputs)
    ensures inputs.catalog.Parsed? && inputs.catalog.doc.thumbnails.Some?
    ensures var ts := inputs.catalog.doc.thumbnails.value;
            && (forall i | 0 <= i < |ts| :: Truthy(ts[i].id))
            && (forall i, j | 0 <= i < j < |ts| :: ts[i].id != ts[j].id)
  {
    PassesIff(inputs);
    var ts := inputs.catalog.doc.thumbnails.value;
    var ids := Ids(ts);
    forall i, j | 0 <= i < j < |ts| ensures ts[i].id != ts[j].id {
      assert ids[i] != ids[j];
    }
  }

  /** The number of duplicate-id errors in a list of findings. */
  function DuplicateErrorCount(fs: seq<Finding>): nat {
    if fs == [] then 0
    else DuplicateErrorCount(fs[..|fs| - 1]) + B2I(fs[|fs| - 1].DuplicateIds?)
  }

  lemma {:induction false} DuplicateErrorCountAppend(a: seq<Finding>, b: seq<Finding>)
    ensures DuplicateErrorCount(a + b) == DuplicateErrorCount(a) + DuplicateErrorCount(b)
  {
    if b == [] {
      assert a + b == a;
    } else {
      var n := |b| - 1;
      DuplicateErrorCountAppend(a, b[..n]);
      assert (a + b)[..|a + b| - 1] == a + b[..n];
      assert (a + b)[|a + b| - 1] == b[n];
    }
  }

  lemma {:induction false} DuplicateErrorCountNone(fs: seq<Finding>)
    requires forall f | f in fs :: !f.DuplicateIds?
    ensures DuplicateErrorCount(fs) == 0
  {
    if fs != [] {
      DuplicateErrorCountNone(fs[..|fs| - 1]);
    }
  }

  lemma {:induction false} AllRecordErrorsNoDuplicates(ts: seq<Thumbnail>)
    ensures DuplicateErrorCount(AllRecordErrors(ts)) == 0
  {
    if ts != [] {
      var n := |ts| - 1;
      AllRecordErrorsNoDuplicates(ts[..n]);
      RecordErrorsAreErrors(ts[n], n);
      DuplicateErrorCountNone(RecordErrors(ts[n], n));
      DuplicateErrorCountAppend(AllRecordErrors(ts[..n]), RecordErrors(ts[n], n));
    }
  }

  /** However many times ids repeat, the data-file check reports one
      duplicate error, and none when the ids are distinct. */
  lemma OneDuplicateError(doc: Document)
    requires doc.thumbnails.Some?
    ensures DuplicateErrorCount(DataFileErrors(Parsed(doc)))
            == if Distinct(Ids(doc.thumbnails.value)) then 0 else 1
  {
    var ts := doc.thumbnails.value;
    var d := DuplicateFinding(Ids(ts));
    assert DataFileErrors(Parsed(doc)) == AllRecordErrors(ts) + d;
    AllRecordErrorsNoDuplicates(ts);
    DuplicateErrorCountAppend(AllRecordErrors(ts), d);
    if d != [] {
      assert d == [DuplicateIds(Duplicates(Ids(ts)))];
      assert [DuplicateIds(Duplicates(Ids(ts)))][..0] == [];
    }
  }

  /** A missing or unparseable catalog, or one without a `thumbnails` array,
      gives exactly one error and no record is looked at. */
  lemma EarlyExitIsSingleError(file: CatalogFile, entries: set<Path>)
    requires !file.Parsed? || file.doc.thumbnails.None?
    ensures |DataFileErrors(file)| == 1
    ensures forall g | g in DataFileWarnings(file, entries) :: g == NoDefaults
  {
  }

  /** One warning per required token missing from the template, and only
      those. */
  lemma {:induction false} MissingPlaceholdersIff(template: string, tokens: seq<string>, g: Finding)
    ensures g in MissingPlaceholders(template, tokens)
            <==> g.MissingPlaceholder? && g.token in tokens && !Contains(template, g.token)
    ensures |MissingPlaceholders(template, tokens)| <= |tokens|
  {
    if tokens != [] {
      var n := |tokens| - 1;
      MissingPlaceholdersIff(template, tokens[..n], g);
      assert tokens == tokens[..n] + [tokens[n]];
    }
  }

  /** Over distinct tokens there is exactly one warning per token the
      template lacks. */
  lemma {:induction false} MissingPlaceholdersCount(template: string, tokens: seq<string>)
    requires forall i, j | 0 <= i < j < |tokens| :: tokens[i] != tokens[j]
    ensures |MissingPlaceholders(template, tokens)| == |set x | x in tokens && !Contains(template, x)|
  {
    if tokens != [] {
      var n := |tokens| - 1;
      var last := tokens[n];
      MissingPlaceholdersCount(template, tokens[..n]);
      var before := set x | x in tokens[..n] && !Contains(template, x);
      var after := set x | x in tokens && !Contains(template, x);
      assert tokens == tokens[..n] + [last];
      assert last !in tokens[..n];
      if Contains(template, last) {
        assert after == before;
      } else {
        assert after == before + {last};
      }
    }
  }

  /** The tokens `validateTemplate` requires are pairwise different. */
  lemma RequiredPlaceholdersDistinct()
    ensures forall i, j | 0 <= i < j < |RequiredPlaceholders| :: RequiredPlaceholders[i] != RequiredPlaceholders[j]
  {
  }

  /** A loaded template gets one warning per required token it lacks. */
  lemma TemplateWarningsCount(template: string)
    ensures |TemplateWarnings(Some(template))|
            == |set x | x in RequiredPlaceholders && !Contains(template, x)|
  {
    RequiredPlaceholdersDistinct();
    MissingPlaceholdersCount(template, RequiredPlaceholders);
  }

  // ---------------------------------------------------------------------
  // The stateful validator

  class Validator {
    var errors: seq<Finding>
    var warnings: seq<Finding>

    constructor ()
      ensures errors == [] && warnings == []
    {
      errors := [];
      warnings := [];
    }

    method ValidateThumbnailData(t: Thumbnail, index: nat, entries: set<Path>) returns (errs: seq<Finding>, warns: seq<Finding>)
      ensures errs == RecordErrors(t, index)
      ensures warns == RecordWarnings(t, entries)
    {
      errs, warns := [], [];
      if !Truthy(t.id) {
        errs := errs + [MissingId(index)];
      } else if !MatchesIdConvention(t.id.value) {
        warns := warns + [IdCharset(t.id.value)];
      }
      if !TitleComplete(t) {
        errs := errs + [IncompleteTitle(t.id)];
      }
      if !HasBadgeText(t) {
        errs := errs + [MissingBadgeText(t.id)];
      }
      if !Truthy(t.description) {
        errs := errs + [MissingDescription(t.id)];
      }
      if !Truthy(t.founderImage) {
        errs := errs + [MissingFounderImage(t.id)];
      } else if !PathExists(entries, Config.Images + [t.founderImage.value]) {
        warns := warns + [ImageNotFound(t.id, t.founderImage.value)];
      }
      if t.theme.Some? {
        if BadColor(t.theme.value.primaryColor) {
          errs := errs + [InvalidPrimaryColor(t.id)];
        }
      }
      if t.theme.Some? {
        if BadColor(t.theme.value.accentColor) {
          errs := errs + [InvalidAccentColor(t.id)];
        }
      }
    }

    /** The `forEach` over the records: each record's findings are appended in order. */
    method ValidateRecords(ts: seq<Thumbnail>, entries: set<Path>)
      modifies this
      ensures errors == old(errors) + AllRecordErrors(ts)
      ensures warnings == old(warnings) + AllRecordWarnings(ts, entries)
    {
      var i := 0;
      while i < |ts|
        invariant 0 <= i <= |ts|
        invariant errors == old(errors) + AllRecordErrors(ts[..i])
        invariant warnings == old(warnings) + AllRecordWarnings(ts[..i], entries)
      {
        var errs, warns := ValidateThumbnailData(ts[i], i, entries);
        AllRecordsSnoc(ts, i, entries);
        Associative(old(errors), AllRecordErrors(ts[..i]), errs);
        Associative(old(warnings), AllRecordWarnings(ts[..i], entries), warns);
        errors := errors + errs;
        warnings := warnings + warns;
        i := i + 1;
      }
      assert ts[..|ts|] == ts;
    }

    /** `validateDataFile` after a successful parse. */
    method ValidateDocument(doc: Document, entries: set<Path>)
      modifies this
      ensures errors == old(errors) + DataFileErrors(Parsed(doc))
      ensures warnings == old(warnings) + DataFileWarnings(Parsed(doc), entries)
    {
      ghost var w1: seq<Finding> := if doc.defaults.None? then [NoDefaults] else [];
      if doc.defaults.None? {
        warnings := warnings + [NoDefaults];
      } else {
        AppendNil(warnings);
      }
      if doc.thumbnails.None? {
        errors := errors + [NoThumbnailsArray];
        AppendNil(w1);
        return;
      }
      var ts := doc.thumbnails.value;
      ghost var w2: seq<Finding> := if ts == [] then [EmptyThumbnails] else [];
      if |ts| == 0 {
        warnings := warnings + [EmptyThumbnails];
      } else {
        AppendNil(warnings);
      }
      ValidateRecords(ts, entries);
      Associative3(old(warnings), w1, w2, AllRecordWarnings(ts, entries));
      var duplicates := Duplicates(Ids(ts));
      ghost var d := DuplicateFinding(Ids(ts));
      if |duplicates| > 0 {
        errors := errors + [DuplicateIds(duplicates)];
      } else {
        AppendNil(errors);
      }
      Associative(old(errors), AllRecordErrors(ts), d);
    }

    /** `validateDataFile`: a missing or unparseable file is reported and ends the check. */
    method ValidateDataFile(file: CatalogFile, entries: set<Path>) returns (ok: bool)
      modifies this
      ensures errors == old(errors) + DataFileErrors(file)
      ensures warnings == old(warnings) + DataFileWarnings(file, entries)
      ensures ok == (errors == [])
    {
      match file {
        case NotFound =>
          errors := errors + [DataFileNotFound];
        case Unparseable =>
          errors := errors + [JsonParseFailed];
        case Parsed(doc) =>
          ValidateDocument(doc, entries);
      }
      ok := errors == [];
    }

    method ValidateTemplate(template: Option<string>) returns (ok: bool)
      modifies this
      ensures errors == old(errors) + TemplateErrors(template)
      ensures warnings == old(warnings) + TemplateWarnings(template)
      ensures ok == template.Some?
    {
      if template.None? {
        errors := errors + [TemplateNotFound];
        return false;
      }
      var i := 0;
      while i < |RequiredPlaceholders|
        invariant 0 <= i <= |RequiredPlaceholders|
        invariant errors == old(errors)
        invariant warnings == old(warnings) + MissingPlaceholders(template.value, RequiredPlaceholders[..i])
      {
        assert RequiredPlaceholders[..i + 1][..i] == RequiredPlaceholders[..i];
        if !Contains(template.value, RequiredPlaceholders[i]) {
          warnings := warnings + [MissingPlaceholder(RequiredPlaceholders[i])];
        }
        i := i + 1;
      }
      assert RequiredPlaceholders[..i] == RequiredPlaceholders;
      ok := true;
    }

    method ValidateAssets(entries: set<Path>) returns (ok: bool)
      modifies this
      ensures errors == old(errors)
      ensures warnings == old(warnings) + AssetWarnings(entries)
      ensures ok
    {
      if !PathExists(entries, Config.Images) {
        warnings := warnings + [ImagesDirNotFound];
      }
      if !PathExists(entries, Config.Logos) {
        warnings := warnings + [LogosDirNotFound];
      }
      ok := true;
    }

    /** All three checks always run; the verdict is "no errors". */
    method Validate(inputs: Inputs, entries: set<Path>) returns (ok: bool)
      modifies this
      ensures errors == old(errors) + DataFileErrors(inputs.catalog) + TemplateErrors(inputs.template)
      ensures warnings == old(warnings) + DataFileWarnings(inputs.catalog, entries)
                          + TemplateWarnings(inputs.template) + AssetWarnings(entries)
      ensures ok == (errors == [])
      ensures old(errors) == [] ==> (ok <==> Passes(inputs))
    {
      var _ := ValidateDataFile(inputs.catalog, entries);
      var _ := ValidateTemplate(inputs.template);
      var _ := ValidateAssets(entries);
      ok := errors == [];
    }
  }
}
