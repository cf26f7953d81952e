/** Template expansion: the fourteen `{{NAME}}` tokens, the values a record
    and the catalog defaults give them, and the sequential replace-all that
    turns the template into a record's HTML page. */
module Expander {
  import opened Wrappers
  import opened Catalog
  import opened Strings

  // ---------------------------------------------------------------------
  // Tokens

  /** A token as it appears in the template. */
  function Wrap(name: string): (r: string)
    ensures |r| == |name| + 4
  {
    "{{" + name + "}}"
  }

  predicate NoBraces(name: string) {
    '{' !in name && '}' !in name
  }

  /** The token names in the order `replacePlaceholders` lists them. */
  const Names: seq<string> := [
    "TITLE", "PRIMARY_COLOR", "ACCENT_COLOR", "BACKGROUND_GRADIENT",
    "LOGO_IMAGE", "FOUNDER_IMAGE", "STATUS_BADGE", "BADGE_COLOR",
    "BADGE_TEXT", "TITLE_LINE1", "TITLE_LINE2", "TITLE_LINE3",
    "DESCRIPTION", "BADGE_IMAGE"
  ]

  function Tokens(): (r: seq<string>)
    ensures |r| == |Names| == 14
    ensures forall k | 0 <= k < |r| :: r[k] == Wrap(Names[k])
  {
    seq(|Names|, k requires 0 <= k < |Names| => Wrap(Names[k]))
  }

  lemma NamesBraceFree()
    ensures forall k | 0 <= k < |Names| :: NoBraces(Names[k])
  {
  }

  lemma NamesDistinct()
    ensures forall j, k | 0 <= j < k < |Names| :: Names[j] != Names[k]
  {
  }

  lemma WrapShape(a: string)
    ensures Wrap(a)[0] == '{' && Wrap(a)[1] == '{' && Wrap(a)[|a| + 2] == '}'
    ensures forall j | 0 <= j < |a| :: Wrap(a)[j + 2] == a[j]
  {
  }

  /** One wrapped brace-free name occurs inside another only when the two
      names are the same. */
  lemma WrapInWrap(a: string, b: string)
    requires NoBraces(a) && NoBraces(b)
    requires Contains(Wrap(a), Wrap(b))
    ensures a == b
  {
    var wa, wb := Wrap(a), Wrap(b);
    var i :| 0 <= i <= |wa| - |wb| && OccursAt(wa, wb, i);
    assert same: forall j | 0 <= j < |wb| :: wa[i + j] == wb[j] by {
      forall j | 0 <= j < |wb| ensures wa[i + j] == wb[j] {
        assert wa[i..i + |wb|][j] == wb[j];
      }
    }
    WrapShape(a);
    WrapShape(b);
    assert wa[i + 1] == '{';
    assert i == 0;
    assert wa[|b| + 2] == '}';
    assert |b| == |a|;
    forall j | 0 <= j < |a| ensures a[j] == b[j] {
      assert wa[j + 2] == wb[j + 2];
    }
  }

  /** No token of the table occurs inside another one. */
  lemma TokensApart(j: nat, k: nat)
    requires j < 14 && k < 14 && j != k
    ensures !Contains(Tokens()[k], Tokens()[j])
  {
    NamesBraceFree();
    NamesDistinct();
    if Contains(Tokens()[k], Tokens()[j]) {
      WrapInWrap(Names[k], Names[j]);
    }
  }

  // ---------------------------------------------------------------------
  // Values

  const BadgeOpen: string :=
    "<div class=\"absolute bottom-8 -right-4 bg-white/10 backdrop-blur-md border border-white/20"
    + " text-white text-xs font-semibold px-3 py-1.5 rounded-full shadow-lg flex items-center gap-1.5"
    + " transform rotate-[-2deg]\">\n<span class=\"w-2 h-2 rounded-full bg-primary animate-pulse\"></span>\n"
    + "                    "
  const BadgeClose: string := "\n                 </div>"

  /** `generateStatusBadge`: nothing unless a badge is present and shown;
      otherwise the pill markup around its text. */
  function StatusBadgeHtml(sb: Option<StatusBadge>): (r: string)
    ensures r == "" <==> sb.None? || !sb.value.show
    ensures r != "" ==> Contains(r, JsStr(sb.value.text))
  {
    if sb.None? || !sb.value.show then ""
    else
      var text := JsStr(sb.value.text);
      ContainsMiddle(BadgeOpen, text, BadgeClose);
      BadgeOpen + text + BadgeClose
  }

  /** Why `replacePlaceholders` raises a `TypeError`: a property read on an
      absent object, in the order the object literal evaluates them. */
  datatype ExpandError =
    | NoDefaults        // `defaults.theme` with no defaults
    | NoTitle           // `data.title.line1`
    | NoDefaultTheme    // `defaults.theme.backgroundGradient`
    | NoBranding        // `defaults.branding.logo`
    | NoBadge           // `data.badge.color`

  /** `{ ...defaults.theme, ...data.theme }` for one key: a key the record
      theme carries wins. */
  function Overlay(record: Option<string>, default: Option<string>): (r: Option<string>)
    ensures record.Some? ==> r == record
    ensures record.None? ==> r == default
  {
    if record.Some? then record else default
  }

  function Field(theme: Option<Theme>, pick: Theme -> Option<string>): Option<string> {
    if theme.Some? then pick(theme.value) else None
  }

  /** The effective colour for one theme key. */
  function ThemeKey(rec: Thumbnail, defaults: Defaults, pick: Theme -> Option<string>): Option<string> {
    Overlay(Field(rec.theme, pick), Field(defaults.theme, pick))
  }

  function ImagePath(name: Option<string>): string {
    "assets/images/" + JsStr(name)
  }

  function PrimaryOf(t: Theme): Option<string> { t.primaryColor }
  function AccentOf(t: Theme): Option<string> { t.accentColor }

  /** The replacement table of `replacePlaceholders`, or the error the
      first failing property read raises. Each value is the string
      `String.prototype.replace` inserts. */
  function Values(rec: Thumbnail, defaults: Option<Defaults>): (r: Result<seq<string>, ExpandError>)
    ensures r.Success? ==> |r.value| == 14
  {
    if defaults.None? then Failure(NoDefaults)
    else if rec.title.None? then Failure(NoTitle)
    else if defaults.value.theme.None? then Failure(NoDefaultTheme)
    else if defaults.value.branding.None? then Failure(NoBranding)
    else if rec.badge.None? then Failure(NoBadge)
    else
      var d, title, badge := defaults.value, rec.title.value, rec.badge.value;
      Success([
        JsStr(title.line1) + " " + JsStr(title.line2) + " " + JsStr(title.line3) + " - TKTurners",
        JsStr(ThemeKey(rec, d, PrimaryOf)),
        JsStr(ThemeKey(rec, d, AccentOf)),
        JsStr(d.theme.value.backgroundGradient),
        ImagePath(d.branding.value.logo),
        ImagePath(rec.founderImage),
        StatusBadgeHtml(rec.statusBadge),
        JsStr(badge.color),
        JsStr(badge.text),
        JsStr(title.line1),
        JsStr(title.line2),
        JsStr(title.line3),
        JsStr(rec.description),
        ImagePath(d.branding.value.badge)
      ])
  }

  /** Which objects the table needs: it fails exactly when one is absent,
      and reports the first in evaluation order. */
  lemma ValuesFailure(rec: Thumbnail, defaults: Option<Defaults>)
    ensures Values(rec, defaults).Success?
            <==> defaults.Some? && rec.title.Some? && defaults.value.theme.Some?
                 && defaults.value.branding.Some? && rec.badge.Some?
    ensures defaults.None? ==> Values(rec, defaults) == Failure(NoDefaults)
    ensures defaults.Some? && rec.title.None? ==> Values(rec, defaults) == Failure(NoTitle)
  {
  }

  /** The record theme overrides each colour of the default theme key by
      key: a colour the record theme lacks, or every colour when there is no
      record theme, comes from the defaults, and so does the gradient. */
  lemma ValuesTheme(rec: Thumbnail, defaults: Option<Defaults>, rt: Theme)
    requires Values(rec, defaults).Success?
    ensures var v, d := Values(rec, defaults).value, defaults.value.theme.value;
            && (rec.theme == Some(rt) && rt.primaryColor.Some? ==> v[1] == rt.primaryColor.value)
            && (rec.theme == Some(rt) && rt.accentColor.Some? ==> v[2] == rt.accentColor.value)
            && (rec.theme == Some(rt) && rt.primaryColor.None? ==> v[1] == JsStr(d.primaryColor))
            && (rec.theme == Some(rt) && rt.accentColor.None? ==> v[2] == JsStr(d.accentColor))
            && (rec.theme.None? ==> v[1] == JsStr(d.primaryColor) && v[2] == JsStr(d.accentColor))
            && v[3] == JsStr(d.backgroundGradient)
  {
  }

  /** The title and image values. */
  lemma ValuesText(rec: Thumbnail, defaults: Option<Defaults>)
    requires Values(rec, defaults).Success?
    ensures var v, t := Values(rec, defaults).value, rec.title.value;
            && v[0] == JsStr(t.line1) + " " + JsStr(t.line2) + " " + JsStr(t.line3) + " - TKTurners"
            && v[5] == "assets/images/" + JsStr(rec.founderImage)
            && v[4] == "assets/images/" + JsStr(defaults.value.branding.value.logo)
            && v[13] == "assets/images/" + JsStr(defaults.value.branding.value.badge)
  {
  }

  // ---------------------------------------------------------------------
  // The fold

  /** Replace-all for each (token, value) pair in turn, each step working
      on the output of the previous one. */
  function ApplyAll(s: string, tokens: seq<string>, values: seq<string>): string
    requires |tokens| == |values|
    requires forall k | 0 <= k < |tokens| :: tokens[k] != []
    decreases |tokens|
  {
    if tokens == [] then s
    else ApplyAll(ReplaceAll(s, tokens[0], values[0]), tokens[1..], values[1..])
  }

  /** `replacePlaceholders(template, data, defaults)`. */
  function Expanded(template: string, rec: Thumbnail, defaults: Option<Defaults>): Result<string, ExpandError>
  {
    match Values(rec, defaults)
    case Failure(e) => Failure(e)
    case Success(vs) => Success(ApplyAll(template, Tokens(), vs))
  }

  /** A template holding none of the tokens passes through unchanged. */
  lemma {:induction false} ApplyAllAbsent(s: string, tokens: seq<string>, values: seq<string>)
    requires |tokens| == |values|
    requires forall k | 0 <= k < |tokens| :: tokens[k] != [] && !Contains(s, tokens[k])
    ensures ApplyAll(s, tokens, values) == s
    decreases |tokens|
  {
    if tokens != [] {
      ReplaceAllAbsent(s, tokens[0], values[0]);
      ApplyAllAbsent(s, tokens[1..], values[1..]);
    }
  }

  lemma ExpandedAbsent(template: string, rec: Thumbnail, defaults: Option<Defaults>)
    requires forall k | 0 <= k < 14 :: !Contains(template, Tokens()[k])
    ensures Expanded(template, rec, defaults).Success? ==> Expanded(template, rec, defaults).value == template
  {
    if Values(rec, defaults).Success? {
      ApplyAllAbsent(template, Tokens(), Values(rec, defaults).value);
    }
  }

  /** An entry of the table rewrites only strings that contain its token. */
  lemma {:induction false} ApplyAllSkip(s: string, tokens: seq<string>, values: seq<string>, n: nat)
    requires |tokens| == |values| && n <= |tokens|
    requires forall k | 0 <= k < |tokens| :: tokens[k] != []
    requires forall k | 0 <= k < n :: !Contains(s, tokens[k])
    ensures ApplyAll(s, tokens, values) == ApplyAll(s, tokens[n..], values[n..])
    decreases n
  {
    if n > 0 {
      ReplaceAllAbsent(s, tokens[0], values[0]);
      ApplyAllSkip(s, tokens[1..], values[1..], n - 1);
      assert tokens[1..][n - 1..] == tokens[n..];
      assert values[1..][n - 1..] == values[n..];
    }
  }

  /** A string that is the `n`-th token, and holds none of the tokens before
      it, expands to the `n`-th value with the rest of the table applied. */
  lemma {:induction false} SkipThenHead(s: string, tokens: seq<string>, values: seq<string>, n: nat)
    requires |tokens| == |values| && n < |tokens|
    requires forall k | 0 <= k < |tokens| :: tokens[k] != []
    requires s == tokens[n]
    requires forall k | 0 <= k < n :: !Contains(s, tokens[k])
    ensures ApplyAll(s, tokens, values) == ApplyAll(values[n], tokens[n + 1..], values[n + 1..])
  {
    ApplyAllSkip(s, tokens, values, n);
    var ts, vs := tokens[n..], values[n..];
    assert ts[0] == s && vs[0] == values[n];
    ReplaceAllWhole(s, values[n]);
    assert ts[1..] == tokens[n + 1..] && vs[1..] == values[n + 1..];
  }

  /** The entries of a table never occur inside one another. */
  predicate Apart(ts: seq<string>) {
    forall j, k | 0 <= j < |ts| && 0 <= k < |ts| && j != k :: !Contains(ts[k], ts[j])
  }

  lemma TokensNonEmpty()
    ensures forall k | 0 <= k < |Tokens()| :: Tokens()[k] != []
  {
  }

  lemma TokensAreApart()
    ensures Apart(Tokens())
  {
    forall j, k | 0 <= j < 14 && 0 <= k < 14 && j != k
      ensures !Contains(Tokens()[k], Tokens()[j])
    {
      TokensApart(j, k);
    }
  }

  lemma EntryExpands(ts: seq<string>, vs: seq<string>, k: nat)
    requires |ts| == |vs| && k < |ts| && Apart(ts)
    requires forall j | 0 <= j < |ts| :: ts[j] != []
    ensures ApplyAll(ts[k], ts, vs) == ApplyAll(vs[k], ts[k + 1..], vs[k + 1..])
  {
    SkipThenHead(ts[k], ts, vs, k);
  }

  /** The template made of token `k` alone expands to the value of token
      `k` with every LATER entry of the table applied to it: replacement is
      sequential, so a value that itself contains a later token is
      rewritten again, while earlier tokens in it survive. */
  lemma ExpandToken(k: nat, vs: seq<string>)
    requires k < 14 && |vs| == 14
    ensures ApplyAll(Tokens()[k], Tokens(), vs) == ApplyAll(vs[k], Tokens()[k + 1..], vs[k + 1..])
  {
    var ts := Tokens();
    TokensAreApart();
    TokensNonEmpty();
    EntryExpands(ts, vs, k);
  }

  lemma TitleLineRewritten(ts: seq<string>, vs: seq<string>)
    requires |ts| == |vs| == 14 && Apart(ts)
    requires forall j | 0 <= j < |ts| :: ts[j] != []
    requires vs[9] == ts[12] && !Contains(vs[12], ts[13])
    ensures ApplyAll(ts[9], ts, vs) == vs[12]
  {
    EntryExpands(ts, vs, 9);
    var rest, restv := ts[10..], vs[10..];
    assert rest[2] == vs[9];
    assert !Contains(rest[2], rest[0]) && !Contains(rest[2], rest[1]) by {
      assert rest[0] == ts[10] && rest[1] == ts[11];
    }
    SkipThenHead(vs[9], rest, restv, 2);
    assert rest[3..] == [ts[13]] && restv[3..] == [vs[13]] && restv[2] == vs[12];
    ApplyAllAbsent(vs[12], rest[3..], restv[3..]);
  }

  /** A case of the above: when the first title line spells the
      description token, the page shows the description where the line
      was. */
  lemma LaterTokenRewritesValue(vs: seq<string>)
    requires |vs| == 14
    requires vs[9] == Tokens()[12]
    requires !Contains(vs[12], Tokens()[13])
    ensures ApplyAll(Tokens()[9], Tokens(), vs) == vs[12]
  {
    var ts := Tokens();
    TokensAreApart();
    TokensNonEmpty();
    TitleLineRewritten(ts, vs);
  }

  // ---------------------------------------------------------------------
  // The loop

  /** `replacePlaceholders`: builds the table, then the `for ... of` loop
      reassigns `result` once per entry. */
  method ReplacePlaceholders(template: string, rec: Thumbnail, defaults: Option<Defaults>)
    returns (r: Result<string, ExpandError>)
    ensures r == Expanded(template, rec, defaults)
  {
    var values := Values(rec, defaults);
    if values.Failure? {
      return Failure(values.error);
    }
    var tokens, vs := Tokens(), values.value;
    var result := template;
    var i := 0;
    while i < |tokens|
      invariant 0 <= i <= |tokens|
      invariant ApplyAll(result, tokens[i..], vs[i..]) == ApplyAll(template, tokens, vs)
    {
      assert tokens[i..][1..] == tokens[i + 1..] && vs[i..][1..] == vs[i + 1..];
      result := ReplaceAll(result, tokens[i], vs[i]);
      i := i + 1;
    }
    return Success(result);
  }
}
