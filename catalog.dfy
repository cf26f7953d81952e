/** The catalog document after JSON decoding. Every field the code reads
    with `data.x` is optional; an absent field is `None`. JavaScript
    truthiness on strings is `Truthy`: absent and empty are both falsy. */
module Catalog {
  import opened Wrappers

  datatype Title = Title(line1: Option<string>, line2: Option<string>, line3: Option<string>)
  datatype Badge = Badge(color: Option<string>, text: Option<string>)
  datatype Theme = Theme(primaryColor: Option<string>, accentColor: Option<string>,
                         backgroundGradient: Option<string>)
  datatype StatusBadge = StatusBadge(show: bool, text: Option<string>)
  datatype Branding = Branding(logo: Option<string>, badge: Option<string>)
  datatype Defaults = Defaults(theme: Option<Theme>, branding: Option<Branding>)

  datatype Thumbnail = Thumbnail(
    id: Option<string>,
    title: Option<Title>,
    badge: Option<Badge>,
    description: Option<string>,
    founderImage: Option<string>,
    theme: Option<Theme>,
    statusBadge: Option<StatusBadge>,
    filename: Option<string>)

  /** `thumbnails` is `None` when the key is missing or is not an array. */
  datatype Document = Document(defaults: Option<Defaults>, thumbnails: Option<seq<Thumbnail>>)

  /** The data file as the core finds it on disk. */
  datatype CatalogFile = NotFound | Unparseable | Parsed(doc: Document)

  /** The two read-only inputs of a run: the catalog and the template text
      (`None` when the template file does not exist). */
  datatype Inputs = Inputs(catalog: CatalogFile, template: Option<string>)

  predicate Truthy(s: Option<string>) {
    s.Some? && s.value != ""
  }

  /** String conversion of a possibly absent value, as a template literal or
      `String.prototype.replace` performs it. */
  function JsStr(s: Option<string>): string {
    match s
    case Some(v) => v
    case None => "undefined"
  }

  /** The list `data.thumbnails.map(t => t.id)`. */
  function Ids(ts: seq<Thumbnail>): (r: seq<Option<string>>)
    ensures |r| == |ts| && forall i | 0 <= i < |ts| :: r[i] == ts[i].id
  {
    if ts == [] then [] else [ts[0].id] + Ids(ts[1..])
  }

  /** `Array.prototype.find` by id: the first record whose id is `id`. */
  function FindById(ts: seq<Thumbnail>, id: string): (r: Option<nat>)
    ensures r.Some? ==> (r.value < |ts| && ts[r.value].id == Some(id)
                         && forall j | 0 <= j < r.value :: ts[j].id != Some(id))
    ensures r.None? ==> forall j | 0 <= j < |ts| :: ts[j].id != Some(id)
  {
    if ts == [] then None
    else if ts[0].id == Some(id) then Some(0)
    else match FindById(ts[1..], id)
      case None => None
      case Some(k) => Some(k + 1)
  }
}
