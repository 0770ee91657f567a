/** Search hits as the response adapter hands them over, and the normalisation
    that `formatHits` applies to each cloned hit before grouping
    (src/lib/DocSearch.js, lines 257-271). */
module Hits {
  import opened Wrappers

  /** Hierarchy level: 0 is `lvl0` (top category) .. 6 is `lvl6` (deepest heading). */
  type Level = l: nat | l < 7

  /** A hierarchy as it arrives: a level may be missing, `null` (`None`) or a string. */
  type Hierarchy = map<Level, Option<string>>

  /** A complete hierarchy, one entry per level, `lvl0` first. */
  type Levels = s: seq<Option<string>> | |s| == 7
    witness [None, None, None, None, None, None, None]

  /** The `_highlightResult` of a hit: the same fields with highlight markup. */
  datatype RawHighlight = RawHighlight(hierarchy: Hierarchy, content: Option<string>)

  datatype RawHit = RawHit(
    hierarchy: Hierarchy,
    content: Option<string>,
    url: Option<string>,
    anchor: Option<string>,
    highlightResult: Option<RawHighlight>)

  datatype Highlight = Highlight(lvl: Levels, content: Option<string>)

  /** A hit after normalisation: every level present at top level. */
  datatype Hit = Hit(
    lvl: Levels,
    content: Option<string>,
    url: Option<string>,
    anchor: Option<string>,
    highlightResult: Option<Highlight>)

  /** `utils.assignNullValuesToMissingHierarchyFields`: every level that is
      missing becomes `null`; levels already present are kept. */
  function AssignNullValuesToMissingHierarchyFields(h: Hierarchy): (r: Hierarchy)
    ensures forall l: Level :: l in r
    ensures forall l: Level :: l in h ==> r[l] == h[l]
    ensures forall l: Level :: l !in h ==> r[l] == None
  {
    map l: Level | l < 7 :: if l in h then h[l] else None
  }

  /** Filling in missing levels a second time changes nothing. */
  lemma AssignNullsIdempotent(h: Hierarchy)
    ensures AssignNullValuesToMissingHierarchyFields(AssignNullValuesToMissingHierarchyFields(h))
         == AssignNullValuesToMissingHierarchyFields(h)
  {
  }

  /** `utils.unnestFields` followed by `utils.mergeKeyWithParent(_, 'hierarchy')`:
      the (complete) hierarchy becomes the hit's own `lvl0`..`lvl6`. */
  function Unnest(h: Hierarchy): Levels
    requires forall l: Level :: l in h
  {
    [h[0], h[1], h[2], h[3], h[4], h[5], h[6]]
  }

  function NormalizeHighlight(hl: RawHighlight): (r: Highlight)
    ensures forall l: Level :: r.lvl[l] == (if l in hl.hierarchy then hl.hierarchy[l] else None)
    ensures r.content == hl.content
  {
    Highlight(Unnest(AssignNullValuesToMissingHierarchyFields(hl.hierarchy)), hl.content)
  }

  /** The per-hit normalisation of `formatHits`: no level is left missing, the
      levels that were present keep their value, and the location and body
      fields are untouched; the highlight is normalised the same way. */
  function Normalize(raw: RawHit): (r: Hit)
    ensures forall l: Level :: r.lvl[l] == (if l in raw.hierarchy then raw.hierarchy[l] else None)
    ensures r.content == raw.content && r.url == raw.url && r.anchor == raw.anchor
    ensures r.highlightResult.Some? <==> raw.highlightResult.Some?
    ensures raw.highlightResult.Some? ==>
      forall l: Level :: r.highlightResult.value.lvl[l]
        == (if l in raw.highlightResult.value.hierarchy then raw.highlightResult.value.hierarchy[l] else None)
  {
    var hl := match raw.highlightResult
      case None => None
      case Some(h) => Some(NormalizeHighlight(h));
    Hit(Unnest(AssignNullValuesToMissingHierarchyFields(raw.hierarchy)),
        raw.content, raw.url, raw.anchor, hl)
  }

  /** A field the display records read: one hierarchy level, or the body text. */
  datatype Field = Lvl(level: Level) | Content

  function RawValue(h: Hit, f: Field): Option<string> {
    match f
    case Lvl(l) => h.lvl[l]
    case Content => h.content
  }

  function HighlightedValue(h: Hit, f: Field): Option<string> {
    match h.highlightResult
    case None => None
    case Some(hl) =>
      match f
      case Lvl(l) => hl.lvl[l]
      case Content => hl.content
  }

  /** `utils.getHighlightedValue` / `utils.getSnippetedValue`, taken as one
      accessor: the highlighted value when there is a non-empty one, otherwise
      the raw value (which may be `null`). */
  function PreferredValue(h: Hit, f: Field): (r: Option<string>)
    ensures Truthy(HighlightedValue(h, f)) ==> r == HighlightedValue(h, f)
    ensures !Truthy(HighlightedValue(h, f)) ==> r == RawValue(h, f)
    ensures Truthy(r) ==> Truthy(HighlightedValue(h, f)) || Truthy(RawValue(h, f))
  {
    Or(HighlightedValue(h, f), RawValue(h, f))
  }
}
