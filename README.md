# typesense-docsearch.js: the result formatter, modelled in Dafny

This project models the part of `DocSearch` (`src/lib/DocSearch.js`) that turns
search hits into dropdown suggestions, and proves properties of it. It covers:

- `formatHits`: normalising every hit, grouping by `lvl0` and then by `lvl1`,
  flagging the first hit of each group, and deriving one display record per hit;
- `formatURL`;
- the decision logic of the autocomplete source: `queryHook(query) || query`,
  `transformData(hits) || hits`, and the request `{ q, ...params }`;
- the default search parameters merged with the user's in the constructor;
- the constructor's in-place completion of the autocomplete options;
- the two argument checks of `checkArguments` that do not need the page.

Files, one module each:

- `wrappers.dfy`: `Option`, `Result`, and JavaScript truthiness of possibly-null strings.
- `hits.dfy`: raw hits, normalised hits, and the highlighted-or-raw accessor.
- `grouping.dfy`: the generic "group by a level, flag the first, concatenate"
  routine used at both levels, and the grouping theorems.
- `records.dfy`: `formatURL`, the title, and the display record of one hit.
- `docsearch.dfy`: `checkArguments`, the parameters, the hooks, the `formatHits`
  method with its `$.each` loop, and the `AutocompleteOptions` and `DocSearch` classes.

`utils.js` is not part of this model. Its helpers are modelled from how
`formatHits` uses them:

- `groupBy` yields groups in order of the first occurrence of their value, each
  group keeping input order.
- `flattenAndFlagFirst` sets the named flag to true on the first element of each
  group and to false on the others, then concatenates.
- `compact` drops falsy entries.
- `getHighlightedValue` and `getSnippetedValue` are one accessor. It returns the
  highlighted value when that is non-empty, and the raw value otherwise.

Grouping order is stated against `InsertionOrderKeys`, an independent
definition. It builds the key order from the back, the way a JavaScript object
acquires keys when hits are pushed into it one by one.

## Model

| member | source | states |
|---|---|---|
| Hits.AssignNullValuesToMissingHierarchyFields | src/lib/DocSearch.js:259 | every level `lvl0`..`lvl6` is present afterwards; levels already present keep their value, missing ones become `null` |
| Hits.AssignNullsIdempotent | src/lib/DocSearch.js:259-263 | filling in missing levels a second time changes nothing |
| Hits.NormalizeHighlight | src/lib/DocSearch.js:261-268 | the highlight copy gets every level, present levels unchanged and missing ones `null`, and keeps its content |
| Hits.Normalize | src/lib/DocSearch.js:258-271 | through `Unnest` (`unnestFields` and `mergeKeyWithParent`): each level of the normalised hit is the hierarchy's value or `null`; content, url and anchor are untouched; the highlight is present exactly when it was and is normalised level by level |
| Hits.PreferredValue | src/lib/DocSearch.js:287-301 | the highlighted value when it is non-empty, otherwise the raw value; a non-empty result comes from one of the two |
| Grouping.FlagFirst | src/lib/DocSearch.js:276-279 | same length; the flag is true on the first hit only and every hit is kept |
| Grouping.GroupByFacts | src/lib/DocSearch.js:274 | of `GroupBy` (`utils.groupBy`): groups are non-empty, each holds one value, values are distinct, groups hold only input hits, every input value has a group, and together the groups hold exactly the input hits (as a multiset) |
| Grouping.GroupByOrder | src/lib/DocSearch.js:274 | the groups' values come in the order in which they first occur in the input (`InsertionOrderKeys`) |
| Grouping.GroupByMember | src/lib/DocSearch.js:274 | each group is exactly the input hits carrying its value, in input order |
| Grouping.FlattenFacts | src/lib/DocSearch.js:276-283 | `FlattenAndFlagFirst` (`utils.flattenAndFlagFirst`) on keyed groups keeps the hits in group order, keeps each block contiguous, sets the flag exactly at block starts, and the flagged values are the groups' values in order |
| Grouping.FlattenKeepsOther | src/lib/DocSearch.js:283 | the outer flattening preserves the contiguity and the flags of the sub-category blocks |
| Grouping.SubGroupFacts | src/lib/DocSearch.js:275-282 | `SubGroup`, the `$.each` body: one `lvl0` group keeps its hits and its `lvl0`, its `lvl1` blocks are contiguous and flagged at their starts, in order of first occurrence |
| Grouping.GroupedIsPermutation | src/lib/DocSearch.js:257-283 | `Grouped`, the whole grouping stage: the grouped hits have the input's length and are a permutation of the input hits |
| Grouping.GroupedBlocksContiguous | src/lib/DocSearch.js:274-283 | hits with equal `lvl0` are adjacent, and so are hits with equal `lvl0` and `lvl1` |
| Grouping.GroupedHeaderFlags | src/lib/DocSearch.js:276-283 | `isCategoryHeader` holds exactly on the first hit of each `lvl0` block, and `isSubCategoryHeader` exactly on the first hit of each (`lvl0`, `lvl1`) block |
| Grouping.GroupedCategoryOrder | src/lib/DocSearch.js:274-283 | category headers follow the order of first occurrence of `lvl0` in the input |
| Grouping.GroupedSubCategoryOrder | src/lib/DocSearch.js:275-282 | within one `lvl0` block, sub-category headers follow the order of first occurrence of `lvl1` among that block's input hits |
| Records.IndexOf | src/lib/DocSearch.js:336 | -1 exactly when the character is absent; otherwise its first position |
| Records.FormatURL | src/lib/DocSearch.js:333-345 | a url with `#` is returned unchanged; a url without `#` gets `#anchor` when there is an anchor and is returned alone otherwise; with only an anchor the result is `#anchor`; `null` exactly when neither is present |
| Records.SplitFragment | src/lib/DocSearch.js:336-338 | splitting a link at its first `#` gives a prefix without `#` and the fragment, and concatenating them gives the link back |
| Records.FormatURLFragment | src/lib/DocSearch.js:333-345 | a returned link is non-empty; splitting it at its first `#` gives back (url, anchor) or ("", anchor) when the anchor was appended, the url's own fragment when it had one, and no fragment without an anchor |
| Records.Compact | src/lib/DocSearch.js:290-298 | the result is never longer than the input |
| Records.CompactFacts | src/lib/DocSearch.js:290-298 | no empty segment survives; the result is empty exactly when every input is falsy; a truthy first input leads the result |
| Records.CompactSingle | src/lib/DocSearch.js:290-298 | a single value is kept exactly when it is truthy |
| Records.CompactAppend | src/lib/DocSearch.js:290-298 | compacting a concatenation is the concatenation of the compacted parts; with `CompactSingle`, every truthy value is kept in order and every falsy one dropped |
| Records.CompactOmits | src/lib/DocSearch.js:290-298 | a falsy entry contributes nothing wherever it stands |
| Records.Join | src/lib/DocSearch.js:299-301 | the join of no segment is empty, of one segment is that segment, and otherwise starts with the first segment followed by the separator |
| Records.JoinAppend | src/lib/DocSearch.js:299-301 | joining two non-empty runs of segments gives the join of the first, one separator, and the join of the second |
| Records.JoinEmpty | src/lib/DocSearch.js:299-301 | the join of non-empty segments is empty exactly when there is none |
| Records.Subcategory | src/lib/DocSearch.js:288-289 | the `lvl1` value when it is non-empty, otherwise the category (`Category`, the preferred `lvl0` value) |
| Records.TitleLayout | src/lib/DocSearch.js:290-301 | `Title`: the first slot (`lvl2`, else the subcategory) when non-empty, then the separator, then the non-empty `lvl3`..`lvl6` values in order joined by the separator; without a first slot, the join of those values alone |
| Records.TitleFacts | src/lib/DocSearch.js:290-301 | the title starts with `lvl2`, or with the subcategory when `lvl2` is empty; with `lvl3`..`lvl6` empty it is the first slot alone; with `lvl2`..`lvl6` empty it is the subcategory; it is empty exactly when every slot is |
| Records.ToRecord | src/lib/DocSearch.js:286-329 | exactly one of `isLvl0`, `isLvl1`, `isLvl2`; `isLvl1EmptyOrDuplicate` iff the subcategory is empty or equals the category; `isLvl2` iff the title is non-empty and differs from the subcategory; `isTextOrSubcategoryNonEmpty` iff the title is non-empty; the title is `Title` (laid out by `TitleLayout`); header flags copied; url from `FormatURL`; with `lvl2`..`lvl6` empty the title is the subcategory and `isLvl2` is false |
| DocSearch.CheckArguments | src/lib/DocSearch.js:149-157 | the usage error exactly when the server config or the collection name is falsy; the selector error exactly when both are set and the selector is not a string; no error otherwise |
| DocSearch.MergeSearchParams | src/lib/DocSearch.js:66-77 | the keys are the defaults' and the user's; user values win; defaults fill the rest |
| DocSearch.MergeSearchParamsFacts | src/lib/DocSearch.js:66-77 | with no user parameters the defaults are used as they are, `per_page` is 5 unless overridden, and merging twice changes nothing |
| DocSearch.SearchRequest | src/lib/DocSearch.js:224-227 | the request holds `q` and the parameters; parameters win over `q`; `q` is the query when no parameter named `q` is given |
| DocSearch.RewriteQuery | src/lib/DocSearch.js:216-219 | without a hook, or when the hook returns a falsy value, the query is unchanged; otherwise it is the hook's result |
| DocSearch.TransformHits | src/lib/DocSearch.js:246-248 | without a transform, or when it returns nothing, the hits are unchanged; otherwise its result, an empty array included, replaces them |
| DocSearch.RequestQuery | src/lib/DocSearch.js:214-227 | the request's `q` is the typed query unless the hook rewrote it or the user passed a `q` parameter, which then wins; user parameters appear unchanged; the keys are `q`, the defaults' and the user's |
| DocSearch.FormatHits | src/lib/DocSearch.js:256-331 | the `$.each` loop regroups every `lvl0` group in place; the result is `Formatted` (the records of `Grouped` over the normalised hits) and has one record per received hit |
| DocSearch.FormattedRearranges | src/lib/DocSearch.js:256-331 | one record per received hit; with the header flags cleared, the output is a permutation of the records of the individual normalised hits |
| DocSearch.FormattedHeaders | src/lib/DocSearch.js:273-331 | a record is a category header exactly when it is first or its `lvl0` differs from the previous one's, and a sub-category header exactly when, in addition, a change of `lvl1` is enough |
| DocSearch.UnflaggedRecord | src/lib/DocSearch.js:286-329 | only the header flags of a record depend on the hit's position after grouping |
| DocSearch.AutocompleteOptions.Default | src/lib/DocSearch.js:36-40 | the default options: no debug, no hint, autoselect on |
| DocSearch.AutocompleteOptions.Complete | src/lib/DocSearch.js:80-96 | debug becomes the top-level flag or the option's; the CSS prefix falls back to `ds`; the aria label falls back to the input's label, then `search input`; hint and autoselect are kept; afterwards prefix and label are set, and a second call leaves them unchanged |
| DocSearch.DocSearch.constructor | src/lib/DocSearch.js:61-98 | stores the config and the collection name, merges the parameters, keeps the hooks, completes the caller's options object in place, and sets the simple-layout flag |
| DocSearch.DocSearch.Create | src/lib/DocSearch.js:47-98 | a failed argument check yields that error and leaves the options untouched; otherwise a fresh object storing the config, collection name, merged parameters, hooks and layout flag, with the caller's options completed in place as `Complete` states |
| DocSearch.DocSearch.Source | src/lib/DocSearch.js:214-252 | the request sent is built from the query after the hook and the stored parameters; the records passed on are `formatHits` of the backend's hits after the transform |

## Left out

- The Typesense client call and its promise (lines 221-250). These are network I/O and asynchrony. `Source` takes the backend as a function from request to hits.
- The response adapter (lines 235-245). It is a foreign library; its output is the input hit list.
- The `queryDataCallback` observer (lines 229-234). It is an opaque side effect.
- The autocomplete.js wiring, `injectSearchBox`, `bindSearchBoxEvent` and `getInputFromSelector`. These are DOM and UI. The input's `aria-label` is a parameter.
- The third check of `checkArguments` (lines 159-163). It queries the page.
- Hogan templates, `handleSelected` and `handleShown`. These are rendering, navigation and floating-point layout.
- The `console.warn` in `formatURL`. Only its `null` result is modelled.
- `utils.groupBy` in the real `utils.js` may lower-case string values before grouping. It also coerces `null` to a key, and walking a JavaScript object with `$.each` visits integer-like keys first. The model groups by the exact value in order of first occurrence.
- `utils.deepClone`: hits are values here, so the caller's list can never be changed. The aliasing the clone protects against is not represented.
- The display flags are booleans. In JavaScript, `isLvl2`, `isLvl1` and `isTextOrSubcategoryNonEmpty` can evaluate to `""` or `null` instead of `false`. The model keeps only their truth value.
- Hooks return a possibly-null string or hit list. Other return values of a user hook are not modelled.
- Search parameter values are integers, strings or booleans. The order of keys in the request object is not modelled.
- `JsValue` numbers are integers. `NaN` is not modelled.
- DocSearch.AutocompleteOptions.Complete: `debug` is a boolean. A non-boolean truthy `autocompleteOptions.debug` is represented only by its truth value.
