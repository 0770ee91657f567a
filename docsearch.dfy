/** The `DocSearch` object (src/lib/DocSearch.js): argument checking, the
    default search parameters, the query and result hooks of the autocomplete
    source, and `formatHits`, which turns the hits of one search into the
    records of the dropdown. */
module DocSearch {
  import opened Wrappers
  import opened Hits
  import opened Grouping
  import opened Records

  // ---------------------------------------------------------------------------
  // checkArguments

  /** The JavaScript values an argument may hold, as far as the checks look at
      them. Numbers are integers here (`NaN` is not modelled). */
  datatype JsValue = Undefined | Null | JsBool(b: bool) | JsNumber(n: int) | JsString(s: string) | JsObject

  predicate IsTruthy(v: JsValue) {
    match v
    case Undefined => false
    case Null => false
    case JsBool(b) => b
    case JsNumber(n) => n != 0
    case JsString(s) => s != ""
    case JsObject => true
  }

  datatype Arguments = Arguments(
    typesenseServerConfig: JsValue,
    typesenseCollectionName: JsValue,
    inputSelector: JsValue)

  /** The two errors thrown before the page is consulted: the usage message,
      and the complaint that the input selector is not a string. */
  datatype ArgumentError = Usage | SelectorNotString(selector: JsValue)

  /** `None` when the arguments pass both checks, otherwise the first error. */
  function CheckArguments(args: Arguments): (r: Option<ArgumentError>)
    ensures r == Some(Usage) <==>
      !IsTruthy(args.typesenseServerConfig) || !IsTruthy(args.typesenseCollectionName)
    ensures r == Some(SelectorNotString(args.inputSelector)) <==>
      IsTruthy(args.typesenseServerConfig) && IsTruthy(args.typesenseCollectionName)
      && !args.inputSelector.JsString?
    ensures r == None <==>
      IsTruthy(args.typesenseServerConfig) && IsTruthy(args.typesenseCollectionName)
      && args.inputSelector.JsString?
  {
    if !IsTruthy(args.typesenseServerConfig) || !IsTruthy(args.typesenseCollectionName) then
      Some(Usage)
    else if !args.inputSelector.JsString? then
      Some(SelectorNotString(args.inputSelector))
    else
      None
  }

  // ---------------------------------------------------------------------------
  // Search parameters

  datatype ParamValue = Int(i: int) | Str(s: string) | Bool(b: bool)

  type SearchParams = map<string, ParamValue>

  const QueryBy: string :=
    "hierarchy.lvl0,hierarchy.lvl1,hierarchy.lvl2,hierarchy.lvl3,hierarchy.lvl4,hierarchy.lvl5,hierarchy.lvl6,content"

  const IncludeFields: string :=
    "hierarchy.lvl0,hierarchy.lvl1,hierarchy.lvl2,hierarchy.lvl3,hierarchy.lvl4,hierarchy.lvl5,hierarchy.lvl6,content,anchor,url"

  /** The parameters the constructor starts from. */
  const DefaultSearchParams: SearchParams := map[
    "per_page" := Int(5),
    "query_by" := Str(QueryBy),
    "group_by" := Str("url"),
    "group_limit" := Int(1),
    "include_fields" := Str(IncludeFields),
    "highlight_full_fields" := Str(QueryBy)]

  /** The defaults, with every parameter the user gives taking precedence. */
  function MergeSearchParams(user: SearchParams): (r: SearchParams)
    ensures r.Keys == DefaultSearchParams.Keys + user.Keys
    ensures forall k :: k in user ==> r[k] == user[k]
    ensures forall k :: k in DefaultSearchParams && k !in user ==> r[k] == DefaultSearchParams[k]
  {
    DefaultSearchParams + user
  }

  /** Without user parameters the defaults are used as they are, and merging a
      second time changes nothing. */
  lemma MergeSearchParamsFacts(user: SearchParams)
    ensures MergeSearchParams(map[]) == DefaultSearchParams
    ensures MergeSearchParams(MergeSearchParams(user)) == MergeSearchParams(user)
    ensures "per_page" !in user ==> MergeSearchParams(user)["per_page"] == Int(5)
  {
    assert MergeSearchParams(map[]).Keys == DefaultSearchParams.Keys;
  }

  /** The object passed to `search`: the query under `q`, then the parameters
      spread over it. */
  function SearchRequest(query: string, params: SearchParams): (r: SearchParams)
    ensures r.Keys == {"q"} + params.Keys
    ensures "q" !in params ==> r["q"] == Str(query)
    ensures forall k :: k in params ==> r[k] == params[k]
  {
    map["q" := Str(query)] + params
  }

  // ---------------------------------------------------------------------------
  // The hooks of the autocomplete source

  /** `queryHook(query) || query`, applied only when a hook is set. A hook that
      returns `null` or the empty string leaves the query as typed. */
  function RewriteQuery(query: string, hook: Option<string -> Option<string>>): (r: string)
    ensures hook.None? ==> r == query
    ensures hook.Some? && Truthy(hook.value(query)) ==> r == hook.value(query).value
    ensures hook.Some? && !Truthy(hook.value(query)) ==> r == query
  {
    match hook
    case None => query
    case Some(f) => TextOf(Or(f(query), Some(query)))
  }

  /** `transformData(hits) || hits`, applied only when a transform is set. An
      array is always truthy in JavaScript, so only a missing result (`None`)
      falls back to the hits as received; an empty array replaces them. */
  function TransformHits(hits: seq<RawHit>, transform: Option<seq<RawHit> -> Option<seq<RawHit>>>): (r: seq<RawHit>)
    ensures transform.None? ==> r == hits
    ensures transform.Some? && transform.value(hits).Some? ==> r == transform.value(hits).value
    ensures transform.Some? && transform.value(hits).None? ==> r == hits
  {
    match transform
    case None => hits
    case Some(f) =>
      match f(hits)
      case None => hits
      case Some(t) => t
  }

  /** The request an autocomplete source sends: the query after the hook, and
      the parameters after it, so a user-supplied `q` parameter replaces the
      typed query. */
  lemma RequestQuery(query: string, hook: Option<string -> Option<string>>, user: SearchParams)
    ensures "q" !in user && (hook.None? || !Truthy(hook.value(query))) ==>
      SearchRequest(RewriteQuery(query, hook), MergeSearchParams(user))["q"] == Str(query)
    ensures "q" in user ==> SearchRequest(RewriteQuery(query, hook), MergeSearchParams(user))["q"] == user["q"]
    ensures forall k :: k in user ==> SearchRequest(RewriteQuery(query, hook), MergeSearchParams(user))[k] == user[k]
    ensures SearchRequest(RewriteQuery(query, hook), MergeSearchParams(user)).Keys
         == {"q"} + DefaultSearchParams.Keys + user.Keys
  {
    assert "q" !in DefaultSearchParams;
  }

  // ---------------------------------------------------------------------------
  // formatHits

  /** The received hits after the per-hit normalisation, none flagged yet. */
  function Entries(received: seq<RawHit>): (r: seq<GroupedHit>)
    ensures |r| == |received|
    ensures forall i :: 0 <= i < |received| ==> r[i] == Entry(Normalize(received[i]))
  {
    seq(|received|, i requires 0 <= i < |received| => Entry(Normalize(received[i])))
  }

  function ToRecords(s: seq<GroupedHit>): (r: seq<DisplayRecord>)
    ensures |r| == |s|
    ensures forall i :: 0 <= i < |s| ==> r[i] == ToRecord(s[i])
  {
    seq(|s|, i requires 0 <= i < |s| => ToRecord(s[i]))
  }

  /** What `formatHits` returns for the hits it receives. */
  function Formatted(received: seq<RawHit>): seq<DisplayRecord> {
    ToRecords(Grouped(Entries(received)))
  }

  /** `DocSearch.formatHits`: normalise each hit, group by `lvl0`, regroup each
      group by `lvl1` in place, flatten twice while flagging the first hit of
      each group, and derive one record per hit. The received sequence is a
      value, so the caller's hits are left as they were. */
  method FormatHits(received: seq<RawHit>) returns (records: seq<DisplayRecord>)
    ensures records == Formatted(received)
    ensures |records| == |received|
  {
    var hits := Entries(received);
    var groupedHits := GroupBy(hits, 0);
    ghost var byLvl0 := groupedHits;
    var level := 0;
    while level < |groupedHits|
      invariant 0 <= level <= |groupedHits| == |byLvl0|
      invariant forall j :: 0 <= j < level ==> groupedHits[j] == SubGroup(byLvl0[j])
      invariant forall j :: level <= j < |groupedHits| ==> groupedHits[j] == byLvl0[j]
    {
      var collection := groupedHits[level];
      var flattenedHits := FlattenAndFlagFirst(GroupBy(collection, 1), SubCategory);
      groupedHits := groupedHits[level := flattenedHits];
      level := level + 1;
    }
    assert groupedHits == SubGroupAll(byLvl0);
    var flat := FlattenAndFlagFirst(groupedHits, Category);
    records := ToRecords(flat);
    GroupedIsPermutation(hits);
  }

  /** A display record with its two header flags cleared. */
  function Unflagged(r: DisplayRecord): DisplayRecord {
    r.(isCategoryHeader := false, isSubCategoryHeader := false)
  }

  function UnflaggedAll(rs: seq<DisplayRecord>): (r: seq<DisplayRecord>)
    ensures |r| == |rs|
    ensures forall i :: 0 <= i < |rs| ==> r[i] == Unflagged(rs[i])
  {
    seq(|rs|, i requires 0 <= i < |rs| => Unflagged(rs[i]))
  }

  /** The record each hit would give on its own, without header flags. */
  function RecordsOf(hs: seq<Hit>): (r: seq<DisplayRecord>)
    ensures |r| == |hs|
    ensures forall i :: 0 <= i < |hs| ==> r[i] == ToRecord(Entry(hs[i]))
  {
    seq(|hs|, i requires 0 <= i < |hs| => ToRecord(Entry(hs[i])))
  }

  lemma RecordsOfAppend(a: seq<Hit>, b: seq<Hit>)
    ensures RecordsOf(a + b) == RecordsOf(a) + RecordsOf(b)
  {
    var r, s := RecordsOf(a + b), RecordsOf(a) + RecordsOf(b);
    forall i | 0 <= i < |r| ensures r[i] == s[i] {
      if i < |a| {
        assert (a + b)[i] == a[i];
      } else {
        assert (a + b)[i] == b[i - |a|];
      }
    }
  }

  lemma {:induction false} RecordsOfMultiset(a: seq<Hit>, b: seq<Hit>)
    requires multiset(a) == multiset(b)
    ensures multiset(RecordsOf(a)) == multiset(RecordsOf(b))
    decreases |a|
  {
    if a == [] {
      assert |multiset(b)| == 0;
    } else {
      assert a[0] in multiset(b);
      var j :| 0 <= j < |b| && b[j] == a[0];
      var rest := b[..j] + b[j + 1..];
      assert b == b[..j] + [b[j]] + b[j + 1..];
      assert a == [a[0]] + a[1..];
      calc {
        multiset(a[1..]);
        multiset(a) - multiset{a[0]};
        multiset(b) - multiset{b[j]};
        { assert multiset(b) == multiset(b[..j]) + multiset{b[j]} + multiset(b[j + 1..]); }
        multiset(b[..j]) + multiset(b[j + 1..]);
        multiset(rest);
      }
      RecordsOfMultiset(a[1..], rest);
      RecordsOfAppend([a[0]], a[1..]);
      RecordsOfAppend(b[..j], [b[j]]);
      RecordsOfAppend(b[..j] + [b[j]], b[j + 1..]);
      RecordsOfAppend(b[..j], b[j + 1..]);
    }
  }

  /** The header flags are the only part of a record that depends on where
      its hit ends up. */
  lemma UnflaggedRecord(e: GroupedHit)
    ensures Unflagged(ToRecord(e)) == ToRecord(Entry(e.hit))
  {
  }

  /** `formatHits` returns one record per received hit: up to the two header
      flags, its output is a rearrangement of the records of the individual
      normalised hits. */
  lemma FormattedRearranges(received: seq<RawHit>)
    ensures |Formatted(received)| == |received|
    ensures multiset(UnflaggedAll(Formatted(received)))
         == multiset(RecordsOf(HitsOf(Entries(received))))
  {
    var g := Grouped(Entries(received));
    GroupedIsPermutation(Entries(received));
    forall i | 0 <= i < |g| ensures UnflaggedAll(Formatted(received))[i] == RecordsOf(HitsOf(g))[i] {
      UnflaggedRecord(g[i]);
    }
    assert UnflaggedAll(Formatted(received)) == RecordsOf(HitsOf(g));
    RecordsOfMultiset(HitsOf(g), HitsOf(Entries(received)));
  }

  /** The header flags of the output records: a record opens a category exactly
      when it is the first or its (raw) `lvl0` differs from the one before it,
      and opens a sub-category exactly when, in addition, a change of `lvl1`
      suffices. */
  lemma FormattedHeaders(received: seq<RawHit>)
    ensures var g := Grouped(Entries(received));
      |Formatted(received)| == |g| &&
      forall i :: 0 <= i < |g| ==>
        (Formatted(received)[i].isCategoryHeader <==>
          i == 0 || g[i - 1].hit.lvl[0] != g[i].hit.lvl[0]) &&
        (Formatted(received)[i].isSubCategoryHeader <==>
          i == 0 || g[i - 1].hit.lvl[0] != g[i].hit.lvl[0] || g[i - 1].hit.lvl[1] != g[i].hit.lvl[1])
  {
    var g := Grouped(Entries(received));
    GroupedHeaderFlags(Entries(received));
    forall i | 0 <= i < |g|
      ensures Flag(g[i], Category) <==> i == 0 || !SameBlock(g[i - 1], g[i], Category)
      ensures Flag(g[i], SubCategory) <==> i == 0 || !SameBlock(g[i - 1], g[i], SubCategory)
    {
    }
  }

  // ---------------------------------------------------------------------------
  // The objects

  /** The autocomplete options object the constructor receives and completes
      in place (`cssClasses.prefix` is held directly). */
  class AutocompleteOptions {
    var debug: bool
    var hint: bool
    var autoselect: bool
    var cssPrefix: Option<string>
    var ariaLabel: Option<string>

    /** The object used when the caller passes none. */
    constructor Default()
      ensures !debug && !hint && autoselect && cssPrefix == None && ariaLabel == None
    {
      debug := false;
      hint := false;
      autoselect := true;
      cssPrefix := None;
      ariaLabel := None;
    }

    predicate Completed()
      reads this
    {
      Truthy(cssPrefix) && Truthy(ariaLabel)
    }

    /** The constructor's updates: `debug` turns on when either the top-level or
        the option flag is set, the CSS prefix falls back to `ds`, and the
        aria label to the input's own label and then to `search input`.
        Afterwards prefix and label are set, and a second pass leaves them. */
    method Complete(topLevelDebug: bool, inputAriaLabel: Option<string>)
      modifies this
      ensures debug == (topLevelDebug || old(debug))
      ensures cssPrefix == Or(old(cssPrefix), Some("ds"))
      ensures ariaLabel == Or(old(ariaLabel), Or(inputAriaLabel, Some("search input")))
      ensures hint == old(hint) && autoselect == old(autoselect)
      ensures Completed()
      ensures old(Completed()) ==> cssPrefix == old(cssPrefix) && ariaLabel == old(ariaLabel)
    {
      var optionsDebug := if debug then debug else false;
      debug := topLevelDebug || optionsDebug;
      cssPrefix := Or(cssPrefix, Some("ds"));
      ariaLabel := Or(ariaLabel, Or(inputAriaLabel, Some("search input")));
    }
  }

  class DocSearch {
    const typesenseServerConfig: JsValue
    const typesenseCollectionName: JsValue
    const typesenseSearchParams: SearchParams
    const queryHook: Option<string -> Option<string>>
    const transformData: Option<seq<RawHit> -> Option<seq<RawHit>>>
    const autocompleteOptions: AutocompleteOptions
    const isSimpleLayout: bool

    constructor (args: Arguments, userParams: SearchParams,
                 hook: Option<string -> Option<string>>,
                 transform: Option<seq<RawHit> -> Option<seq<RawHit>>>,
                 options: AutocompleteOptions, debug: bool,
                 inputAriaLabel: Option<string>, layout: string)
      requires CheckArguments(args) == None
      modifies options
      ensures typesenseServerConfig == args.typesenseServerConfig
      ensures typesenseCollectionName == args.typesenseCollectionName
      ensures typesenseSearchParams == MergeSearchParams(userParams)
      ensures queryHook == hook && transformData == transform
      ensures autocompleteOptions == options && options.Completed()
      ensures options.debug == (debug || old(options.debug))
      ensures options.cssPrefix == Or(old(options.cssPrefix), Some("ds"))
      ensures options.ariaLabel == Or(old(options.ariaLabel), Or(inputAriaLabel, Some("search input")))
      ensures options.hint == old(options.hint) && options.autoselect == old(options.autoselect)
      ensures isSimpleLayout == (layout == "simple")
    {
      typesenseServerConfig := args.typesenseServerConfig;
      typesenseCollectionName := args.typesenseCollectionName;
      typesenseSearchParams := MergeSearchParams(userParams);
      queryHook := hook;
      transformData := transform;
      autocompleteOptions := options;
      isSimpleLayout := layout == "simple";
      new;
      options.Complete(debug, inputAriaLabel);
    }

    /** `new DocSearch(...)`: the argument checks come first and, when one
        fails, nothing is built and the options object is left untouched. */
    static method Create(args: Arguments, userParams: SearchParams,
                         hook: Option<string -> Option<string>>,
                         transform: Option<seq<RawHit> -> Option<seq<RawHit>>>,
                         options: AutocompleteOptions, debug: bool,
                         inputAriaLabel: Option<string>, layout: string)
      returns (r: Result<DocSearch, ArgumentError>)
      modifies options
      ensures CheckArguments(args).Some? ==> r == Failure(CheckArguments(args).value)
      ensures CheckArguments(args).None? ==> r.Success?
      ensures r.Failure? ==> unchanged(options)
      ensures r.Success? ==>
        (fresh(r.value)
         && r.value.typesenseServerConfig == args.typesenseServerConfig
         && r.value.typesenseCollectionName == args.typesenseCollectionName
         && r.value.typesenseSearchParams == MergeSearchParams(userParams)
         && r.value.queryHook == hook && r.value.transformData == transform
         && r.value.autocompleteOptions == options && options.Completed()
         && options.debug == (debug || old(options.debug))
         && options.cssPrefix == Or(old(options.cssPrefix), Some("ds"))
         && options.ariaLabel == Or(old(options.ariaLabel), Or(inputAriaLabel, Some("search input")))
         && options.hint == old(options.hint) && options.autoselect == old(options.autoselect)
         && r.value.isSimpleLayout == (layout == "simple"))
    {
      var err := CheckArguments(args);
      if err.Some? {
        return Failure(err.value);
      }
      var d := new DocSearch(args, userParams, hook, transform, options, debug, inputAriaLabel, layout);
      r := Success(d);
    }

    /** The body of the `source` function handed to autocomplete.js, with the
        network round trip and the response adapter taken as `backend`: the
        request it sends and the records it passes to the callback. */
    method Source(query: string, backend: SearchParams -> seq<RawHit>)
      returns (request: SearchParams, records: seq<DisplayRecord>)
      ensures request == SearchRequest(RewriteQuery(query, queryHook), typesenseSearchParams)
      ensures records == Formatted(TransformHits(backend(request), transformData))
      ensures |records| == |TransformHits(backend(request), transformData)|
    {
      var q := query;
      if queryHook.Some? {
        q := TextOf(Or(queryHook.value(q), Some(q)));
      }
      request := SearchRequest(q, typesenseSearchParams);
      var hits := backend(request);
      if transformData.Some? {
        var transformed := transformData.value(hits);
        if transformed.Some? {
          hits := transformed.value;
        }
      }
      records := FormatHits(hits);
    }
  }
}
