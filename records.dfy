/** The records that `formatHits` hands to the suggestion template
    (src/lib/DocSearch.js, lines 285-330) and `formatURL` (lines 333-345). */
module Records {
  import opened Wrappers
  import opened Hits
  import opened Grouping

  // ---------------------------------------------------------------------------
  // formatURL

  /** `s.indexOf(c)`: the first position of `c` in `s`, or -1. */
  function IndexOf(s: string, c: char): (r: int)
    ensures r == -1 <==> c !in s
    ensures r != -1 ==> 0 <= r < |s| && s[r] == c && c !in s[..r]
  {
    if s == [] then -1
    else if s[0] == c then 0
    else
      var i := IndexOf(s[1..], c);
      assert s[1..] == s[..|s|][1..];
      if i == -1 then -1 else i + 1
  }

  /** The link of a suggestion: the page URL, with the hit's anchor appended as a
      fragment unless the URL already carries one; `null` (`None`) when the hit
      has neither URL nor anchor. */
  function FormatURL(url: Option<string>, anchor: Option<string>): (r: Option<string>)
    ensures Truthy(url) && '#' in url.value ==> r == url
    ensures Truthy(url) && '#' !in url.value && Truthy(anchor) ==> r == Some(url.value + "#" + anchor.value)
    ensures Truthy(url) && !Truthy(anchor) ==> r == url
    ensures !Truthy(url) && Truthy(anchor) ==> r == Some("#" + anchor.value)
    ensures r == None <==> !Truthy(url) && !Truthy(anchor)
  {
    if Truthy(url) then
      if IndexOf(url.value, '#') != -1 then url
      else if Truthy(anchor) then Some(url.value + "#" + anchor.value)
      else url
    else if Truthy(anchor) then Some("#" + anchor.value)
    else None
  }

  /** Splitting a link at its first `#`: the part before and, when there is a
      `#`, the fragment after it. */
  function SplitFragment(link: string): (r: (string, Option<string>))
    ensures r.1 == None <==> '#' !in link
    ensures r.1 == None ==> r.0 == link
    ensures r.1.Some? ==> link == r.0 + "#" + r.1.value && '#' !in r.0
  {
    var i := IndexOf(link, '#');
    if i == -1 then (link, None)
    else
      assert link == link[..i] + "#" + link[i + 1..];
      (link[..i], Some(link[i + 1..]))
  }

  /** What a link produced by `FormatURL` points at: a truthy result always
      comes back, and splitting it at its first `#` gives back the URL and the
      anchor when the anchor was appended, the URL's own fragment when it
      already had one, and no fragment at all when there was no anchor. */
  lemma FormatURLFragment(url: Option<string>, anchor: Option<string>)
    ensures FormatURL(url, anchor).Some? ==> Truthy(FormatURL(url, anchor))
    ensures Truthy(url) && '#' !in url.value && Truthy(anchor) ==>
      SplitFragment(FormatURL(url, anchor).value) == (url.value, anchor)
    ensures !Truthy(url) && Truthy(anchor) ==>
      SplitFragment(FormatURL(url, anchor).value) == ("", anchor)
    ensures Truthy(url) && '#' in url.value ==>
      SplitFragment(FormatURL(url, anchor).value) == SplitFragment(url.value)
    ensures Truthy(url) && '#' !in url.value && !Truthy(anchor) ==>
      SplitFragment(FormatURL(url, anchor).value) == (url.value, None)
  {
    if Truthy(url) && '#' !in url.value && Truthy(anchor) {
      FirstHashAfter(url.value, anchor.value);
    }
    if !Truthy(url) && Truthy(anchor) {
      FirstHashAfter("", anchor.value);
    }
  }

  lemma FirstHashAfter(u: string, a: string)
    requires '#' !in u
    ensures SplitFragment(u + "#" + a) == (u, Some(a))
  {
    var link := u + "#" + a;
    assert link[|u|] == '#' && link[..|u|] == u && link[|u| + 1..] == a;
    assert '#' in link;
  }

  // ---------------------------------------------------------------------------
  // Title

  /** `utils.compact`: the non-empty strings, in order. */
  function Compact(vals: seq<Option<string>>): (r: seq<string>)
    ensures |r| <= |vals|
  {
    if vals == [] then []
    else (if Truthy(vals[0]) then [vals[0].value] else []) + Compact(vals[1..])
  }

  /** No empty string survives; nothing survives exactly when every value is
      falsy; a truthy first value comes first. */
  lemma {:induction false} CompactFacts(vals: seq<Option<string>>)
    ensures forall i :: 0 <= i < |Compact(vals)| ==> Compact(vals)[i] != ""
    ensures Compact(vals) == [] <==> forall i :: 0 <= i < |vals| ==> !Truthy(vals[i])
    ensures vals != [] && Truthy(vals[0]) ==> Compact(vals) != [] && Compact(vals)[0] == vals[0].value
  {
    if vals != [] {
      CompactFacts(vals[1..]);
      assert forall i :: 1 <= i < |vals| ==> vals[i] == vals[1..][i - 1];
    }
  }

  /** A falsy value contributes nothing, wherever it stands. */
  lemma {:induction false} CompactOmits(a: seq<Option<string>>, v: Option<string>, b: seq<Option<string>>)
    requires !Truthy(v)
    ensures Compact(a + [v] + b) == Compact(a + b)
  {
    var x := a + [v] + b;
    if a == [] {
      assert x[0] == v && x[1..] == b && a + b == b;
      assert Compact(x) == Compact(x[1..]);
    } else {
      CompactOmits(a[1..], v, b);
      var y := a + b;
      assert x[0] == a[0] && x[1..] == a[1..] + [v] + b;
      assert y[0] == a[0] && y[1..] == a[1..] + b;
      assert Compact(x[1..]) == Compact(y[1..]);
    }
  }

  /** Compacting a single value keeps it exactly when it is truthy. */
  lemma CompactSingle(v: Option<string>)
    ensures Compact([v]) == (if Truthy(v) then [v.value] else [])
  {
    assert [v][1..] == [];
  }

  /** Compacting works piecewise: together with `CompactSingle`, every truthy
      value is kept, in its order, and every falsy one dropped. */
  lemma {:induction false} CompactAppend(a: seq<Option<string>>, b: seq<Option<string>>)
    ensures Compact(a + b) == Compact(a) + Compact(b)
  {
    if a == [] {
      assert a + b == b;
    } else {
      CompactAppend(a[1..], b);
      var x := a + b;
      assert x[0] == a[0] && x[1..] == a[1..] + b;
      var head := if Truthy(a[0]) then [a[0].value] else [];
      assert head + (Compact(a[1..]) + Compact(b)) == (head + Compact(a[1..])) + Compact(b);
    }
  }

  /** `Array.prototype.join`. */
  function Join(segs: seq<string>, sep: string): (r: string)
    ensures segs == [] ==> r == ""
    ensures segs != [] ==> segs[0] <= r
    ensures |segs| == 1 ==> r == segs[0]
    ensures |segs| > 1 ==> segs[0] + sep <= r
  {
    if segs == [] then ""
    else if |segs| == 1 then segs[0]
    else segs[0] + sep + Join(segs[1..], sep)
  }

  /** The join of non-empty segments is empty exactly when there are none. */
  lemma JoinEmpty(segs: seq<string>, sep: string)
    requires forall i :: 0 <= i < |segs| ==> segs[i] != ""
    ensures Join(segs, sep) == "" <==> segs == []
  {
    if segs != [] {
      assert segs[0] <= Join(segs, sep) && |segs[0]| > 0;
    }
  }

  /** Joining two non-empty runs of segments puts one separator between them. */
  lemma {:induction false} JoinAppend(a: seq<string>, b: seq<string>, sep: string)
    requires a != [] && b != []
    ensures Join(a + b, sep) == Join(a, sep) + sep + Join(b, sep)
  {
    assert (a + b)[0] == a[0] && (a + b)[1..] == a[1..] + b;
    if |a| > 1 {
      JoinAppend(a[1..], b, sep);
      calc {
        Join(a + b, sep);
        a[0] + sep + Join(a[1..] + b, sep);
        a[0] + sep + (Join(a[1..], sep) + sep + Join(b, sep));
        { assert a[0] + sep + (Join(a[1..], sep) + sep + Join(b, sep))
              == (a[0] + sep + Join(a[1..], sep)) + sep + Join(b, sep); }
        Join(a, sep) + sep + Join(b, sep);
      }
    }
  }

  const TitleSeparator: string :=
    "<span class=\"aa-suggestion-title-separator\" aria-hidden=\"true\"> › </span>"

  function Category(h: Hit): Option<string> {
    PreferredValue(h, Lvl(0))
  }

  /** The `lvl1` value, or the category when `lvl1` is empty. */
  function Subcategory(h: Hit): (r: Option<string>)
    ensures Truthy(PreferredValue(h, Lvl(1))) ==> r == PreferredValue(h, Lvl(1))
    ensures !Truthy(PreferredValue(h, Lvl(1))) ==> r == Category(h)
  {
    Or(PreferredValue(h, Lvl(1)), Category(h))
  }

  /** The five title slots: `lvl2` or else the subcategory, then `lvl3`..`lvl6`. */
  function TitleSlots(h: Hit): seq<Option<string>> {
    [Or(PreferredValue(h, Lvl(2)), Subcategory(h)),
     PreferredValue(h, Lvl(3)), PreferredValue(h, Lvl(4)),
     PreferredValue(h, Lvl(5)), PreferredValue(h, Lvl(6))]
  }

  /** The slots after the first: `lvl3`..`lvl6`. */
  function DeeperSlots(h: Hit): seq<Option<string>> {
    [PreferredValue(h, Lvl(3)), PreferredValue(h, Lvl(4)),
     PreferredValue(h, Lvl(5)), PreferredValue(h, Lvl(6))]
  }

  function Title(h: Hit): string {
    Join(Compact(TitleSlots(h)), TitleSeparator)
  }

  /** The whole title: the first slot (`lvl2`, else the subcategory) when it
      is non-empty, then the separator, then the non-empty values among
      `lvl3`..`lvl6` in order, joined by the separator. */
  lemma TitleLayout(h: Hit)
    ensures var first := Or(PreferredValue(h, Lvl(2)), Subcategory(h));
      && (Truthy(first) && Compact(DeeperSlots(h)) != [] ==>
            Title(h) == first.value + TitleSeparator + Join(Compact(DeeperSlots(h)), TitleSeparator))
      && (Truthy(first) && Compact(DeeperSlots(h)) == [] ==> Title(h) == first.value)
      && (!Truthy(first) ==> Title(h) == Join(Compact(DeeperSlots(h)), TitleSeparator))
  {
    var first := Or(PreferredValue(h, Lvl(2)), Subcategory(h));
    var deeper := DeeperSlots(h);
    assert TitleSlots(h) == [first] + deeper;
    CompactAppend([first], deeper);
    CompactSingle(first);
    if Truthy(first) && Compact(deeper) != [] {
      JoinAppend([first.value], Compact(deeper), TitleSeparator);
    } else if !Truthy(first) {
      assert Compact(TitleSlots(h)) == [] + Compact(deeper) == Compact(deeper);
    }
  }

  /** The title starts with `lvl2`, or with the subcategory when `lvl2` is
      empty; deeper levels that are empty are left out, so with `lvl3`..`lvl6`
      all empty the title is the first slot alone, and with `lvl2`..`lvl6` all
      empty it is the subcategory. It is empty exactly when every slot is. */
  lemma TitleFacts(h: Hit)
    ensures Truthy(PreferredValue(h, Lvl(2))) ==> PreferredValue(h, Lvl(2)).value <= Title(h)
    ensures !Truthy(PreferredValue(h, Lvl(2))) && Truthy(Subcategory(h)) ==> Subcategory(h).value <= Title(h)
    ensures (forall l: Level :: 3 <= l ==> !Truthy(PreferredValue(h, Lvl(l)))) ==>
      Title(h) == TextOf(Or(PreferredValue(h, Lvl(2)), Subcategory(h)))
    ensures (forall l: Level :: 2 <= l ==> !Truthy(PreferredValue(h, Lvl(l)))) ==>
      Title(h) == TextOf(Subcategory(h))
    ensures Title(h) == "" <==> !Truthy(Subcategory(h)) && forall l: Level :: 2 <= l ==> !Truthy(PreferredValue(h, Lvl(l)))
  {
    var slots := TitleSlots(h);
    var first := slots[0];
    CompactFacts(slots);
    JoinEmpty(Compact(slots), TitleSeparator);
    var p2, p3, p4, p5, p6 := PreferredValue(h, Lvl(2)), PreferredValue(h, Lvl(3)),
      PreferredValue(h, Lvl(4)), PreferredValue(h, Lvl(5)), PreferredValue(h, Lvl(6));
    assert |slots| == 5 && slots[0] == Or(p2, Subcategory(h)) && slots[1] == p3 && slots[2] == p4
      && slots[3] == p5 && slots[4] == p6;
    assert (forall i :: 0 <= i < |slots| ==> !Truthy(slots[i])) <==>
      !Truthy(Subcategory(h)) && !Truthy(p2) && !Truthy(p3) && !Truthy(p4) && !Truthy(p5) && !Truthy(p6);
    assert (forall l: Level :: 2 <= l ==> !Truthy(PreferredValue(h, Lvl(l)))) <==>
      !Truthy(p2) && !Truthy(p3) && !Truthy(p4) && !Truthy(p5) && !Truthy(p6);
    assert forall i :: 1 <= i < 5 ==> slots[i] == PreferredValue(h, Lvl(i + 2));
    if forall l: Level :: 3 <= l ==> !Truthy(PreferredValue(h, Lvl(l))) {
      assert !Truthy(slots[1]) && !Truthy(slots[2]) && !Truthy(slots[3]) && !Truthy(slots[4]);
      OnlyFirstSlot(slots);
      assert Join(Compact(slots), TitleSeparator) == TextOf(first);
    }
  }

  lemma OnlyFirstSlot(slots: seq<Option<string>>)
    requires slots != []
    requires forall i :: 1 <= i < |slots| ==> !Truthy(slots[i])
    ensures Compact(slots) == (if Truthy(slots[0]) then [slots[0].value] else [])
  {
    var tail := slots[1..];
    forall i | 0 <= i < |tail| ensures !Truthy(tail[i]) {
      assert tail[i] == slots[i + 1];
    }
  }

  // ---------------------------------------------------------------------------
  // The display record

  /** The object literal returned for each grouped hit. Flags are booleans
      here; see README for the JavaScript values they stand for. */
  datatype DisplayRecord = DisplayRecord(
    isLvl0: bool,
    isLvl1: bool,
    isLvl2: bool,
    isLvl1EmptyOrDuplicate: bool,
    isCategoryHeader: bool,
    isSubCategoryHeader: bool,
    isTextOrSubcategoryNonEmpty: bool,
    category: Option<string>,
    subcategory: Option<string>,
    title: string,
    text: Option<string>,
    url: Option<string>)

  /** The body of the final `map` of `formatHits`. */
  function ToRecord(e: GroupedHit): (r: DisplayRecord)
    // exactly one level flag
    ensures (r.isLvl0 || r.isLvl1 || r.isLvl2)
    ensures !(r.isLvl0 && r.isLvl1) && !(r.isLvl0 && r.isLvl2) && !(r.isLvl1 && r.isLvl2)
    // what each flag means
    ensures r.isLvl1EmptyOrDuplicate <==> !Truthy(r.subcategory) || r.subcategory == r.category
    ensures r.isLvl2 <==> r.title != "" && Some(r.title) != r.subcategory
    ensures r.isLvl1 <==> !r.isLvl2 && !r.isLvl1EmptyOrDuplicate
    ensures r.isLvl0 <==> !r.isLvl2 && r.isLvl1EmptyOrDuplicate
    ensures r.isTextOrSubcategoryNonEmpty <==> r.title != ""
    // where the values come from
    ensures r.category == PreferredValue(e.hit, Lvl(0))
    ensures Truthy(PreferredValue(e.hit, Lvl(1))) ==> r.subcategory == PreferredValue(e.hit, Lvl(1))
    ensures !Truthy(PreferredValue(e.hit, Lvl(1))) ==> r.subcategory == r.category
    ensures r.text == PreferredValue(e.hit, Content)
    ensures r.url == FormatURL(e.hit.url, e.hit.anchor)
    ensures r.isCategoryHeader == e.isCategoryHeader && r.isSubCategoryHeader == e.isSubCategoryHeader
    // the title
    ensures r.title == Title(e.hit)
    ensures Truthy(PreferredValue(e.hit, Lvl(2))) ==> PreferredValue(e.hit, Lvl(2)).value <= r.title
    ensures !Truthy(PreferredValue(e.hit, Lvl(2))) && Truthy(r.subcategory) ==> r.subcategory.value <= r.title
    ensures (forall l: Level :: 2 <= l ==> !Truthy(PreferredValue(e.hit, Lvl(l)))) ==>
      r.title == TextOf(r.subcategory) && !r.isLvl2
  {
    var h := e.hit;
    var category := Category(h);
    var subcategory := Subcategory(h);
    var title := Title(h);
    TitleFacts(h);
    var isTextOrSubcategoryNonEmpty := Truthy(subcategory) || title != "";
    var isLvl1EmptyOrDuplicate := !Truthy(subcategory) || subcategory == category;
    var isLvl2 := title != "" && Some(title) != subcategory;
    var isLvl1 := !isLvl2 && Truthy(subcategory) && subcategory != category;
    var isLvl0 := !isLvl1 && !isLvl2;
    DisplayRecord(
      isLvl0, isLvl1, isLvl2, isLvl1EmptyOrDuplicate,
      e.isCategoryHeader, e.isSubCategoryHeader, isTextOrSubcategoryNonEmpty,
      category, subcategory, title,
      PreferredValue(h, Content), FormatURL(h.url, h.anchor))
  }
}
