/** The two-level grouping of `formatHits` (src/lib/DocSearch.js, lines 273-283):
    hits are grouped by `lvl0`, each group is regrouped by `lvl1` and flattened
    with `isSubCategoryHeader` set on the first hit of every sub-group, and the
    `lvl0` groups are flattened with `isCategoryHeader` set on the first hit of
    every group. `GroupBy` and `FlattenAndFlagFirst` are the two shared routines
    and are used at both levels. */
module Grouping {
  import opened Wrappers
  import opened Hits

  /** A normalised hit with the two header flags that the grouping sets on it. */
  datatype GroupedHit = GroupedHit(hit: Hit, isCategoryHeader: bool, isSubCategoryHeader: bool)

  /** A hit before grouping: neither flag is set yet (`undefined` in the source). */
  function Entry(h: Hit): GroupedHit {
    GroupedHit(h, false, false)
  }

  /** Which flag a flattening pass sets: the one of the `lvl0` groups or the
      one of the `lvl1` sub-groups. */
  datatype Depth = Category | SubCategory

  function Key(e: GroupedHit, l: Level): Option<string> {
    e.hit.lvl[l]
  }

  /** Two hits belong to the same category block (same `lvl0`) or the same
      sub-category block (same `lvl0` and `lvl1`). */
  predicate SameBlock(a: GroupedHit, b: GroupedHit, d: Depth) {
    Key(a, 0) == Key(b, 0) && (d == SubCategory ==> Key(a, 1) == Key(b, 1))
  }

  function Flag(e: GroupedHit, d: Depth): bool {
    match d
    case Category => e.isCategoryHeader
    case SubCategory => e.isSubCategoryHeader
  }

  function SetFlag(e: GroupedHit, d: Depth, v: bool): GroupedHit {
    match d
    case Category => e.(isCategoryHeader := v)
    case SubCategory => e.(isSubCategoryHeader := v)
  }

  function HitsOf(s: seq<GroupedHit>): (r: seq<Hit>)
    ensures |r| == |s| && forall i :: 0 <= i < |s| ==> r[i] == s[i].hit
  {
    seq(|s|, i requires 0 <= i < |s| => s[i].hit)
  }

  // ---------------------------------------------------------------------------
  // The routines

  /** The hits of `s` whose level `l` is `k`, in their order in `s`. */
  function WithKey(s: seq<GroupedHit>, l: Level, k: Option<string>): (r: seq<GroupedHit>)
    ensures |r| <= |s|
  {
    if s == [] then []
    else (if Key(s[0], l) == k then [s[0]] else []) + WithKey(s[1..], l, k)
  }

  /** The hits of `s` whose level `l` is not `k`, in their order in `s`. */
  function WithoutKey(s: seq<GroupedHit>, l: Level, k: Option<string>): (r: seq<GroupedHit>)
    ensures |r| <= |s|
  {
    if s == [] then []
    else (if Key(s[0], l) != k then [s[0]] else []) + WithoutKey(s[1..], l, k)
  }

  /** `utils.groupBy(hits, 'lvlN')`: one group per distinct value of level `l`,
      groups in the order in which their value first occurs, each group holding
      the hits with that value in their input order. */
  function GroupBy(s: seq<GroupedHit>, l: Level): seq<seq<GroupedHit>>
    decreases |s|
  {
    if s == [] then []
    else
      var k := Key(s[0], l);
      [WithKey(s, l, k)] + GroupBy(WithoutKey(s, l, k), l)
  }

  function Concat(gs: seq<seq<GroupedHit>>): seq<GroupedHit> {
    if gs == [] then [] else gs[0] + Concat(gs[1..])
  }

  /** One group with flag `d` set on its first hit and cleared on the others. */
  function FlagFirst(g: seq<GroupedHit>, d: Depth): (r: seq<GroupedHit>)
    ensures |r| == |g|
    ensures forall i :: 0 <= i < |g| ==> r[i] == SetFlag(g[i], d, i == 0)
  {
    seq(|g|, i requires 0 <= i < |g| => SetFlag(g[i], d, i == 0))
  }

  /** `utils.flattenAndFlagFirst(groups, flag)`. */
  function FlattenAndFlagFirst(gs: seq<seq<GroupedHit>>, d: Depth): seq<GroupedHit> {
    Concat(FlagFirstAll(gs, d))
  }

  function FlagFirstAll(gs: seq<seq<GroupedHit>>, d: Depth): (r: seq<seq<GroupedHit>>)
    ensures |r| == |gs|
    ensures forall m :: 0 <= m < |gs| ==> r[m] == FlagFirst(gs[m], d)
  {
    seq(|gs|, m requires 0 <= m < |gs| => FlagFirst(gs[m], d))
  }

  /** The body of the `$.each` loop: one `lvl0` group regrouped by `lvl1` and
      flattened with the sub-category flag. */
  function SubGroup(g: seq<GroupedHit>): seq<GroupedHit> {
    FlattenAndFlagFirst(GroupBy(g, 1), SubCategory)
  }

  function SubGroupAll(gs: seq<seq<GroupedHit>>): (r: seq<seq<GroupedHit>>)
    ensures |r| == |gs|
    ensures forall m :: 0 <= m < |gs| ==> r[m] == SubGroup(gs[m])
  {
    seq(|gs|, m requires 0 <= m < |gs| => SubGroup(gs[m]))
  }

  /** The whole grouping stage, as a function of the normalised hits. */
  function Grouped(s: seq<GroupedHit>): seq<GroupedHit> {
    FlattenAndFlagFirst(SubGroupAll(GroupBy(s, 0)), Category)
  }

  // ---------------------------------------------------------------------------
  // The properties, and the reference definitions they are stated against

  /** The distinct values of level `l` in the order a JavaScript object acquires
      them as keys when the hits are pushed into it one after the other. */
  function InsertionOrderKeys(s: seq<GroupedHit>, l: Level): seq<Option<string>> {
    if s == [] then []
    else
      var ks := InsertionOrderKeys(s[..|s| - 1], l);
      var k := Key(s[|s| - 1], l);
      if k in ks then ks else ks + [k]
  }

  /** The value of level `l` at every hit that carries flag `d`, in order. */
  function HeaderKeys(s: seq<GroupedHit>, d: Depth, l: Level): seq<Option<string>> {
    if s == [] then []
    else (if Flag(s[0], d) then [Key(s[0], l)] else []) + HeaderKeys(s[1..], d, l)
  }

  /** Hits of one block are never separated by a hit of another block. */
  predicate Contiguous(s: seq<GroupedHit>, d: Depth) {
    forall i, j, k :: 0 <= i < j < k < |s| && SameBlock(s[i], s[k], d) ==> SameBlock(s[i], s[j], d)
  }

  /** Flag `d` is set exactly on the first hit of every block. */
  predicate BoundaryFlags(s: seq<GroupedHit>, d: Depth) {
    (s != [] ==> Flag(s[0], d)) &&
    forall i :: 0 < i < |s| ==> (Flag(s[i], d) <==> !SameBlock(s[i - 1], s[i], d))
  }

  function Head(g: seq<GroupedHit>, l: Level): Option<string> {
    if g == [] then None else Key(g[0], l)
  }

  /** The level-`l` value of the first hit of every group. */
  function Heads(gs: seq<seq<GroupedHit>>, l: Level): (r: seq<Option<string>>)
    ensures |r| == |gs| && forall m :: 0 <= m < |gs| ==> r[m] == Head(gs[m], l)
  {
    if gs == [] then [] else [Head(gs[0], l)] + Heads(gs[1..], l)
  }

  predicate UniformAt(s: seq<GroupedHit>, l: Level, k: Option<string>) {
    forall e :: e in s ==> Key(e, l) == k
  }

  /** Every group is non-empty and all its hits share their level-`l` value. */
  predicate Keyed(gs: seq<seq<GroupedHit>>, l: Level) {
    forall m :: 0 <= m < |gs| ==> gs[m] != [] && UniformAt(gs[m], l, Head(gs[m], l))
  }

  predicate Distinct(ks: seq<Option<string>>) {
    forall i, j :: 0 <= i < j < |ks| ==> ks[i] != ks[j]
  }

  // ---------------------------------------------------------------------------
  // Filters

  lemma {:induction false} WithKeyMembers(s: seq<GroupedHit>, l: Level, k: Option<string>)
    ensures forall e :: e in WithKey(s, l, k) <==> e in s && Key(e, l) == k
  {
    if s != [] {
      WithKeyMembers(s[1..], l, k);
      assert s == [s[0]] + s[1..];
    }
  }

  lemma {:induction false} WithoutKeyMembers(s: seq<GroupedHit>, l: Level, k: Option<string>)
    ensures forall e :: e in WithoutKey(s, l, k) <==> e in s && Key(e, l) != k
  {
    if s != [] {
      WithoutKeyMembers(s[1..], l, k);
      assert s == [s[0]] + s[1..];
    }
  }

  lemma {:induction false} WithKeyAppend(a: seq<GroupedHit>, b: seq<GroupedHit>, l: Level, k: Option<string>)
    ensures WithKey(a + b, l, k) == WithKey(a, l, k) + WithKey(b, l, k)
  {
    if a == [] {
      assert a + b == b;
    } else {
      var x := if Key(a[0], l) == k then [a[0]] else [];
      assert (a + b)[0] == a[0];
      assert (a + b)[1..] == a[1..] + b;
      calc {
        WithKey(a + b, l, k);
        x + WithKey(a[1..] + b, l, k);
        { WithKeyAppend(a[1..], b, l, k); }
        x + (WithKey(a[1..], l, k) + WithKey(b, l, k));
        (x + WithKey(a[1..], l, k)) + WithKey(b, l, k);
      }
    }
  }

  lemma {:induction false} WithoutKeyAppend(a: seq<GroupedHit>, b: seq<GroupedHit>, l: Level, k: Option<string>)
    ensures WithoutKey(a + b, l, k) == WithoutKey(a, l, k) + WithoutKey(b, l, k)
  {
    if a == [] {
      assert a + b == b;
    } else {
      var x := if Key(a[0], l) != k then [a[0]] else [];
      assert (a + b)[0] == a[0];
      assert (a + b)[1..] == a[1..] + b;
      calc {
        WithoutKey(a + b, l, k);
        x + WithoutKey(a[1..] + b, l, k);
        { WithoutKeyAppend(a[1..], b, l, k); }
        x + (WithoutKey(a[1..], l, k) + WithoutKey(b, l, k));
        (x + WithoutKey(a[1..], l, k)) + WithoutKey(b, l, k);
      }
    }
  }

  lemma HitsOfAppend(a: seq<GroupedHit>, b: seq<GroupedHit>)
    ensures HitsOf(a + b) == HitsOf(a) + HitsOf(b)
  {
  }

  /** Splitting by one key value loses and duplicates no hit. */
  lemma {:induction false} SplitKeepsHits(s: seq<GroupedHit>, l: Level, k: Option<string>)
    ensures multiset(HitsOf(WithKey(s, l, k))) + multiset(HitsOf(WithoutKey(s, l, k))) == multiset(HitsOf(s))
  {
    if s != [] {
      SplitKeepsHits(s[1..], l, k);
      var first := if Key(s[0], l) == k then [s[0]] else [];
      var other := if Key(s[0], l) != k then [s[0]] else [];
      HitsOfAppend(first, WithKey(s[1..], l, k));
      HitsOfAppend(other, WithoutKey(s[1..], l, k));
      assert s == [s[0]] + s[1..];
      HitsOfAppend([s[0]], s[1..]);
    }
  }

  /** Removing one key value does not disturb the hits of another. */
  lemma {:induction false} WithKeyOfWithout(s: seq<GroupedHit>, l: Level, k: Option<string>, other: Option<string>)
    requires k != other
    ensures WithKey(WithoutKey(s, l, other), l, k) == WithKey(s, l, k)
  {
    if s != [] {
      WithKeyOfWithout(s[1..], l, k, other);
      if Key(s[0], l) != other {
        var x := if Key(s[0], l) == k then [s[0]] else [];
        assert WithoutKey(s, l, other) == [s[0]] + WithoutKey(s[1..], l, other);
        WithKeyAppend([s[0]], WithoutKey(s[1..], l, other), l, k);
        assert [s[0]][1..] == [];
        assert WithKey([s[0]], l, k) == x;
      } else {
        assert WithoutKey(s, l, other) == WithoutKey(s[1..], l, other);
      }
    }
  }

  lemma WithKeyAbsent(s: seq<GroupedHit>, l: Level, k: Option<string>)
    requires forall e :: e in s ==> Key(e, l) != k
    ensures WithKey(s, l, k) == []
  {
    WithKeyMembers(s, l, k);
  }

  lemma WithKeyUniform(g: seq<GroupedHit>, l: Level, k: Option<string>, other: Option<string>)
    requires UniformAt(g, l, other)
    ensures WithKey(g, l, k) == if k == other then g else []
    decreases |g|
  {
    if g != [] {
      assert forall e :: e in g[1..] ==> e in g;
      WithKeyUniform(g[1..], l, k, other);
      assert g == [g[0]] + g[1..];
    } else {
      assert g == [];
    }
  }

  // ---------------------------------------------------------------------------
  // GroupBy

  /** The groups are non-empty, keyed by distinct values, hold hits of `s`
      only, cover every value of `s`, and together hold exactly the hits of `s`. */
  lemma {:induction false} GroupByFacts(s: seq<GroupedHit>, l: Level)
    ensures Keyed(GroupBy(s, l), l)
    ensures Distinct(Heads(GroupBy(s, l), l))
    ensures forall m, e :: 0 <= m < |GroupBy(s, l)| && e in GroupBy(s, l)[m] ==> e in s
    ensures forall e :: e in s ==> Key(e, l) in Heads(GroupBy(s, l), l)
    ensures multiset(HitsOf(Concat(GroupBy(s, l)))) == multiset(HitsOf(s))
    decreases |s|
  {
    if s != [] {
      var k := Key(s[0], l);
      var first := WithKey(s, l, k);
      var rest := WithoutKey(s, l, k);
      var gs := GroupBy(s, l);
      GroupByFacts(rest, l);
      WithKeyMembers(s, l, k);
      WithoutKeyMembers(s, l, k);
      assert first == [s[0]] + WithKey(s[1..], l, k);
      assert gs == [first] + GroupBy(rest, l);
      assert gs[1..] == GroupBy(rest, l);
      assert Heads(gs, l) == [k] + Heads(GroupBy(rest, l), l);
      forall m | 0 <= m < |gs|
        ensures gs[m] != [] && gs[m][0] in s && UniformAt(gs[m], l, Head(gs[m], l))
      {
        if m > 0 {
          assert gs[m] == GroupBy(rest, l)[m - 1];
          assert gs[m][0] in gs[m];
        }
      }
      forall i, j | 0 <= i < j < |gs| ensures Heads(gs, l)[i] != Heads(gs, l)[j] {
        assert gs[j][0] in gs[j];
        if i == 0 {
          assert gs[j][0] in rest;
        }
      }
      assert Concat(gs) == first + Concat(GroupBy(rest, l));
      HitsOfAppend(first, Concat(GroupBy(rest, l)));
      SplitKeepsHits(s, l, k);
    }
  }

  lemma InsertionOrderSnoc(u: seq<GroupedHit>, y: GroupedHit, l: Level)
    ensures InsertionOrderKeys(u + [y], l)
         == if Key(y, l) in InsertionOrderKeys(u, l) then InsertionOrderKeys(u, l)
            else InsertionOrderKeys(u, l) + [Key(y, l)]
  {
    assert (u + [y])[..|u|] == u;
    assert (u + [y])[|u|] == y;
  }

  lemma WithoutKeySingle(y: GroupedHit, l: Level, k: Option<string>)
    ensures WithoutKey([y], l, k) == if Key(y, l) != k then [y] else []
  {
    assert [y][1..] == [];
  }

  lemma InsertionOrderFrontStep(x: GroupedHit, u: seq<GroupedHit>, y: GroupedHit, l: Level)
    requires InsertionOrderKeys([x] + u, l)
          == [Key(x, l)] + InsertionOrderKeys(WithoutKey(u, l, Key(x, l)), l)
    ensures InsertionOrderKeys([x] + u + [y], l)
         == [Key(x, l)] + InsertionOrderKeys(WithoutKey(u + [y], l, Key(x, l)), l)
  {
    var kx, ky := Key(x, l), Key(y, l);
    var w := WithoutKey(u, l, kx);
    var ks := InsertionOrderKeys(w, l);
    InsertionOrderSnoc([x] + u, y, l);
    WithoutKeyAppend(u, [y], l, kx);
    WithoutKeySingle(y, l, kx);
    if ky != kx {
      assert WithoutKey(u + [y], l, kx) == w + [y];
      InsertionOrderSnoc(w, y, l);
      assert ky in [kx] + ks <==> ky in ks;
      if ky !in ks {
        assert [kx] + ks + [ky] == [kx] + (ks + [ky]);
      }
    } else {
      assert WithoutKey(u + [y], l, kx) == w;
      assert ky in [kx] + ks;
    }
  }

  /** Pushing `x` first and then `t` gives `x`'s value first, then the values of
      the rest of `t` without it. */
  lemma {:induction false} InsertionOrderFront(x: GroupedHit, t: seq<GroupedHit>, l: Level)
    ensures InsertionOrderKeys([x] + t, l) == [Key(x, l)] + InsertionOrderKeys(WithoutKey(t, l, Key(x, l)), l)
    decreases |t|
  {
    if t == [] {
      assert [x] + t == [] + [x];
      InsertionOrderSnoc([], x, l);
    } else {
      var u, y := t[..|t| - 1], t[|t| - 1];
      assert t == u + [y];
      assert [x] + t == [x] + u + [y];
      InsertionOrderFront(x, u, l);
      InsertionOrderFrontStep(x, u, y, l);
    }
  }

  /** Groups appear in the order in which their value first occurs. */
  lemma {:induction false} GroupByOrder(s: seq<GroupedHit>, l: Level)
    ensures Heads(GroupBy(s, l), l) == InsertionOrderKeys(s, l)
    decreases |s|
  {
    if s != [] {
      var k := Key(s[0], l);
      var rest := WithoutKey(s, l, k);
      GroupByOrder(rest, l);
      assert WithKey(s, l, k) == [s[0]] + WithKey(s[1..], l, k);
      assert rest == WithoutKey(s[1..], l, k);
      assert s == [s[0]] + s[1..];
      InsertionOrderFront(s[0], s[1..], l);
    }
  }

  /** Each group is exactly the hits of `s` that carry its value. */
  lemma {:induction false} GroupByMember(s: seq<GroupedHit>, l: Level)
    ensures forall m :: 0 <= m < |GroupBy(s, l)| ==>
      GroupBy(s, l)[m] == WithKey(s, l, Heads(GroupBy(s, l), l)[m])
    decreases |s|
  {
    if s != [] {
      var k := Key(s[0], l);
      var rest := WithoutKey(s, l, k);
      var gs := GroupBy(s, l);
      GroupByMember(rest, l);
      GroupByFacts(s, l);
      assert WithKey(s, l, k) == [s[0]] + WithKey(s[1..], l, k);
      forall m | 0 <= m < |gs| ensures gs[m] == WithKey(s, l, Heads(gs, l)[m]) {
        if m > 0 {
          assert gs[m] == GroupBy(rest, l)[m - 1];
          assert Heads(gs, l)[m] != Heads(gs, l)[0];
          WithKeyOfWithout(s, l, Heads(gs, l)[m], k);
        }
      }
    }
  }

  // ---------------------------------------------------------------------------
  // Concatenation of keyed groups

  /** Hits with different level-`l` values never share a depth-`d` block:
      `l` is `lvl0`, or `lvl1` when the blocks are sub-category blocks. */
  predicate LevelSeparatesBlocks(l: Level, d: Depth) {
    l == 0 || (l == 1 && d == SubCategory)
  }

  lemma KeyedTail(gs: seq<seq<GroupedHit>>, l: Level)
    requires gs != [] && Keyed(gs, l) && Distinct(Heads(gs, l))
    ensures Keyed(gs[1..], l) && Distinct(Heads(gs[1..], l))
    ensures Heads(gs, l) == [Head(gs[0], l)] + Heads(gs[1..], l)
    ensures Head(gs[0], l) !in Heads(gs[1..], l)
  {
    assert forall m :: 0 <= m < |gs| - 1 ==> gs[1..][m] == gs[m + 1];
  }

  lemma {:induction false} ConcatKeys(gs: seq<seq<GroupedHit>>, l: Level)
    requires Keyed(gs, l)
    ensures forall e :: e in Concat(gs) ==> Key(e, l) in Heads(gs, l)
  {
    if gs != [] {
      assert forall m :: 0 <= m < |gs| - 1 ==> gs[1..][m] == gs[m + 1];
      ConcatKeys(gs[1..], l);
      assert Heads(gs, l) == [Head(gs[0], l)] + Heads(gs[1..], l);
    }
  }

  lemma {:induction false} ConcatFirst(gs: seq<seq<GroupedHit>>, l: Level)
    requires gs != [] && Keyed(gs, l)
    ensures Concat(gs) != [] && Concat(gs)[0] == gs[0][0]
  {
  }

  lemma AppendContiguous(a: seq<GroupedHit>, b: seq<GroupedHit>, d: Depth)
    requires Contiguous(a, d) && Contiguous(b, d)
    requires forall x, y :: x in a && y in b ==> !SameBlock(x, y, d)
    ensures Contiguous(a + b, d)
  {
    var s := a + b;
    forall i, j, k | 0 <= i < j < k < |s| && SameBlock(s[i], s[k], d)
      ensures SameBlock(s[i], s[j], d)
    {
      if k < |a| {
        assert s[i] == a[i] && s[j] == a[j] && s[k] == a[k];
      } else if i >= |a| {
        assert s[i] == b[i - |a|] && s[j] == b[j - |a|] && s[k] == b[k - |a|];
      }
    }
  }

  /** Concatenating contiguous groups with distinct values keeps blocks contiguous. */
  lemma {:induction false} ConcatContiguous(gs: seq<seq<GroupedHit>>, d: Depth, l: Level)
    requires LevelSeparatesBlocks(l, d) && Keyed(gs, l) && Distinct(Heads(gs, l))
    requires forall m :: 0 <= m < |gs| ==> Contiguous(gs[m], d)
    ensures Contiguous(Concat(gs), d)
  {
    if gs != [] {
      var rest := gs[1..];
      KeyedTail(gs, l);
      assert forall m :: 0 <= m < |rest| ==> rest[m] == gs[m + 1];
      ConcatContiguous(rest, d, l);
      ConcatKeys(rest, l);
      assert gs[0] != [] && UniformAt(gs[0], l, Head(gs[0], l));
      forall x, y | x in gs[0] && y in Concat(rest) ensures !SameBlock(x, y, d) {
        assert Key(x, l) == Head(gs[0], l);
        assert Key(y, l) in Heads(rest, l);
      }
      AppendContiguous(gs[0], Concat(rest), d);
    }
  }

  lemma AppendBoundary(a: seq<GroupedHit>, b: seq<GroupedHit>, d: Depth)
    requires BoundaryFlags(a, d) && BoundaryFlags(b, d)
    requires a != [] && b != [] ==> !SameBlock(a[|a| - 1], b[0], d)
    ensures BoundaryFlags(a + b, d)
  {
    var s := a + b;
    if s != [] {
      assert s[0] == if a != [] then a[0] else b[0];
    }
    forall i | 0 < i < |s| ensures Flag(s[i], d) <==> !SameBlock(s[i - 1], s[i], d) {
      if i < |a| {
        assert s[i] == a[i] && s[i - 1] == a[i - 1];
      } else if i == |a| {
        assert s[i] == b[0] && s[i - 1] == a[|a| - 1];
      } else {
        var j := i - |a|;
        assert s[i] == b[j] && s[i - 1] == b[j - 1];
        assert Flag(b[j], d) <==> !SameBlock(b[j - 1], b[j], d);
      }
    }
  }

  /** Concatenating groups that each flag their own block starts, with distinct
      values, flags exactly the block starts of the whole. */
  lemma {:induction false} ConcatBoundary(gs: seq<seq<GroupedHit>>, d: Depth, l: Level)
    requires LevelSeparatesBlocks(l, d) && Keyed(gs, l) && Distinct(Heads(gs, l))
    requires forall m :: 0 <= m < |gs| ==> BoundaryFlags(gs[m], d)
    ensures BoundaryFlags(Concat(gs), d)
  {
    if gs != [] {
      var rest := gs[1..];
      KeyedTail(gs, l);
      assert forall m :: 0 <= m < |rest| ==> rest[m] == gs[m + 1];
      ConcatBoundary(rest, d, l);
      if rest != [] {
        ConcatFirst(rest, l);
        var a := gs[0];
        assert a[|a| - 1] in a;
        assert Key(a[|a| - 1], l) == Head(a, l);
        assert Heads(rest, l)[0] == Key(Concat(rest)[0], l);
      }
      AppendBoundary(gs[0], Concat(rest), d);
    }
  }

  lemma {:induction false} HeaderKeysAppend(a: seq<GroupedHit>, b: seq<GroupedHit>, d: Depth, l: Level)
    ensures HeaderKeys(a + b, d, l) == HeaderKeys(a, d, l) + HeaderKeys(b, d, l)
  {
    if a == [] {
      assert a + b == b;
    } else {
      assert (a + b)[0] == a[0];
      assert (a + b)[1..] == a[1..] + b;
      HeaderKeysAppend(a[1..], b, d, l);
      var x := if Flag(a[0], d) then [Key(a[0], l)] else [];
      assert x + (HeaderKeys(a[1..], d, l) + HeaderKeys(b, d, l))
          == (x + HeaderKeys(a[1..], d, l)) + HeaderKeys(b, d, l);
    }
  }

  lemma {:induction false} ConcatHeaderKeys(gs: seq<seq<GroupedHit>>, d: Depth, l: Level)
    requires forall m :: 0 <= m < |gs| ==> HeaderKeys(gs[m], d, l) == [Head(gs[m], l)]
    ensures HeaderKeys(Concat(gs), d, l) == Heads(gs, l)
  {
    if gs != [] {
      assert forall m :: 0 <= m < |gs| - 1 ==> gs[1..][m] == gs[m + 1];
      ConcatHeaderKeys(gs[1..], d, l);
      HeaderKeysAppend(gs[0], Concat(gs[1..]), d, l);
    }
  }

  /** Header keys depend only on the flag and the level value of each hit. */
  lemma {:induction false} HeaderKeysAgree(a: seq<GroupedHit>, b: seq<GroupedHit>, d: Depth, l: Level)
    requires |a| == |b|
    requires forall i :: 0 <= i < |a| ==> Flag(a[i], d) == Flag(b[i], d) && Key(a[i], l) == Key(b[i], l)
    ensures HeaderKeys(a, d, l) == HeaderKeys(b, d, l)
  {
    if a != [] {
      HeaderKeysAgree(a[1..], b[1..], d, l);
    }
  }

  lemma {:induction false} NoFlagsNoHeaders(s: seq<GroupedHit>, d: Depth, l: Level)
    requires forall i :: 0 <= i < |s| ==> !Flag(s[i], d)
    ensures HeaderKeys(s, d, l) == []
  {
    if s != [] {
      NoFlagsNoHeaders(s[1..], d, l);
    }
  }

  /** Selecting one value from keyed groups with distinct values gives back the
      group of that value, or nothing. */
  lemma {:induction false} ConcatWithKey(gs: seq<seq<GroupedHit>>, l: Level, k: Option<string>)
    requires Keyed(gs, l) && Distinct(Heads(gs, l))
    ensures forall m :: 0 <= m < |gs| && Head(gs[m], l) == k ==> WithKey(Concat(gs), l, k) == gs[m]
    ensures k !in Heads(gs, l) ==> WithKey(Concat(gs), l, k) == []
  {
    if gs != [] {
      var rest := gs[1..];
      KeyedTail(gs, l);
      assert forall m :: 0 <= m < |rest| ==> rest[m] == gs[m + 1];
      ConcatWithKey(rest, l, k);
      WithKeyAppend(gs[0], Concat(rest), l, k);
      WithKeyUniform(gs[0], l, k, Head(gs[0], l));
      if Head(gs[0], l) == k {
        ConcatKeys(rest, l);
        WithKeyAbsent(Concat(rest), l, k);
      }
    }
  }

  lemma {:induction false} ConcatHits(gs: seq<seq<GroupedHit>>, hs: seq<seq<GroupedHit>>)
    requires |gs| == |hs| && forall m :: 0 <= m < |gs| ==> HitsOf(gs[m]) == HitsOf(hs[m])
    ensures HitsOf(Concat(gs)) == HitsOf(Concat(hs))
  {
    if gs != [] {
      ConcatHits(gs[1..], hs[1..]);
      HitsOfAppend(gs[0], Concat(gs[1..]));
      HitsOfAppend(hs[0], Concat(hs[1..]));
    }
  }

  lemma {:induction false} ConcatHitsMultiset(gs: seq<seq<GroupedHit>>, hs: seq<seq<GroupedHit>>)
    requires |gs| == |hs|
    requires forall m :: 0 <= m < |gs| ==> multiset(HitsOf(gs[m])) == multiset(HitsOf(hs[m]))
    ensures multiset(HitsOf(Concat(gs))) == multiset(HitsOf(Concat(hs)))
  {
    if gs != [] {
      ConcatHitsMultiset(gs[1..], hs[1..]);
      HitsOfAppend(gs[0], Concat(gs[1..]));
      HitsOfAppend(hs[0], Concat(hs[1..]));
    }
  }

  /** A sequence with the same hits, as a multiset, as a uniform one is uniform. */
  lemma UniformFromHits(s: seq<GroupedHit>, t: seq<GroupedHit>, l: Level, k: Option<string>)
    requires multiset(HitsOf(s)) == multiset(HitsOf(t)) && UniformAt(t, l, k)
    ensures UniformAt(s, l, k)
  {
    forall e | e in s ensures Key(e, l) == k {
      var i :| 0 <= i < |s| && s[i] == e;
      assert HitsOf(s)[i] == e.hit;
      assert e.hit in multiset(HitsOf(t));
      var j :| 0 <= j < |t| && HitsOf(t)[j] == e.hit;
      assert t[j] in t;
    }
  }

  // ---------------------------------------------------------------------------
  // Flagging the first hit of each group

  /** All hits of a non-empty group belong to the block of its first hit. */
  predicate Block(g: seq<GroupedHit>, d: Depth) {
    g != [] && forall e :: e in g ==> SameBlock(g[0], e, d)
  }

  lemma FlagFirstKeepsHits(g: seq<GroupedHit>, d: Depth)
    ensures HitsOf(FlagFirst(g, d)) == HitsOf(g)
  {
  }

  lemma FlagFirstUniform(g: seq<GroupedHit>, d: Depth, l: Level, k: Option<string>)
    requires UniformAt(g, l, k)
    ensures UniformAt(FlagFirst(g, d), l, k)
  {
    var r := FlagFirst(g, d);
    forall e | e in r ensures Key(e, l) == k {
      var i :| 0 <= i < |r| && r[i] == e;
      assert g[i] in g;
    }
  }

  /** Setting one flag leaves the blocks and the other flag as they were. */
  lemma FlagFirstKeepsOther(g: seq<GroupedHit>, d: Depth, other: Depth)
    requires d != other
    requires Contiguous(g, other) && BoundaryFlags(g, other)
    ensures Contiguous(FlagFirst(g, d), other) && BoundaryFlags(FlagFirst(g, d), other)
  {
    var r := FlagFirst(g, d);
    assert forall i :: 0 <= i < |g| ==> r[i].hit == g[i].hit && Flag(r[i], other) == Flag(g[i], other);
    forall i, j, k | 0 <= i < j < k < |r| && SameBlock(r[i], r[k], other)
      ensures SameBlock(r[i], r[j], other)
    {
      assert SameBlock(g[i], g[k], other);
    }
    forall i | 0 < i < |r| ensures Flag(r[i], other) <==> !SameBlock(r[i - 1], r[i], other) {
      assert Flag(g[i], other) <==> !SameBlock(g[i - 1], g[i], other);
    }
  }

  lemma FlagFirstBlock(g: seq<GroupedHit>, d: Depth, l: Level)
    requires Block(g, d)
    ensures BoundaryFlags(FlagFirst(g, d), d) && Contiguous(FlagFirst(g, d), d)
    ensures HeaderKeys(FlagFirst(g, d), d, l) == [Key(g[0], l)]
  {
    var r := FlagFirst(g, d);
    assert forall i :: 0 <= i < |g| ==> r[i].hit == g[i].hit && Flag(r[i], d) == (i == 0);
    forall i | 0 <= i < |r| ensures SameBlock(r[0], r[i], d) {
      assert g[i] in g;
    }
    NoFlagsNoHeaders(r[1..], d, l);
  }

  lemma FlagFirstAllKeyed(gs: seq<seq<GroupedHit>>, d: Depth, l: Level)
    requires Keyed(gs, l)
    ensures Keyed(FlagFirstAll(gs, d), l) && Heads(FlagFirstAll(gs, d), l) == Heads(gs, l)
  {
    var fs := FlagFirstAll(gs, d);
    forall m | 0 <= m < |gs| ensures fs[m] != [] && UniformAt(fs[m], l, Head(fs[m], l)) && Head(fs[m], l) == Head(gs[m], l) {
      FlagFirstUniform(gs[m], d, l, Head(gs[m], l));
    }
  }

  /** `FlattenAndFlagFirst` over keyed, distinct, single-block groups: the hits
      are the concatenated groups, blocks stay contiguous, the flag marks
      exactly the block starts, and the flagged values are the group values. */
  lemma FlattenFacts(gs: seq<seq<GroupedHit>>, d: Depth, l: Level)
    requires LevelSeparatesBlocks(l, d) && Keyed(gs, l) && Distinct(Heads(gs, l))
    requires forall m :: 0 <= m < |gs| ==> Block(gs[m], d)
    ensures HitsOf(FlattenAndFlagFirst(gs, d)) == HitsOf(Concat(gs))
    ensures Contiguous(FlattenAndFlagFirst(gs, d), d) && BoundaryFlags(FlattenAndFlagFirst(gs, d), d)
    ensures HeaderKeys(FlattenAndFlagFirst(gs, d), d, l) == Heads(gs, l)
  {
    var fs := FlagFirstAll(gs, d);
    FlagFirstAllKeyed(gs, d, l);
    forall m | 0 <= m < |fs|
      ensures Contiguous(fs[m], d) && BoundaryFlags(fs[m], d)
      ensures HeaderKeys(fs[m], d, l) == [Head(fs[m], l)] && HitsOf(fs[m]) == HitsOf(gs[m])
    {
      FlagFirstBlock(gs[m], d, l);
      FlagFirstKeepsHits(gs[m], d);
    }
    ConcatContiguous(fs, d, l);
    ConcatBoundary(fs, d, l);
    ConcatHeaderKeys(fs, d, l);
    ConcatHits(fs, gs);
  }

  lemma FlattenKeepsOther(gs: seq<seq<GroupedHit>>, d: Depth, other: Depth, l: Level)
    requires d != other && LevelSeparatesBlocks(l, other) && Keyed(gs, l) && Distinct(Heads(gs, l))
    requires forall m :: 0 <= m < |gs| ==> Contiguous(gs[m], other) && BoundaryFlags(gs[m], other)
    ensures Contiguous(FlattenAndFlagFirst(gs, d), other) && BoundaryFlags(FlattenAndFlagFirst(gs, d), other)
  {
    var fs := FlagFirstAll(gs, d);
    FlagFirstAllKeyed(gs, d, l);
    forall m | 0 <= m < |fs| ensures Contiguous(fs[m], other) && BoundaryFlags(fs[m], other) {
      FlagFirstKeepsOther(gs[m], d, other);
    }
    ConcatContiguous(fs, other, l);
    ConcatBoundary(fs, other, l);
  }

  // ---------------------------------------------------------------------------
  // The two levels

  /** One `lvl0` group after the `$.each` body: the same hits, still all of
      value `k`, sub-blocks contiguous and flagged at their starts, sub-headers
      in order of first appearance of their `lvl1` value. */
  lemma SubGroupFacts(g: seq<GroupedHit>, k: Option<string>)
    requires g != [] && UniformAt(g, 0, k)
    ensures SubGroup(g) != [] && UniformAt(SubGroup(g), 0, k) && Head(SubGroup(g), 0) == k
    ensures multiset(HitsOf(SubGroup(g))) == multiset(HitsOf(g))
    ensures Contiguous(SubGroup(g), SubCategory) && BoundaryFlags(SubGroup(g), SubCategory)
    ensures HeaderKeys(SubGroup(g), SubCategory, 1) == InsertionOrderKeys(g, 1)
  {
    var hs := GroupBy(g, 1);
    GroupByFacts(g, 1);
    GroupByOrder(g, 1);
    forall j | 0 <= j < |hs| ensures Block(hs[j], SubCategory) {
      assert hs[j][0] in hs[j];
      forall e | e in hs[j] ensures SameBlock(hs[j][0], e, SubCategory) {
        assert e in g && hs[j][0] in g;
      }
    }
    FlattenFacts(hs, SubCategory, 1);
    var sg := SubGroup(g);
    assert HitsOf(sg) == HitsOf(Concat(hs));
    UniformFromHits(sg, g, 0, k);
    assert |multiset(HitsOf(sg))| == |HitsOf(g)| > 0;
    assert sg[0] in sg;
  }

  lemma OuterFacts(s: seq<GroupedHit>)
    ensures Keyed(SubGroupAll(GroupBy(s, 0)), 0)
    ensures Heads(SubGroupAll(GroupBy(s, 0)), 0) == Heads(GroupBy(s, 0), 0)
    ensures Distinct(Heads(GroupBy(s, 0), 0))
    ensures forall m :: 0 <= m < |GroupBy(s, 0)| ==>
      var sm := SubGroupAll(GroupBy(s, 0))[m];
      Block(sm, Category) && Contiguous(sm, SubCategory) && BoundaryFlags(sm, SubCategory)
      && multiset(HitsOf(sm)) == multiset(HitsOf(GroupBy(s, 0)[m]))
      && HeaderKeys(sm, SubCategory, 1) == InsertionOrderKeys(GroupBy(s, 0)[m], 1)
  {
    var gs := GroupBy(s, 0);
    var ss := SubGroupAll(gs);
    GroupByFacts(s, 0);
    forall m | 0 <= m < |gs|
      ensures ss[m] != [] && UniformAt(ss[m], 0, Head(ss[m], 0)) && Head(ss[m], 0) == Head(gs[m], 0)
      ensures Block(ss[m], Category) && Contiguous(ss[m], SubCategory) && BoundaryFlags(ss[m], SubCategory)
      ensures multiset(HitsOf(ss[m])) == multiset(HitsOf(gs[m]))
      ensures HeaderKeys(ss[m], SubCategory, 1) == InsertionOrderKeys(gs[m], 1)
    {
      SubGroupFacts(gs[m], Head(gs[m], 0));
      assert ss[m][0] in ss[m];
    }
  }

  /** Grouping rearranges: the output holds every input hit exactly as often as
      the input does. */
  lemma GroupedIsPermutation(s: seq<GroupedHit>)
    ensures |Grouped(s)| == |s|
    ensures multiset(HitsOf(Grouped(s))) == multiset(HitsOf(s))
  {
    var gs := GroupBy(s, 0);
    var ss := SubGroupAll(gs);
    OuterFacts(s);
    FlattenFacts(ss, Category, 0);
    ConcatHitsMultiset(ss, gs);
    GroupByFacts(s, 0);
    assert |multiset(HitsOf(Grouped(s)))| == |HitsOf(s)|;
  }

  /** Hits with equal `lvl0` are adjacent in the output, and so are hits with
      equal `lvl0` and `lvl1`. */
  lemma GroupedBlocksContiguous(s: seq<GroupedHit>)
    ensures Contiguous(Grouped(s), Category) && Contiguous(Grouped(s), SubCategory)
  {
    var ss := SubGroupAll(GroupBy(s, 0));
    OuterFacts(s);
    FlattenFacts(ss, Category, 0);
    FlattenKeepsOther(ss, Category, SubCategory, 0);
  }

  /** `isCategoryHeader` is set exactly on the first hit of every `lvl0` block
      and `isSubCategoryHeader` exactly on the first hit of every (`lvl0`,
      `lvl1`) block. */
  lemma GroupedHeaderFlags(s: seq<GroupedHit>)
    ensures BoundaryFlags(Grouped(s), Category) && BoundaryFlags(Grouped(s), SubCategory)
  {
    var ss := SubGroupAll(GroupBy(s, 0));
    OuterFacts(s);
    FlattenFacts(ss, Category, 0);
    FlattenKeepsOther(ss, Category, SubCategory, 0);
  }

  /** Category headers appear in the order in which their `lvl0` value first
      occurs in the input. */
  lemma GroupedCategoryOrder(s: seq<GroupedHit>)
    ensures HeaderKeys(Grouped(s), Category, 0) == InsertionOrderKeys(s, 0)
  {
    var ss := SubGroupAll(GroupBy(s, 0));
    OuterFacts(s);
    FlattenFacts(ss, Category, 0);
    GroupByOrder(s, 0);
  }

  /** Inside the block of one `lvl0` value, sub-category headers appear in the
      order in which their `lvl1` value first occurs among the input hits of
      that `lvl0` value. */
  lemma GroupedSubCategoryOrder(s: seq<GroupedHit>, k: Option<string>)
    ensures HeaderKeys(WithKey(Grouped(s), 0, k), SubCategory, 1) == InsertionOrderKeys(WithKey(s, 0, k), 1)
  {
    var gs := GroupBy(s, 0);
    var ss := SubGroupAll(gs);
    var fs := FlagFirstAll(ss, Category);
    assert Grouped(s) == Concat(fs);
    OuterFacts(s);
    FlagFirstAllKeyed(ss, Category, 0);
    ConcatWithKey(fs, 0, k);
    GroupByFacts(s, 0);
    if k in Heads(gs, 0) {
      var m :| 0 <= m < |gs| && Heads(gs, 0)[m] == k;
      SubBlockOrder(s, m);
    } else {
      WithKeyAbsent(s, 0, k);
    }
  }

  lemma SubBlockOrder(s: seq<GroupedHit>, m: nat)
    requires m < |GroupBy(s, 0)|
    ensures HeaderKeys(FlagFirst(SubGroupAll(GroupBy(s, 0))[m], Category), SubCategory, 1)
         == InsertionOrderKeys(WithKey(s, 0, Heads(GroupBy(s, 0), 0)[m]), 1)
  {
    var gs := GroupBy(s, 0);
    var sm := SubGroupAll(gs)[m];
    OuterFacts(s);
    GroupByMember(s, 0);
    HeaderKeysAgree(FlagFirst(sm, Category), sm, SubCategory, 1);
  }
}
