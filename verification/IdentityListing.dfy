/** How often the analyses list a suggestion: once for every two entries that it shows. */
module IdentityListing {
  import opened Collections
  import opened Ordering
  import opened CliqueCover
  import opened IdentityGroups
  import opened IdentityClusters

  // ---- Sizes of sets of pairs ----

  ghost function Swapped(pairs: set<(nat, nat)>): set<(nat, nat)> { set pair | pair in pairs :: (pair.1, pair.0) }

  lemma {:induction false} SwappedSize(pairs: set<(nat, nat)>)
    ensures |Swapped(pairs)| == |pairs|
    decreases |pairs|
  {
    if pairs != {} {
      var pair :| pair in pairs;
      SwappedSize(pairs - {pair});
      assert Swapped(pairs) == Swapped(pairs - {pair}) + {(pair.1, pair.0)};
      assert (pair.1, pair.0) !in Swapped(pairs - {pair});
    } else {
      assert Swapped(pairs) == {};
    }
  }

  /** Of a symmetric relation either order of each pair is one half. */
  lemma {:induction false} Half(both: set<(nat, nat)>, some: set<(nat, nat)>)
    requires some <= both
    requires forall pair | pair in both :: (pair.1, pair.0) in both && (pair in some <==> (pair.1, pair.0) !in some)
    ensures |both| == 2 * |some|
  {
    SwappedSize(some);
    assert both == some + Swapped(some) by {
      forall pair | pair in both ensures pair in some + Swapped(some) {
        if pair !in some { assert (pair.1, pair.0) in some; }
      }
    }
    assert some !! Swapped(some);
  }

  ghost function Row(p: nat, qs: set<nat>): set<(nat, nat)> { set q | q in qs :: (p, q) }

  lemma {:induction false} RowSize(p: nat, qs: set<nat>)
    ensures |Row(p, qs)| == |qs|
    decreases |qs|
  {
    if qs != {} {
      var q :| q in qs;
      RowSize(p, qs - {q});
      assert Row(p, qs) == Row(p, qs - {q}) + {(p, q)};
    } else {
      assert Row(p, qs) == {};
    }
  }

  // ---- One overlap ----

  ghost function RowSet(o: PairOverlap, a: string, names: seq<string>, f: seq<int>, c: int, k: nat, x: OverlapSuggestion): set<nat>
    requires k <= |names| && k <= |f|
  {
    set q: nat | q < k && f[q] == c && Suggest(o, a, names[q]) == x
  }

  lemma {:induction false} SuggestRowAppend(o: PairOverlap, a: string, rights: seq<string>, b: string)
    ensures SuggestRow(o, a, rights + [b]) == SuggestRow(o, a, rights) + [Suggest(o, a, b)]
  {
    hide Suggest;
    if rights == [] {
      assert [] + [b] == [b] && [b][1..] == [];
    } else {
      assert (rights + [b])[1..] == rights[1..] + [b];
      SuggestRowAppend(o, a, rights[1..], b);
    }
  }

  lemma {:induction false} RowCount(o: PairOverlap, a: string, names: seq<string>, f: seq<int>, c: int, k: nat, x: OverlapSuggestion)
    requires k <= |names| && k <= |f|
    ensures multiset(SuggestRow(o, a, ClassNames(names, f, c, k)))[x] == |RowSet(o, a, names, f, c, k, x)|
  {
    hide Suggest, SuggestRow;
    if k == 0 {
      EmptyLists(o, a);
      assert RowSet(o, a, names, f, c, 0, x) == {};
    } else {
      RowCount(o, a, names, f, c, k - 1, x);
      var fewer, all := RowSet(o, a, names, f, c, k - 1, x), RowSet(o, a, names, f, c, k, x);
      if f[k - 1] == c {
        SuggestRowAppend(o, a, ClassNames(names, f, c, k - 1), names[k - 1]);
        if Suggest(o, a, names[k - 1]) == x { assert all == fewer + {k - 1}; } else { assert all == fewer; }
      } else {
        assert all == fewer;
      }
    }
  }

  lemma {:induction false} EmptyLists(o: PairOverlap, a: string)
    ensures SuggestRow(o, a, []) == [] && forall rights :: SuggestAll(o, [], rights) == []
  {
  }

  lemma {:induction false} SuggestAllAppend(o: PairOverlap, lefts: seq<string>, a: string, rights: seq<string>)
    ensures SuggestAll(o, lefts + [a], rights) == SuggestAll(o, lefts, rights) + SuggestRow(o, a, rights)
  {
    hide SuggestRow;
    if lefts == [] {
      assert [] + [a] == [a] && [a][1..] == [];
      assert SuggestAll(o, [a][1..], rights) == [];
    } else {
      assert (lefts + [a])[1..] == lefts[1..] + [a];
      SuggestAllAppend(o, lefts[1..], a, rights);
    }
  }

  ghost function PairSet(o: PairOverlap, names: seq<string>, f: seq<int>, c: int, d: int, k: nat, x: OverlapSuggestion): set<(nat, nat)>
    requires k <= |names| == |f|
  {
    set p: nat, q: nat | p < k && q < |names| && f[p] == c && f[q] == d && Suggest(o, names[p], names[q]) == x :: (p, q)
  }

  lemma {:induction false} AllCount(o: PairOverlap, names: seq<string>, f: seq<int>, c: int, d: int, k: nat, x: OverlapSuggestion)
    requires k <= |names| == |f|
    ensures multiset(SuggestAll(o, ClassNames(names, f, c, k), ClassNames(names, f, d, |names|)))[x] ==
      |PairSet(o, names, f, c, d, k, x)|
  {
    hide Suggest, SuggestAll, SuggestRow, PairSet, RowSet;
    var rights := ClassNames(names, f, d, |names|);
    if k == 0 {
      EmptyLists(o, "");
      NoPairs(o, names, f, c, d, x);
    } else {
      AllCount(o, names, f, c, d, k - 1, x);
      PairSetStep(o, names, f, c, d, k, x);
      if f[k - 1] == c {
        SuggestAllAppend(o, ClassNames(names, f, c, k - 1), names[k - 1], rights);
        RowCount(o, names[k - 1], names, f, d, |names|, x);
      }
    }
  }

  lemma {:induction false} NoPairs(o: PairOverlap, names: seq<string>, f: seq<int>, c: int, d: int, x: OverlapSuggestion)
    requires |names| == |f|
    ensures PairSet(o, names, f, c, d, 0, x) == {}
  {
  }

  lemma {:induction false} SamePairs(a: set<(nat, nat)>, b: set<(nat, nat)>)
    requires forall p: nat, q: nat :: (p, q) in a <==> (p, q) in b
    ensures a == b
  {
    forall pair ensures pair in a <==> pair in b { assert pair == (pair.0, pair.1); }
  }

  lemma {:induction false} InRow(p: nat, qs: set<nat>, i: nat, j: nat)
    ensures (i, j) in Row(p, qs) <==> i == p && j in qs
  {
  }

  lemma {:induction false} InPairSet(o: PairOverlap, names: seq<string>, f: seq<int>, c: int, d: int, k: nat, x: OverlapSuggestion, p: nat, q: nat)
    requires k <= |names| == |f|
    ensures (p, q) in PairSet(o, names, f, c, d, k, x) <==>
      p < k && q < |names| && f[p] == c && f[q] == d && Suggest(o, names[p], names[q]) == x
  {
  }

  lemma {:induction false} PairSetStep(o: PairOverlap, names: seq<string>, f: seq<int>, c: int, d: int, k: nat, x: OverlapSuggestion)
    requires 0 < k <= |names| == |f|
    ensures var row := if f[k - 1] == c then RowSet(o, names[k - 1], names, f, d, |names|, x) else {};
      |PairSet(o, names, f, c, d, k, x)| == |PairSet(o, names, f, c, d, k - 1, x)| + |row|
  {
    hide Suggest, PairSet, Row;
    var fewer, all := PairSet(o, names, f, c, d, k - 1, x), PairSet(o, names, f, c, d, k, x);
    var row := if f[k - 1] == c then RowSet(o, names[k - 1], names, f, d, |names|, x) else {};
    RowSize(k - 1, row);
    forall p: nat, q: nat ensures ((p, q) in all <==> (p, q) in fewer + Row(k - 1, row)) && ((p, q) in fewer ==> (p, q) !in Row(k - 1, row)) {
      InPairSet(o, names, f, c, d, k, x, p, q);
      InPairSet(o, names, f, c, d, k - 1, x, p, q);
      InRow(k - 1, row, p, q);
    }
    SamePairs(all, fewer + Row(k - 1, row));
    SamePairs(fewer * Row(k - 1, row), {});
  }

  // ---- All overlaps ----

  ghost predicate InOverlap(overlaps: seq<PairOverlap>, groupOf: seq<nat>, names: seq<string>, f: seq<int>, p: nat, q: nat,
    x: OverlapSuggestion)
    requires p < |names| == |f| && q < |names|
  {
    exists o :: o in overlaps && f[p] == o.left && f[q] == o.right && o.left < |groupOf| && o.right < |groupOf| &&
      groupOf[o.left] != groupOf[o.right] && Suggest(o, names[p], names[q]) == x
  }

  ghost function OverlapSet(overlaps: seq<PairOverlap>, groupOf: seq<nat>, names: seq<string>, f: seq<int>, x: OverlapSuggestion)
    : set<(nat, nat)>
    requires |names| == |f|
  {
    set p: nat, q: nat | p < |names| && q < |names| && InOverlap(overlaps, groupOf, names, f, p, q, x) :: (p, q)
  }

  lemma {:induction false} OneEachTail(overlaps: seq<PairOverlap>)
    requires OneEach(overlaps) && overlaps != []
    ensures OneEach(overlaps[1..])
    ensures forall o | o in overlaps[1..] :: (o.left, o.right) != (overlaps[0].left, overlaps[0].right)
  {
    var rest := overlaps[1..];
    forall k, l | 0 <= k < l < |rest| ensures (rest[k].left, rest[k].right) != (rest[l].left, rest[l].right) {
      assert rest[k] == overlaps[k + 1] && rest[l] == overlaps[l + 1];
    }
    forall o | o in rest ensures (o.left, o.right) != (overlaps[0].left, overlaps[0].right) {
      var k :| 0 <= k < |rest| && rest[k] == o;
      assert overlaps[k + 1] == o;
    }
  }

  lemma {:induction false} FirstOverlap(overlaps: seq<PairOverlap>, groupOf: seq<nat>, names: seq<string>, f: seq<int>, x: OverlapSuggestion)
    requires overlaps != [] && OneEach(overlaps) && |names| == |f|
    requires overlaps[0].left < |groupOf| && overlaps[0].right < |groupOf|
    ensures var o := overlaps[0];
      var first := if groupOf[o.left] == groupOf[o.right] then {} else PairSet(o, names, f, o.left, o.right, |names|, x);
      OverlapSet(overlaps, groupOf, names, f, x) == first + OverlapSet(overlaps[1..], groupOf, names, f, x) &&
      first !! OverlapSet(overlaps[1..], groupOf, names, f, x)
  {
    hide Suggest, OneEach;
    OneEachTail(overlaps);
    var o := overlaps[0];
    assert forall y :: y in overlaps <==> y == o || y in overlaps[1..];
    forall p: nat, q: nat | p < |names| && q < |names|
      ensures InOverlap(overlaps, groupOf, names, f, p, q, x) <==>
        (f[p] == o.left && f[q] == o.right && groupOf[o.left] != groupOf[o.right] && Suggest(o, names[p], names[q]) == x) ||
        InOverlap(overlaps[1..], groupOf, names, f, p, q, x)
    {
      if InOverlap(overlaps[1..], groupOf, names, f, p, q, x) {
        var y :| y in overlaps[1..] && f[p] == y.left && f[q] == y.right && y.left < |groupOf| && y.right < |groupOf| &&
          groupOf[y.left] != groupOf[y.right] && Suggest(y, names[p], names[q]) == x;
        assert y in overlaps;
      }
    }
  }

  lemma {:induction false} ListCount(clusters: seq<AliasCluster>, overlaps: seq<PairOverlap>, groupOf: seq<nat>, names: seq<string>,
    f: seq<int>, x: OverlapSuggestion)
    requires |names| == |f| && NameLists(clusters) == ClassLists(names, f, |clusters|, |names|)
    requires |groupOf| == |clusters| && InBounds(clusters, overlaps) && OneEach(overlaps)
    ensures multiset(Suggestions(clusters, overlaps, groupOf))[x] == |OverlapSet(overlaps, groupOf, names, f, x)|
    decreases |overlaps|
  {
    hide Suggest, SuggestAll, OneEach;
    if overlaps == [] {
      assert OverlapSet(overlaps, groupOf, names, f, x) == {};
    } else {
      OneEachTail(overlaps);
      ListCount(clusters, overlaps[1..], groupOf, names, f, x);
      FirstOverlap(overlaps, groupOf, names, f, x);
      var o := overlaps[0];
      assert clusters[o.left].names == NameLists(clusters)[o.left] && clusters[o.right].names == NameLists(clusters)[o.right];
      if groupOf[o.left] != groupOf[o.right] { AllCount(o, names, f, o.left, o.right, |names|, x); }
    }
  }

  // ---- Pairs of entries ----

  /** Entries that share a key across groups are in different clusters, and these overlap. */
  ghost predicate CoversSharing(es: seq<AliasEntry>, key: CanonicalKey, f: seq<int>, overlaps: seq<PairOverlap>) {
    |f| == |es| && forall p: nat, q: nat | Linked(es, key, p, q) ::
      f[p] != f[q] && (f[p] < f[q] ==> exists o :: o in overlaps && f[p] == o.left && f[q] == o.right)
  }

  ghost function LinkedPairs(es: seq<AliasEntry>, key: CanonicalKey, s: OverlapSuggestion): set<(nat, nat)> {
    set p: nat, q: nat | p < |es| && q < |es| && Linked(es, key, p, q) && Shown(es, key, p, q) == s :: (p, q)
  }

  ghost function AcrossClusters(es: seq<AliasEntry>, key: CanonicalKey, f: seq<int>, s: OverlapSuggestion): set<(nat, nat)>
    requires |f| == |es|
  {
    set p: nat, q: nat | p < |es| && q < |es| && Linked(es, key, p, q) && Shown(es, key, p, q) == s && f[p] < f[q] :: (p, q)
  }

  lemma {:induction false} LinkedBothWays(es: seq<AliasEntry>, key: CanonicalKey, p: nat, q: nat)
    requires Linked(es, key, p, q)
    ensures p != q && Linked(es, key, q, p) && Shown(es, key, q, p) == Shown(es, key, p, q)
  {
    hide TextLe, GroupNumbers, Keys;
    TextOrders();
    assert Keys(es[p], key) * Keys(es[q], key) == Keys(es[q], key) * Keys(es[p], key);
  }

  lemma {:induction false} HalvesAgree(es: seq<AliasEntry>, key: CanonicalKey, f: seq<int>, overlaps: seq<PairOverlap>, s: OverlapSuggestion)
    requires CoversSharing(es, key, f, overlaps)
    ensures |AcrossClusters(es, key, f, s)| == |PairsShown(es, key, s)|
  {
    hide Linked, Shown;
    forall p: nat, q: nat | Linked(es, key, p, q)
      ensures p < |es| && q < |es| && p != q && Linked(es, key, q, p) && Shown(es, key, q, p) == Shown(es, key, p, q)
    {
      LinkedBothWays(es, key, p, q);
      LinkedInBounds(es, key, p, q);
    }
    Half(LinkedPairs(es, key, s), AcrossClusters(es, key, f, s));
    Half(LinkedPairs(es, key, s), PairsShown(es, key, s));
  }

  lemma {:induction false} LinkedInBounds(es: seq<AliasEntry>, key: CanonicalKey, p: nat, q: nat)
    requires Linked(es, key, p, q)
    ensures p < |es| && q < |es|
  {
  }

  lemma {:induction false} OverlapShowsPair(es: seq<AliasEntry>, key: CanonicalKey, clusters: seq<AliasCluster>, classes: Adjacency,
    f: seq<int>, first: seq<nat>, overlaps: seq<PairOverlap>, s: OverlapSuggestion, p: nat, q: nat)
    requires Represents(es, key, clusters, classes, f, first) && OverlapsMean(es, key, f, overlaps)
    requires CoversSharing(es, key, f, overlaps) && InBounds(clusters, overlaps)
    requires forall o | o in overlaps :: !o.lowerBound
    requires p < |es| && q < |es|
    ensures |Cover(classes, |clusters|)| == |clusters|
    ensures InOverlap(overlaps, Cover(classes, |clusters|), NamesOf(es), f, p, q, s) <==>
      Linked(es, key, p, q) && Shown(es, key, p, q) == s && f[p] < f[q]
  {
    hide Represents, Keys, GroupNumbers, Cover;
    CoverSize(classes, |clusters|);
    forall o | o in overlaps && f[p] == o.left && f[q] == o.right
      ensures Suggest(o, es[p].name, es[q].name) == Shown(es, key, p, q) && Keys(es[p], key) * Keys(es[q], key) != {}
      ensures o.left < o.right < |clusters|
      ensures Cover(classes, |clusters|)[o.left] != Cover(classes, |clusters|)[o.right] <==>
        GroupNumbers(es, key)[p] != GroupNumbers(es, key)[q]
    {
      GroupsCorrespond(es, key, clusters, classes, f, first, p, q);
    }
  }

  lemma {:induction false} SuggestionsListPairs(es: seq<AliasEntry>, key: CanonicalKey, clusters: seq<AliasCluster>, classes: Adjacency,
    f: seq<int>, first: seq<nat>, overlaps: seq<PairOverlap>)
    requires Represents(es, key, clusters, classes, f, first) && OverlapsMean(es, key, f, overlaps)
    requires CoversSharing(es, key, f, overlaps) && InBounds(clusters, overlaps) && OneEach(overlaps)
    requires forall o | o in overlaps :: !o.lowerBound
    ensures |Cover(classes, |clusters|)| == |clusters|
    ensures ListsPairs(es, key, Suggestions(clusters, overlaps, Cover(classes, |clusters|)))
  {
    hide Suggestions, Keys, GroupNumbers, Cover, InOverlap, Linked, Shown, CoversSharing, OverlapsMean, OneEach, Compresses;
    var g := Cover(classes, |clusters|);
    CoverSize(classes, |clusters|);
    ClustersOfEntries(es, key, clusters, classes, f, first);
    forall s ensures multiset(Suggestions(clusters, overlaps, g))[s] == |PairsShown(es, key, s)| {
      ListCount(clusters, overlaps, g, NamesOf(es), f, s);
      forall p: nat, q: nat | p < |es| && q < |es|
        ensures InOverlap(overlaps, g, NamesOf(es), f, p, q, s) <==>
          Linked(es, key, p, q) && Shown(es, key, p, q) == s && f[p] < f[q]
      {
        OverlapShowsPair(es, key, clusters, classes, f, first, overlaps, s, p, q);
      }
      assert OverlapSet(overlaps, g, NamesOf(es), f, s) == AcrossClusters(es, key, f, s);
      HalvesAgree(es, key, f, overlaps, s);
    }
  }

  lemma {:induction false} ClustersOfEntries(es: seq<AliasEntry>, key: CanonicalKey, clusters: seq<AliasCluster>, classes: Adjacency,
    f: seq<int>, first: seq<nat>)
    requires Represents(es, key, clusters, classes, f, first)
    ensures |f| == |es| && NameLists(clusters) == ClassLists(NamesOf(es), f, |clusters|, |es|)
  {
  }

  // ---- Through the sorting ----

  lemma {:induction false} OverlapOnce(overlaps: seq<PairOverlap>, o: PairOverlap)
    requires OneEach(overlaps)
    ensures multiset(overlaps)[o] <= 1
  {
    if overlaps != [] {
      OneEachTail(overlaps);
      OverlapOnce(overlaps[1..], o);
      assert overlaps == [overlaps[0]] + overlaps[1..];
      assert o == overlaps[0] ==> o !in overlaps[1..];
    }
  }

  lemma {:induction false} OverlapTwice(overlaps: seq<PairOverlap>, k: nat, l: nat)
    requires k < l < |overlaps| && overlaps[k] == overlaps[l]
    ensures multiset(overlaps)[overlaps[k]] >= 2
  {
    assert overlaps == overlaps[..l] + [overlaps[l]] + overlaps[l + 1..];
    assert overlaps[..l][k] == overlaps[k];
    assert overlaps[k] in multiset(overlaps[..l]);
  }

  lemma {:induction false} OneEachPermuted(a: seq<PairOverlap>, b: seq<PairOverlap>)
    requires multiset(a) == multiset(b) && OneEach(a)
    ensures OneEach(b)
  {
    forall k, l | 0 <= k < l < |b| ensures (b[k].left, b[k].right) != (b[l].left, b[l].right) {
      if b[k] == b[l] {
        OverlapTwice(b, k, l);
        OverlapOnce(a, b[k]);
      }
      assert b[k] in multiset(a) && b[l] in multiset(a);
      var i :| 0 <= i < |a| && a[i] == b[k];
      var j :| 0 <= j < |a| && a[j] == b[l];
    }
  }

  lemma {:induction false} CoversPermuted(es: seq<AliasEntry>, key: CanonicalKey, f: seq<int>, a: seq<PairOverlap>, b: seq<PairOverlap>)
    requires CoversSharing(es, key, f, a) && forall o :: o in a <==> o in b
    ensures CoversSharing(es, key, f, b)
  {
    hide Linked;
  }

  /** Unless it is cut, the sorted list shows every two linked entries once. */
  lemma {:induction false} AnalysisListsPairs(es: seq<AliasEntry>, key: CanonicalKey, clusters: seq<AliasCluster>, classes: Adjacency,
    f: seq<int>, first: seq<nat>, overlaps: seq<PairOverlap>, limit: nat, result: IdentityAnalysis)
    requires Represents(es, key, clusters, classes, f, first) && OverlapsMean(es, key, f, overlaps)
    requires CoversSharing(es, key, f, overlaps) && InBounds(clusters, overlaps) && OneEach(overlaps)
    requires forall o | o in overlaps :: !o.lowerBound
    requires SuggestsUpTo(clusters, SortBy(PairLe, overlaps), Cover(classes, |clusters|), limit, result)
    requires !result.overlapSuggestionsTruncated
    ensures ListsPairs(es, key, result.overlapSuggestions)
  {
    hide Represents, CoversSharing, OneEach, SortBy, Suggestions, PairsShown, Cover, GroupNumbers, Keys;
    var ordered := SortBy(PairLe, overlaps);
    SameElements(PairLe, overlaps);
    OneEachPermuted(overlaps, ordered);
    CoversPermuted(es, key, f, overlaps, ordered);
    SuggestionsListPairs(es, key, clusters, classes, f, first, ordered);
  }

  // ---- How long the list is ----

  /** The pairs of entries of different groups that share a key, each taken once. */
  ghost function LinkedOnce(es: seq<AliasEntry>, key: CanonicalKey): set<(nat, nat)> {
    set p: nat, q: nat | p < |es| && q < |es| && p < q && Linked(es, key, p, q) :: (p, q)
  }

  ghost function Onto<T, X>(items: set<T>, image: T -> X, x: X): set<T> { set t | t in items && image(t) == x }

  lemma {:induction false} InOnto<T, X>(items: set<T>, image: T -> X, t: T)
    ensures t in items ==> |Onto(items, image, image(t))| > 0
  {
    assert t in items ==> t in Onto(items, image, image(t));
  }

  /** A list that has every value as often as it is the image of an item is as long as there are items. */
  lemma {:induction false} CountByImage<T, X(!new)>(list: seq<X>, items: set<T>, image: T -> X)
    requires forall x :: multiset(list)[x] == |Onto(items, image, x)|
    ensures |list| == |items|
    decreases |list|
  {
    if list == [] {
      forall t ensures t !in items { InOnto(items, image, t); }
    } else {
      TailMultiset(list);
      assert multiset(list)[list[0]] > 0;
      assert Onto(items, image, list[0]) != {};
      var t :| t in Onto(items, image, list[0]);
      forall x ensures multiset(list[1..])[x] == |Onto(items - {t}, image, x)| {
        assert Onto(items - {t}, image, x) == Onto(items, image, x) - {t};
      }
      CountByImage(list[1..], items - {t}, image);
    }
  }

  ghost function ShownPair(es: seq<AliasEntry>, key: CanonicalKey): ((nat, nat)) -> OverlapSuggestion {
    (pair: (nat, nat)) =>
      if pair.0 < |es| && pair.1 < |es| then Shown(es, key, pair.0, pair.1) else OverlapSuggestion("", "", 0, false)
  }

  lemma {:induction false} ListLength(es: seq<AliasEntry>, key: CanonicalKey, list: seq<OverlapSuggestion>)
    requires ListsPairs(es, key, list)
    ensures |list| == |LinkedOnce(es, key)|
  {
    hide Linked, Shown;
    forall s ensures multiset(list)[s] == |Onto(LinkedOnce(es, key), ShownPair(es, key), s)| {
      assert Onto(LinkedOnce(es, key), ShownPair(es, key), s) == PairsShown(es, key, s);
    }
    CountByImage(list, LinkedOnce(es, key), ShownPair(es, key));
  }

  /** The list is cut exactly if there are more linked pairs than may be listed. */
  lemma {:induction false} AnalysisCut(es: seq<AliasEntry>, key: CanonicalKey, clusters: seq<AliasCluster>, classes: Adjacency,
    f: seq<int>, first: seq<nat>, overlaps: seq<PairOverlap>, limit: nat, result: IdentityAnalysis)
    requires Represents(es, key, clusters, classes, f, first) && OverlapsMean(es, key, f, overlaps)
    requires CoversSharing(es, key, f, overlaps) && InBounds(clusters, overlaps) && OneEach(overlaps)
    requires forall o | o in overlaps :: !o.lowerBound
    requires SuggestsUpTo(clusters, SortBy(PairLe, overlaps), Cover(classes, |clusters|), limit, result)
    ensures result.overlapSuggestionsTruncated <==> |LinkedOnce(es, key)| > limit
  {
    hide Represents, CoversSharing, OneEach, SortBy, Suggestions, PairsShown, Cover, GroupNumbers, Keys, LinkedOnce, ListsPairs;
    var ordered := SortBy(PairLe, overlaps);
    SameElements(PairLe, overlaps);
    OneEachPermuted(overlaps, ordered);
    CoversPermuted(es, key, f, overlaps, ordered);
    SuggestionsListPairs(es, key, clusters, classes, f, first, ordered);
    ListLength(es, key, Suggestions(clusters, ordered, Cover(classes, |clusters|)));
  }

  // ---- The list itself ----

  /** The order of the suggestions, made total: a marked one comes after an unmarked one. */
  predicate MarkedLe(a: OverlapSuggestion, b: OverlapSuggestion) {
    if SuggestionLe(a, b) && SuggestionLe(b, a) then (a.commonIdCountIsLowerBound ==> b.commonIdCountIsLowerBound)
    else SuggestionLe(a, b)
  }

  lemma {:induction false} MarkedOrder()
    ensures TotalOrder(MarkedLe)
  {
    hide TextLe;
    TextOrders();
  }

  lemma {:induction false} ListedUnmarked(es: seq<AliasEntry>, key: CanonicalKey, suggestions: seq<OverlapSuggestion>)
    requires ListsPairs(es, key, suggestions)
    ensures forall s | s in suggestions :: !s.commonIdCountIsLowerBound
  {
    hide Linked;
    forall s | s in suggestions ensures !s.commonIdCountIsLowerBound {
      assert multiset(suggestions)[s] >= 1;
      var pair :| pair in PairsShown(es, key, s);
    }
  }

  lemma {:induction false} UnmarkedSorted(suggestions: seq<OverlapSuggestion>)
    requires SortedBy(SuggestionLe, suggestions) && forall s | s in suggestions :: !s.commonIdCountIsLowerBound
    ensures SortedBy(MarkedLe, suggestions)
  {
    hide SuggestionLe;
  }

  /** Exact lists of suggestions are one list, whatever the order of the entries and the way they were found. */
  lemma {:induction false} SuggestionsIgnoreInputOrder(key: CanonicalKey, entries: seq<AliasEntry>, shuffled: seq<AliasEntry>,
    a: seq<OverlapSuggestion>, b: seq<OverlapSuggestion>)
    requires multiset(entries) == multiset(shuffled)
    requires ListsPairs(SortBy(EntryLe, entries), key, a) && ListsPairs(SortBy(EntryLe, shuffled), key, b)
    requires SortedBy(SuggestionLe, a) && SortedBy(SuggestionLe, b)
    ensures a == b
  {
    hide PairsShown, EntryLe, MarkedLe, SuggestionLe, SortedBy, TotalOrder;
    assert TotalOrder(EntryLe) by { EntryOrder(); }
    SortByCanonical(EntryLe, entries, shuffled);
    var es := SortBy(EntryLe, entries);
    ListedUnmarked(es, key, a);
    ListedUnmarked(es, key, b);
    UnmarkedSorted(a);
    UnmarkedSorted(b);
    MarkedOrder();
    assert forall s :: multiset(a)[s] == multiset(b)[s];
    SortedUnique(MarkedLe, a, b);
  }
}
