/** The quadratic analysis: every pair of entries is compared under an equivalence of IDs. */
module IdentityPairwise {
  import opened Ordering
  import opened CliqueCover
  import opened IdentityGroups
  import opened IdentityClusters
  import opened IdentityListing

  type IdEquivalent = (string, string) -> bool

  const NO_SUGGESTION_LIMIT := 0xFFFF_FFFF_FFFF_FFFF

  /** IDs are equivalent exactly when they have the same non-empty key. */
  ghost predicate IsKeyEquality(equivalent: IdEquivalent, key: CanonicalKey) {
    forall a, b :: equivalent(a, b) <==> key(a) == key(b) && key(a) != ""
  }

  ghost predicate NoTwoEquivalent(ids: seq<string>, equivalent: IdEquivalent) {
    forall i, j | 0 <= i < j < |ids| :: !equivalent(ids[i], ids[j])
  }

  /** unique keeps one ID of each equivalence class of the non-empty ids. */
  ghost predicate Deduplicated(ids: seq<string>, equivalent: IdEquivalent, unique: seq<string>) {
    && NoTwoEquivalent(unique, equivalent)
    && (forall id | id in unique :: id in ids && id != "")
    && (forall id | id in ids && id != "" :: id in unique || exists u :: u in unique && equivalent(u, id))
  }

  method UniqueIds(ids: seq<string>, equivalent: IdEquivalent) returns (unique: seq<string>)
    ensures Deduplicated(ids, equivalent, unique)
  {
    unique := [];
    for k := 0 to |ids|
      invariant Deduplicated(ids[..k], equivalent, unique)
    {
      var id := ids[k];
      assert ids[..k + 1] == ids[..k] + [id];
      if id == "" { continue; }
      var duplicate := exists u :: u in unique && equivalent(u, id);
      if !duplicate {
        unique := unique + [id];
      }
    }
    assert ids[..|ids|] == ids;
  }

  predicate HasEquivalent(id: string, ids: seq<string>, equivalent: IdEquivalent) {
    exists r :: r in ids && equivalent(id, r)
  }

  /** How many of the first k left IDs have an equivalent on the right. */
  function CommonCount(left: seq<string>, right: seq<string>, equivalent: IdEquivalent, k: nat): nat
    requires k <= |left|
  {
    if k == 0 then 0 else
      CommonCount(left, right, equivalent, k - 1) + if HasEquivalent(left[k - 1], right, equivalent) then 1 else 0
  }

  method CommonIdCount(left: seq<string>, right: seq<string>, equivalent: IdEquivalent) returns (count: nat)
    ensures count == CommonCount(left, right, equivalent, |left|)
  {
    count := 0;
    for k := 0 to |left|
      invariant count == CommonCount(left, right, equivalent, k)
    {
      if HasEquivalent(left[k], right, equivalent) {
        count := count + 1;
      }
    }
  }

  /** The keys of a list from which the empty IDs have been left out. */
  ghost function KeysIn(ids: seq<string>, key: CanonicalKey): set<string> {
    set id | id in ids && key(id) != "" :: key(id)
  }

  /** Under key equality the count of a deduplicated list is the size of the key intersection. */
  lemma {:induction false} CommonCountIsIntersection(left: seq<string>, right: seq<string>,
    equivalent: IdEquivalent, key: CanonicalKey, k: nat)
    requires IsKeyEquality(equivalent, key) && NoTwoEquivalent(left, equivalent) && k <= |left|
    ensures CommonCount(left, right, equivalent, k) == |KeysIn(left[..k], key) * KeysIn(right, key)|
  {
    hide KeysIn, HasEquivalent, IsKeyEquality, NoTwoEquivalent;
    if k == 0 {
      KeysOfNone(left[..0], key);
    } else {
      CommonCountIsIntersection(left, right, equivalent, key, k - 1);
      KeysOfOneMore(left, key, k);
      EquivalentIsShared(left, right, equivalent, key, k);
      CommonStep(KeysIn(left[..k - 1], key), KeysIn(left[..k], key), KeysIn(right, key), key(left[k - 1]),
        HasEquivalent(left[k - 1], right, equivalent));
    }
  }

  lemma {:induction false} CommonStep(before: set<string>, after: set<string>, others: set<string>, k: string, has: bool)
    requires k !in before && (has <==> k in others) && (has ==> k != "")
    requires after == if k != "" then before + {k} else before
    ensures |after * others| == |before * others| + if has then 1 else 0
  {
    AddToCommon(before, others, k);
  }

  lemma {:induction false} EquivalentIsShared(left: seq<string>, right: seq<string>,
    equivalent: IdEquivalent, key: CanonicalKey, k: nat)
    requires IsKeyEquality(equivalent, key) && NoTwoEquivalent(left, equivalent) && 0 < k <= |left|
    ensures HasEquivalent(left[k - 1], right, equivalent) <==> key(left[k - 1]) in KeysIn(right, key)
    ensures key(left[k - 1]) !in KeysIn(left[..k - 1], key)
    ensures HasEquivalent(left[k - 1], right, equivalent) ==> key(left[k - 1]) != ""
  {
    if key(left[k - 1]) in KeysIn(right, key) {
      var r :| r in right && key(r) != "" && key(r) == key(left[k - 1]);
      assert equivalent(left[k - 1], r);
    }
    forall i | 0 <= i < k - 1 ensures key(left[i]) != key(left[k - 1]) || key(left[i]) == "" {
      assert !equivalent(left[i], left[k - 1]);
    }
  }

  lemma {:induction false} KeysOfNone(ids: seq<string>, key: CanonicalKey)
    requires ids == []
    ensures KeysIn(ids, key) == {}
  {}

  lemma {:induction false} KeysOfOneMore(ids: seq<string>, key: CanonicalKey, k: nat)
    requires 0 < k <= |ids|
    ensures key(ids[k - 1]) != "" ==> KeysIn(ids[..k], key) == KeysIn(ids[..k - 1], key) + {key(ids[k - 1])}
    ensures key(ids[k - 1]) == "" ==> KeysIn(ids[..k], key) == KeysIn(ids[..k - 1], key)
  {
    assert ids[..k] == ids[..k - 1] + [ids[k - 1]];
  }

  lemma {:induction false} DeduplicationKeepsKeys(e: AliasEntry, equivalent: IdEquivalent, key: CanonicalKey, unique: seq<string>)
    requires IsKeyEquality(equivalent, key) && Deduplicated(e.ids, equivalent, unique)
    ensures KeysIn(unique, key) == Keys(e, key)
  {
    forall k | k in Keys(e, key) ensures k in KeysIn(unique, key) {
      var id :| id in e.ids && id != "" && key(id) != "" && key(id) == k;
      if id !in unique {
        var u :| u in unique && equivalent(u, id);
      }
    }
  }

  ghost function CountAdjacency(uniqueIds: seq<seq<string>>, equivalent: IdEquivalent): Adjacency {
    (i: nat, j: nat) => i < |uniqueIds| && j < |uniqueIds| &&
      CommonCount(uniqueIds[i], uniqueIds[j], equivalent, |uniqueIds[i]|) >= SHARED_ID_THRESHOLD
  }

  /** The clusters made from the first k entries: one for each entry with an ID, in order. */
  ghost predicate OnePerEntry(es: seq<AliasEntry>, k: nat, equivalent: IdEquivalent,
    clusters: seq<AliasCluster>, uniqueIds: seq<seq<string>>, f: seq<int>, first: seq<nat>)
  {
    && k <= |es| && |f| == k && |first| == |clusters| == |uniqueIds|
    && (forall i | 0 <= i < k :: -1 <= f[i] < |clusters|)
    && (forall i | 0 <= i < k && f[i] < 0 :: Deduplicated(es[i].ids, equivalent, []))
    && (forall i | 0 <= i < k && 0 <= f[i] :: first[f[i]] == i)
    && (forall c | 0 <= c < |clusters| :: first[c] < k && f[first[c]] == c)
    && (forall c | 0 <= c < |clusters| :: Deduplicated(es[first[c]].ids, equivalent, uniqueIds[c]))
    && (forall c | 0 <= c < |clusters| :: clusters[c].names == [es[first[c]].name])
    && (forall c, d | 0 <= c < d < |clusters| :: first[c] < first[d])
  }

  method MakeClusters(es: seq<AliasEntry>, equivalent: IdEquivalent)
    returns (clusters: seq<AliasCluster>, uniqueIds: seq<seq<string>>, ghost f: seq<int>, ghost first: seq<nat>)
    ensures OnePerEntry(es, |es|, equivalent, clusters, uniqueIds, f, first)
  {
    clusters, uniqueIds, f, first := [], [], [], [];
    for k := 0 to |es|
      invariant OnePerEntry(es, k, equivalent, clusters, uniqueIds, f, first)
    {
      var ids := UniqueIds(es[k].ids, equivalent);
      if ids == [] {
        f := f + [-1];
        continue;
      }
      uniqueIds := uniqueIds + [ids];
      f, first := f + [|clusters|], first + [k];
      clusters := clusters + [AliasCluster([], [es[k].name])];
    }
  }

  /** The overlaps found among pairs (a, b) with a < i, or a == i and b < j. */
  ghost predicate PairsCompared(uniqueIds: seq<seq<string>>, equivalent: IdEquivalent,
    overlaps: seq<PairOverlap>, i: nat, j: nat)
  {
    && (forall o | o in overlaps :: o.left < o.right < |uniqueIds| && !o.lowerBound && o.common > 0)
    && (forall o | o in overlaps ::
      o.common == CommonCount(uniqueIds[o.left], uniqueIds[o.right], equivalent, |uniqueIds[o.left]|))
    && (forall a: nat, b: nat | a < b < |uniqueIds| && (a < i || (a == i && b < j)) ::
      var common := CommonCount(uniqueIds[a], uniqueIds[b], equivalent, |uniqueIds[a]|);
      common > 0 ==> PairOverlap(a, b, common, false) in overlaps)
  }

  method ComparePairs(uniqueIds: seq<seq<string>>, equivalent: IdEquivalent) returns (overlaps: seq<PairOverlap>)
    ensures PairsCompared(uniqueIds, equivalent, overlaps, |uniqueIds|, 0) && OneEach(overlaps)
  {
    hide OneEach;
    overlaps := [];
    NoPairYet();
    for i := 0 to |uniqueIds|
      invariant PairsCompared(uniqueIds, equivalent, overlaps, i, i + 1) && OneEach(overlaps)
      invariant forall o | o in overlaps :: o.left < i
    {
      for j := i + 1 to |uniqueIds|
        invariant PairsCompared(uniqueIds, equivalent, overlaps, i, j) && OneEach(overlaps)
        invariant forall o | o in overlaps :: o.left < i || (o.left == i && o.right < j)
      {
        var common := CommonIdCount(uniqueIds[i], uniqueIds[j], equivalent);
        if common == 0 { continue; }
        OneMorePair(overlaps, PairOverlap(i, j, common, false));
        overlaps := overlaps + [PairOverlap(i, j, common, false)];
      }
    }
  }

  lemma {:induction false} CountsAreIntersections(es: seq<AliasEntry>, equivalent: IdEquivalent, key: CanonicalKey,
    clusters: seq<AliasCluster>, uniqueIds: seq<seq<string>>, f: seq<int>, first: seq<nat>, p: nat, q: nat)
    requires IsKeyEquality(equivalent, key)
    requires OnePerEntry(es, |es|, equivalent, clusters, uniqueIds, f, first)
    requires p < |es| && q < |es|
    ensures f[p] < 0 || f[q] < 0 ==> Keys(es[p], key) * Keys(es[q], key) == {}
    ensures 0 <= f[p] && 0 <= f[q] ==>
      CommonCount(uniqueIds[f[p]], uniqueIds[f[q]], equivalent, |uniqueIds[f[p]]|) ==
        |Keys(es[p], key) * Keys(es[q], key)|
  {
    DeduplicationKeepsKeys(es[p], equivalent, key, if f[p] < 0 then [] else uniqueIds[f[p]]);
    DeduplicationKeepsKeys(es[q], equivalent, key, if f[q] < 0 then [] else uniqueIds[f[q]]);
    if 0 <= f[p] && 0 <= f[q] {
      var left := uniqueIds[f[p]];
      CommonCountIsIntersection(left, uniqueIds[f[q]], equivalent, key, |left|);
      assert left[..|left|] == left;
    }
  }

  lemma {:induction false} OnePerEntryCompresses(es: seq<AliasEntry>, equivalent: IdEquivalent, key: CanonicalKey,
    clusters: seq<AliasCluster>, uniqueIds: seq<seq<string>>, f: seq<int>, first: seq<nat>)
    requires IsKeyEquality(equivalent, key)
    requires OnePerEntry(es, |es|, equivalent, clusters, uniqueIds, f, first)
    ensures Compresses(KeyAdjacency(es, key), |es|, CountAdjacency(uniqueIds, equivalent), |clusters|, f, first)
  {
    var adj, classes := KeyAdjacency(es, key), CountAdjacency(uniqueIds, equivalent);
    forall i: nat, j: nat | j < i < |es|
      ensures f[i] < 0 || f[j] < 0 ==> !adj(j, i)
      ensures 0 <= f[i] && 0 <= f[j] ==> f[j] < f[i] && adj(j, i) == classes(f[j], f[i])
    {
      CountsAreIntersections(es, equivalent, key, clusters, uniqueIds, f, first, j, i);
      assert 0 <= f[i] && 0 <= f[j] ==> first[f[i]] == i && first[f[j]] == j;
    }
  }

  lemma {:induction false} ClustersRepresent(es: seq<AliasEntry>, equivalent: IdEquivalent, key: CanonicalKey,
    clusters: seq<AliasCluster>, uniqueIds: seq<seq<string>>, f: seq<int>, first: seq<nat>, overlaps: seq<PairOverlap>)
    requires IsKeyEquality(equivalent, key)
    requires OnePerEntry(es, |es|, equivalent, clusters, uniqueIds, f, first)
    requires PairsCompared(uniqueIds, equivalent, overlaps, |uniqueIds|, 0)
    ensures Represents(es, key, clusters, CountAdjacency(uniqueIds, equivalent), f, first)
    ensures OverlapsMean(es, key, f, overlaps)
  {
    hide Compresses, Keys, Deduplicated;
    OnePerEntryCompresses(es, equivalent, key, clusters, uniqueIds, f, first);
    forall c | 0 <= c < |clusters| ensures NameLists(clusters)[c] == ClassNames(NamesOf(es), f, c, |es|) {
      OnlyClassName(NamesOf(es), f, c, first[c], |es|);
    }
    assert NameLists(clusters) == ClassLists(NamesOf(es), f, |clusters|, |es|);
    forall o, p: nat, q: nat | o in overlaps && p < |es| && q < |es| && f[p] == o.left && f[q] == o.right
      ensures o.common == |Keys(es[p], key) * Keys(es[q], key)|
    {
      CountsAreIntersections(es, equivalent, key, clusters, uniqueIds, f, first, p, q);
    }
  }

  lemma {:induction false} OnlyClassName(names: seq<string>, f: seq<int>, c: int, p: nat, k: nat)
    requires k <= |names| && k <= |f| && p < |f| && f[p] == c
    requires forall i | 0 <= i < k && f[i] == c :: i == p
    ensures ClassNames(names, f, c, k) == if p < k then [names[p]] else []
  {
    if k > 0 { OnlyClassName(names, f, c, p, k - 1); }
  }

  method Analyze(gid: GroupIdOf, entries: seq<AliasEntry>, equivalent: IdEquivalent, ghost key: CanonicalKey)
    returns (result: IdentityAnalysis)
    ensures IsKeyEquality(equivalent, key) ==> result.exactGroups == ExactGroups(gid, key, entries)
    ensures IsKeyEquality(equivalent, key) ==>
      var es := SortBy(EntryLe, entries); ReportsGroups(gid, NamesOf(es), GroupNumbers(es, key), result.exactGroups)
    ensures IsKeyEquality(equivalent, key) ==>
      (result.overlapSuggestionsTruncated <==> |LinkedOnce(SortBy(EntryLe, entries), key)| > 0xFFFF_FFFF_FFFF_FFFF)
    ensures IsKeyEquality(equivalent, key) ==>
      SuggestionsMean(SortBy(EntryLe, entries), key, result.overlapSuggestions)
    ensures SortedBy(SuggestionLe, result.overlapSuggestions)
    ensures forall s | s in result.overlapSuggestions :: !s.commonIdCountIsLowerBound
    ensures IsKeyEquality(equivalent, key) && !result.overlapSuggestionsTruncated ==>
      var es := SortBy(EntryLe, entries);
      forall p: nat, q: nat | p < |es| && q < |es| && Keys(es[p], key) * Keys(es[q], key) != {} &&
          GroupNumbers(es, key)[p] != GroupNumbers(es, key)[q] ::
        Suggested(es, key, result.overlapSuggestions, p, q)
    ensures IsKeyEquality(equivalent, key) && !result.overlapSuggestionsTruncated ==>
      ShowsAll(SortBy(EntryLe, entries), key, result.overlapSuggestions)
    ensures IsKeyEquality(equivalent, key) && !result.overlapSuggestionsTruncated ==>
      ListsPairs(SortBy(EntryLe, entries), key, result.overlapSuggestions)
  {
    hide SortBy, Emit, PairsShown, CoversSharing, ReportsGroups, ExactGroups, LinkedOnce;
    var es := SortBy(EntryLe, entries);
    var clusters, uniqueIds, f, first := MakeClusters(es, equivalent);
    var overlaps := ComparePairs(uniqueIds, equivalent);
    ghost var adj := CountAdjacency(uniqueIds, equivalent);
    result := BuildAnalysis(gid, clusters, overlaps, NO_SUGGESTION_LIMIT, [], adj);
    AnalysisInOrder(clusters, SortBy(PairLe, overlaps), Cover(adj, |clusters|), NO_SUGGESTION_LIMIT, result);
    UnmarkedStay(clusters, overlaps, Cover(adj, |clusters|), result.overlapSuggestions);
    if IsKeyEquality(equivalent, key) {
      ClustersRepresent(es, equivalent, key, clusters, uniqueIds, f, first, overlaps);
      ClustersEmitExactGroups(gid, entries, es, key, clusters, adj, f, first);
      SuggestionsMeanEntries(es, key, clusters, adj, f, first, overlaps, result.overlapSuggestions);
      ExactGroupsAre(gid, key, entries);
      SharingCovered(es, equivalent, key, clusters, uniqueIds, f, first, overlaps);
      AnalysisCut(es, key, clusters, adj, f, first, overlaps, NO_SUGGESTION_LIMIT, result);
      if !result.overlapSuggestionsTruncated {
        AnalysisListsPairs(es, key, clusters, adj, f, first, overlaps, NO_SUGGESTION_LIMIT, result);
        forall p: nat, q: nat | p < |es| && q < |es| && Keys(es[p], key) * Keys(es[q], key) != {} &&
            GroupNumbers(es, key)[p] != GroupNumbers(es, key)[q]
          ensures Suggested(es, key, result.overlapSuggestions, p, q)
        {
          SharingEntriesSuggested(es, equivalent, key, clusters, uniqueIds, f, first, overlaps,
            result.overlapSuggestions, p, q);
        }
      }
    }
  }

  lemma {:induction false} SharingCovered(es: seq<AliasEntry>, equivalent: IdEquivalent, key: CanonicalKey,
    clusters: seq<AliasCluster>, uniqueIds: seq<seq<string>>, f: seq<int>, first: seq<nat>, overlaps: seq<PairOverlap>)
    requires IsKeyEquality(equivalent, key)
    requires OnePerEntry(es, |es|, equivalent, clusters, uniqueIds, f, first)
    requires PairsCompared(uniqueIds, equivalent, overlaps, |uniqueIds|, 0)
    ensures CoversSharing(es, key, f, overlaps)
  {
    hide Keys, Deduplicated, GroupNumbers;
    forall p: nat, q: nat | Linked(es, key, p, q)
      ensures f[p] != f[q] && (f[p] < f[q] ==> exists o :: o in overlaps && f[p] == o.left && f[q] == o.right)
    {
      CountsAreIntersections(es, equivalent, key, clusters, uniqueIds, f, first, p, q);
      assert first[f[p]] == p && first[f[q]] == q;
      if f[p] < f[q] {
        var common := CommonCount(uniqueIds[f[p]], uniqueIds[f[q]], equivalent, |uniqueIds[f[p]]|);
        assert PairOverlap(f[p], f[q], common, false) in overlaps;
      }
    }
  }

  lemma {:induction false} SharingEntriesSuggested(es: seq<AliasEntry>, equivalent: IdEquivalent, key: CanonicalKey,
    clusters: seq<AliasCluster>, uniqueIds: seq<seq<string>>, f: seq<int>, first: seq<nat>,
    overlaps: seq<PairOverlap>, suggestions: seq<OverlapSuggestion>, p: nat, q: nat)
    requires IsKeyEquality(equivalent, key)
    requires OnePerEntry(es, |es|, equivalent, clusters, uniqueIds, f, first)
    requires PairsCompared(uniqueIds, equivalent, overlaps, |uniqueIds|, 0)
    requires Represents(es, key, clusters, CountAdjacency(uniqueIds, equivalent), f, first)
    requires OverlapsMean(es, key, f, overlaps)
    requires SuggestionsComplete(clusters, overlaps,
      Cover(CountAdjacency(uniqueIds, equivalent), |clusters|), suggestions)
    requires p < |es| && q < |es| && Keys(es[p], key) * Keys(es[q], key) != {}
    requires GroupNumbers(es, key)[p] != GroupNumbers(es, key)[q]
    ensures Suggested(es, key, suggestions, p, q)
  {
    hide Represents, Keys, Deduplicated, SuggestionsComplete, OverlapsMean;
    var a, b := if p < q then p else q, if p < q then q else p;
    assert Keys(es[p], key) * Keys(es[q], key) == Keys(es[q], key) * Keys(es[p], key);
    CountsAreIntersections(es, equivalent, key, clusters, uniqueIds, f, first, a, b);
    assert f[a] < f[b] by { assert first[f[a]] == a && first[f[b]] == b; }
    var common := CommonCount(uniqueIds[f[a]], uniqueIds[f[b]], equivalent, |uniqueIds[f[a]]|);
    assert PairOverlap(f[a], f[b], common, false) in overlaps;
    EntriesSuggested(es, key, clusters, CountAdjacency(uniqueIds, equivalent), f, first, overlaps,
      suggestions, PairOverlap(f[a], f[b], common, false), a, b);
  }
}
