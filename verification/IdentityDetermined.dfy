/** The indexed analysis is determined by its entries: every index of the same entries gives the
    same answer, with and without cuts, and says when it is cut. */
module IdentityDetermined {
  import opened Collections
  import opened Ordering
  import opened CliqueCover
  import opened IdentityGroups
  import opened IdentityClusters
  import opened IdentityListing
  import opened IdentityIndexed

  // ---- The clusters ----

  /** Entries with one large set of keys, which go to one cluster. */
  ghost predicate Alike(es: seq<AliasEntry>, key: CanonicalKey, i: nat, j: nat) {
    i < |es| && j < |es| && Keys(es[i], key) == Keys(es[j], key) && |Keys(es[i], key)| >= SHARED_ID_THRESHOLD
  }

  lemma {:induction false} WithoutLast(a: seq<nat>)
    requires Increasing(a) && a != []
    ensures var last := |a| - 1;
      Increasing(a[..last]) && Elements(a[..last]) == Elements(a) - {a[last]} && forall x: nat | x in Elements(a) :: x <= a[last]
  {
    var last := |a| - 1;
    assert a == a[..last] + [a[last]];
    assert a[last] !in a[..last];
  }

  lemma {:induction false} IncreasingUnique(a: seq<nat>, b: seq<nat>)
    requires Increasing(a) && Increasing(b) && Elements(a) == Elements(b)
    ensures a == b
  {
    hide Increasing;
    SizeOfIncreasing(a);
    SizeOfIncreasing(b);
    if a != [] {
      var last := |a| - 1;
      WithoutLast(a);
      WithoutLast(b);
      assert a[last] in Elements(a) && b[last] in Elements(b);
      IncreasingUnique(a[..last], b[..last]);
      assert a == a[..last] + [a[last]] && b == b[..last] + [b[last]];
    }
  }

  lemma {:induction false} SameIds(a: seq<nat>, b: seq<nat>, keys: seq<string>)
    requires Increasing(a) && Increasing(b) && OneToOne(keys)
    requires (forall id | id in a :: id < |keys|) && forall id | id in b :: id < |keys|
    requires KeysNumbered(Elements(a), keys) == KeysNumbered(Elements(b), keys)
    ensures a == b
  {
    forall id: nat ensures id in Elements(a) <==> id in Elements(b) {
      if id in Elements(a) || id in Elements(b) {
        assert keys[id] in KeysNumbered(Elements(a), keys) && keys[id] in KeysNumbered(Elements(b), keys);
      }
    }
    IncreasingUnique(a, b);
  }

  lemma {:induction false} KeysOfCluster(es: seq<AliasEntry>, key: CanonicalKey, x: Index, i: nat)
    requires Compressed(es, key, x) && i < |es|
    ensures |x.f| == |es| && -1 <= x.f[i] < |x.clusters| && (x.f[i] < 0 <==> Keys(es[i], key) == {})
    ensures 0 <= x.f[i] ==> Keys(es[i], key) == KeysNumbered(IdsOf(x.clusters[x.f[i]]), x.keys)
    ensures 0 <= x.f[i] ==> |Keys(es[i], key)| == |x.clusters[x.f[i]].ids|
  {
    if 0 <= x.f[i] {
      var ids := x.clusters[x.f[i]].ids;
      NumberingKeepsSize(Elements(ids), x.keys);
      SizeOfIncreasing(ids);
    }
  }

  /** Two entries are in one cluster exactly if they are alike. */
  lemma {:induction false} InOneCluster(es: seq<AliasEntry>, key: CanonicalKey, x: Index, j: nat, i: nat)
    requires Compressed(es, key, x) && j < i < |es|
    ensures |x.f| == |es| && (0 <= x.f[j] == x.f[i] <==> Alike(es, key, j, i))
  {
    hide Keys, KeysNumbered;
    KeysOfCluster(es, key, x, i);
    KeysOfCluster(es, key, x, j);
    if Alike(es, key, j, i) {
      assert 0 <= x.f[i] && 0 <= x.f[j];
      var a, b := x.clusters[x.f[i]].ids, x.clusters[x.f[j]].ids;
      SameIds(a, b, x.keys);
    }
  }

  lemma {:induction false} Numbering(es: seq<AliasEntry>, key: CanonicalKey, x: Index)
    requires Compressed(es, key, x)
    ensures |x.f| == |es| && |x.first| == |x.clusters|
    ensures forall c: nat | c < |x.clusters| :: x.first[c] < |es| && x.f[x.first[c]] == c
    ensures forall i: nat | i < |es| :: x.f[i] < |x.clusters| && (0 <= x.f[i] ==> x.first[x.f[i]] <= i)
    ensures forall c: nat, d: nat | c < d < |x.clusters| :: x.first[c] < x.first[d]
  {
    hide Keys, KeysNumbered, ClassNames;
  }

  lemma {:induction false} NotLater(es: seq<AliasEntry>, key: CanonicalKey, x: Index, y: Index, k: nat)
    requires Compressed(es, key, x) && Compressed(es, key, y) && k < |es|
    requires |x.f| == |y.f| == |es| && forall i | 0 <= i < k :: x.f[i] == y.f[i]
    ensures x.f[k] <= y.f[k]
  {
    hide Compressed, Alike, Keys;
    KeysOfCluster(es, key, x, k);
    KeysOfCluster(es, key, y, k);
    Numbering(es, key, x);
    if y.f[k] < x.f[k] {
      var j := x.first[y.f[k]];
      assert j < x.first[x.f[k]] <= k;
      assert y.f[j] == x.f[j] == y.f[k];
      InOneCluster(es, key, x, j, k);
      InOneCluster(es, key, y, j, k);
    }
  }

  lemma {:induction false} SameNumbers(es: seq<AliasEntry>, key: CanonicalKey, x: Index, y: Index, k: nat)
    requires Compressed(es, key, x) && Compressed(es, key, y) && k <= |es|
    ensures |x.f| == |y.f| == |es| && forall i | 0 <= i < k :: x.f[i] == y.f[i]
  {
    hide Compressed;
    Numbering(es, key, x);
    Numbering(es, key, y);
    if k > 0 {
      SameNumbers(es, key, x, y, k - 1);
      NotLater(es, key, x, y, k - 1);
      NotLater(es, key, y, x, k - 1);
    }
  }

  lemma {:induction false} ClusterAt(es: seq<AliasEntry>, key: CanonicalKey, x: Index, c: nat)
    requires Compressed(es, key, x) && c < |x.clusters|
    ensures |x.first| == |x.clusters| && x.first[c] < |es| && |x.f| == |es|
    ensures x.clusters[c].names == ClassNames(NamesOf(es), x.f, c, |es|) && Increasing(x.clusters[c].ids)
    ensures forall id | id in x.clusters[c].ids :: id < |x.keys|
    ensures Keys(es[x.first[c]], key) == KeysNumbered(Elements(x.clusters[c].ids), x.keys)
  {
    hide Keys, KeysNumbered, ClassNames;
  }

  lemma {:induction false} SameClusters(es: seq<AliasEntry>, key: CanonicalKey, x: Index, y: Index)
    requires Compressed(es, key, x) && Compressed(es, key, y)
    ensures x.clusters == y.clusters && x.keys == y.keys && x.f == y.f && x.first == y.first
  {
    hide Sorted, Contents, Merged, Keys, KeysNumbered, ClassNames, KeysMet;
    SameNumbers(es, key, x, y, |es|);
    Numbering(es, key, x);
    Numbering(es, key, y);
    assert x.f == y.f;
    assert |x.clusters| <= |y.clusters| by {
      if 0 < |x.clusters| { assert x.f[x.first[|x.clusters| - 1]] == |x.clusters| - 1; }
    }
    assert |y.clusters| <= |x.clusters| by {
      if 0 < |y.clusters| { assert y.f[y.first[|y.clusters| - 1]] == |y.clusters| - 1; }
    }
    forall c: nat | c < |x.clusters| ensures x.first[c] == y.first[c] && x.clusters[c] == y.clusters[c] {
      assert x.f[x.first[c]] == c && y.f[y.first[c]] == c;
      ClusterAt(es, key, x, c);
      ClusterAt(es, key, y, c);
      SameIds(x.clusters[c].ids, y.clusters[c].ids, x.keys);
    }
  }

  // ---- The postings and the counted overlaps ----

  lemma {:induction false} SamePostings(clusters: seq<AliasCluster>, a: seq<seq<nat>>, b: seq<seq<nat>>)
    requires WellIndexed(clusters, a) && WellIndexed(clusters, b) && |a| == |b|
    ensures a == b
  {
    hide Holders, Increasing, Elements;
    forall id: nat | id < |a| ensures a[id] == b[id] {
      IncreasingUnique(a[id], b[id]);
    }
  }

  lemma {:induction false} SameOmitted(postings: seq<seq<nat>>, keys: seq<string>, a: seq<bool>, b: seq<bool>)
    requires |postings| == |keys| == |a| == |b|
    requires OmitsUpTo(postings, BucketOrder(postings, keys), |keys|, Omitted(a))
    requires OmitsUpTo(postings, BucketOrder(postings, keys), |keys|, Omitted(b))
    ensures a == b
  {
    hide SortBy, LeftAfter, Expands;
    var order := BucketOrder(postings, keys);
    VisitsEveryBucket(order, |keys|);
    forall id: nat | id < |keys| ensures a[id] == b[id] {
      assert id in Elements(order);
      var k: nat :| k < |order| && order[k] == id;
      assert id in Omitted(a) <==> id in Omitted(b);
    }
  }

  /** The order of the overlaps, made total. */
  predicate OverlapLe(a: PairOverlap, b: PairOverlap) {
    if (a.left, a.right) != (b.left, b.right) then PairLe(a, b)
    else if a.common != b.common then a.common < b.common
    else a.lowerBound ==> b.lowerBound
  }

  lemma {:induction false} SortedOnce(overlaps: seq<PairOverlap>)
    requires OneEach(overlaps)
    ensures SortedBy(OverlapLe, SortBy(PairLe, overlaps))
  {
    hide SortBy;
    SortBySorts(PairLe, overlaps);
    OneEachPermuted(overlaps, SortBy(PairLe, overlaps));
  }

  lemma {:induction false} SameOverlapList(a: seq<PairOverlap>, b: seq<PairOverlap>)
    requires OneEach(a) && OneEach(b) && forall o :: o in a <==> o in b
    ensures SortBy(PairLe, a) == SortBy(PairLe, b)
  {
    hide SortBy, OneEach, OverlapLe, SortedBy;
    forall o ensures multiset(a)[o] == multiset(b)[o] {
      OverlapOnce(a, o);
      OverlapOnce(b, o);
      assert o in multiset(a) <==> o in a;
      assert o in multiset(b) <==> o in b;
    }
    SortedOnce(a);
    SortedOnce(b);
    OverlapOrder();
    SortedUnique(OverlapLe, SortBy(PairLe, a), SortBy(PairLe, b));
  }

  lemma {:induction false} OverlapOrder()
    ensures TotalOrder(OverlapLe)
  {}

  // ---- The answer ----

  /** Two indexes of the same entries differ at most in the order in which overlaps were collected. */
  lemma {:induction false} IndexIsDetermined(es: seq<AliasEntry>, key: CanonicalKey, x: Index, y: Index)
    requires IndexOf(es, key, x) && IndexOf(es, key, y)
    ensures x.clusters == y.clusters && x.keys == y.keys && x.postings == y.postings && x.omittedKeys == y.omittedKeys
    ensures SortBy(PairLe, x.overlaps) == SortBy(PairLe, y.overlaps)
  {
    hide Compressed, WellIndexed, OmitsUpTo, BucketOrder, Omitted, OneEach, CountedOverlap, SortBy;
    SameClusters(es, key, x, y);
    SamePostings(x.clusters, x.postings, y.postings);
    SameOmitted(x.postings, x.keys, x.omittedKeys, y.omittedKeys);
    SameOverlapList(x.overlaps, y.overlaps);
  }

  lemma {:induction false} AnswersAgree(x: Index, y: Index, a: IdentityAnalysis, b: IdentityAnalysis)
    requires Answers(x, a) && Answers(y, b) && a.exactGroups == b.exactGroups
    requires x.clusters == y.clusters && x.keys == y.keys && x.postings == y.postings && x.omittedKeys == y.omittedKeys
    requires SortBy(PairLe, x.overlaps) == SortBy(PairLe, y.overlaps)
    ensures a == b
  {
    hide SortBy, Suggestions, EvidenceRows, Cut, Omitted, Cover;
    assert Found(x) == Found(y);
    assert EvidenceIds(x) == EvidenceIds(y);
  }

  /** Groups, suggestions, evidence and the mark of the cut are independent of the order of the
      entries, for every input and whatever was cut. */
  lemma {:induction false} IndexedAnswersIgnoreInputOrder(gid: GroupIdOf, key: CanonicalKey, entries: seq<AliasEntry>,
    shuffled: seq<AliasEntry>, x: Index, y: Index, a: IdentityAnalysis, b: IdentityAnalysis)
    requires multiset(entries) == multiset(shuffled)
    requires a.exactGroups == ExactGroups(gid, key, entries) && b.exactGroups == ExactGroups(gid, key, shuffled)
    requires IndexOf(SortBy(EntryLe, entries), key, x) && Answers(x, a)
    requires IndexOf(SortBy(EntryLe, shuffled), key, y) && Answers(y, b)
    ensures a == b
  {
    hide SortBy, EntryLe, TotalOrder, IndexOf, Answers, ExactGroups;
    assert TotalOrder(EntryLe) by { EntryOrder(); }
    SortByCanonical(EntryLe, entries, shuffled);
    ExactGroupsIgnoreInputOrder(gid, key, entries, shuffled);
    IndexIsDetermined(SortBy(EntryLe, entries), key, x, y);
    AnswersAgree(x, y, a, b);
  }

  // ---- When it is cut ----

  lemma {:induction false} FoundListsPairs(es: seq<AliasEntry>, key: CanonicalKey, x: Index)
    requires IndexOf(es, key, x) && Listable(x) && Omitted(x.omittedKeys) == {}
    ensures ListsPairs(es, key, Found(x))
  {
    hide SortBy, Sorted, Contents, OneToOne, Merged, Represents, CappedOverlaps, OmitsUpTo, BucketOrder, WellIndexed,
      CountedOverlap, CoversSharing, ListsPairs, OneEach, Suggestions, KeysMet, Cover, AllWithin;
    ClustersRepresent(es, key, x.clusters, x.keys, x.f, x.first);
    CountedAreCapped(x.clusters, x.overlaps, x.omittedKeys);
    assert forall id: nat | id < |x.omittedKeys| :: x.omittedKeys[id] ==> id in Omitted(x.omittedKeys);
    CappedOverlapsMean(es, key, x.clusters, x.keys, x.f, x.overlaps, x.omittedKeys);
    CoversWhenComplete(es, key, x.clusters, x.keys, x.f, x.first, x.overlaps, x.omittedKeys);
    UnmarkedWhenComplete(x.clusters, |x.keys|, x.overlaps, x.omittedKeys);
    SameElements(PairLe, x.overlaps);
    OneEachPermuted(x.overlaps, SortBy(PairLe, x.overlaps));
    CoversPermuted(es, key, x.f, x.overlaps, SortBy(PairLe, x.overlaps));
    MeansPermuted(es, key, x.f, x.overlaps, SortBy(PairLe, x.overlaps));
    SuggestionsListPairs(es, key, x.clusters, IdAdjacency(x.clusters), x.f, x.first, SortBy(PairLe, x.overlaps));
  }

  lemma {:induction false} MeansPermuted(es: seq<AliasEntry>, key: CanonicalKey, f: seq<int>, a: seq<PairOverlap>, b: seq<PairOverlap>)
    requires OverlapsMean(es, key, f, a) && forall o :: o in a <==> o in b
    ensures OverlapsMean(es, key, f, b)
  {
    hide Keys;
  }

  /** The answer is marked as cut exactly if a shared ID was omitted or there are more linked pairs than may be listed. */
  lemma {:induction false} CutExactly(es: seq<AliasEntry>, key: CanonicalKey, x: Index, result: IdentityAnalysis)
    requires IndexOf(es, key, x) && Answers(x, result)
    ensures result.overlapSuggestionsTruncated <==>
      Omitted(x.omittedKeys) != {} || |LinkedOnce(es, key)| > 100000
  {
    hide IndexOf, SortBy, EvidenceRows, Found, Cut, LinkedOnce, ListsPairs, Omitted;
    if Omitted(x.omittedKeys) == {} {
      FoundListsPairs(es, key, x);
      ListLength(es, key, Found(x));
    }
  }

  // ---- What a posting counts ----

  /** The entries with the key, of those with one large set of keys only the first. */
  ghost function DistinctSets(es: seq<AliasEntry>, key: CanonicalKey, k: string): set<nat> {
    set p: nat | p < |es| && k in Keys(es[p], key) && !exists j: nat :: j < p && Alike(es, key, j, p)
  }

  ghost function Firsts(first: seq<nat>, cs: set<nat>): set<nat> { set c | c in cs && c < |first| :: first[c] }

  lemma {:induction false} FirstsSize(first: seq<nat>, cs: set<nat>)
    requires (forall c | c in cs :: c < |first|) && forall c: nat, d: nat | c < d < |first| :: first[c] < first[d]
    ensures |Firsts(first, cs)| == |cs|
  {
    if cs == {} {
      assert Firsts(first, cs) == {};
    } else {
      var c :| c in cs;
      FirstsSize(first, cs - {c});
      assert Firsts(first, cs) == Firsts(first, cs - {c}) + {first[c]};
      assert first[c] !in Firsts(first, cs - {c});
    }
  }

  /** The size of a posting, which decides whether its ID is omitted, is the number of distinct sets with its key. */
  lemma {:induction false} PostingCountsSets(es: seq<AliasEntry>, key: CanonicalKey, x: Index, id: nat)
    requires IndexOf(es, key, x) && id < |x.keys|
    ensures |x.postings[id]| == |DistinctSets(es, key, x.keys[id])|
  {
    hide Keys, KeysNumbered, Sorted, Contents, Merged, KeysMet, OmitsUpTo, CountedOverlaps, BucketOrder, Alike, Holders, ClassNames;
    Numbering(es, key, x);
    HoldersListed(x.clusters, x.postings);
    var cs := Holders(x.clusters, id);
    forall c: nat ensures c in cs ==> c < |x.clusters| { HoldersInBounds(x.clusters, id, c); }
    FirstsSize(x.first, cs);
    forall p: nat ensures p in Firsts(x.first, cs) <==> p in DistinctSets(es, key, x.keys[id]) {
      if p < |es| { HoldsFirst(es, key, x, id, p); }
    }
    assert Firsts(x.first, cs) == DistinctSets(es, key, x.keys[id]);
  }

  lemma {:induction false} HoldsFirst(es: seq<AliasEntry>, key: CanonicalKey, x: Index, id: nat, p: nat)
    requires Compressed(es, key, x) && id < |x.keys| && p < |es|
    ensures p in Firsts(x.first, Holders(x.clusters, id)) <==> p in DistinctSets(es, key, x.keys[id])
  {
    hide Keys, Compressed, Alike;
    Numbering(es, key, x);
    forall c: nat ensures c in Holders(x.clusters, id) ==> c < |x.clusters| { HoldersInBounds(x.clusters, id, c); }
    CompressedKeyHeld(es, key, x, p, id);
    if p in Firsts(x.first, Holders(x.clusters, id)) {
      var c: nat :| c in Holders(x.clusters, id) && c < |x.first| && x.first[c] == p;
      forall j: nat | j < p ensures !Alike(es, key, j, p) { InOneCluster(es, key, x, j, p); }
    }
    if p in DistinctSets(es, key, x.keys[id]) && x.first[x.f[p]] < p {
      InOneCluster(es, key, x, x.first[x.f[p]], p);
    }
  }

  lemma {:induction false} CompressedKeyHeld(es: seq<AliasEntry>, key: CanonicalKey, x: Index, p: nat, id: nat)
    requires Compressed(es, key, x) && p < |es| && id < |x.keys|
    ensures |x.f| == |es| && (x.keys[id] in Keys(es[p], key) <==> 0 <= x.f[p] && x.f[p] in Holders(x.clusters, id))
  {
    hide Sorted, Contents, Keys, Holders;
    EntryLength(es, key, x.clusters, x.keys, x.f);
    KeyHeld(es, key, x.clusters, x.keys, x.f, p, id);
  }
}
