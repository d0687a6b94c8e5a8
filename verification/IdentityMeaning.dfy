/** What the identity analyses report, told by names, IDs and counts alone. */
module IdentityMeaning {
  import opened Collections
  import opened Ordering
  import opened CliqueCover
  import opened IdentityGroups
  import opened IdentityClusters
  import opened IdentityListing
  import opened IdentityIndexed
  import opened IdentityDetermined

  // ---- The order of texts ----

  /** Where two texts differ first; the length of the shorter if they do not. */
  ghost predicate DifferFirst(a: string, b: string, k: nat) {
    k <= |a| && k <= |b| && a[..k] == b[..k] && (k < |a| && k < |b| ==> a[k] != b[k])
  }

  /** A text is not behind another exactly if it is a beginning of it or has the lesser character where they
      first differ. */
  lemma {:induction false} TextOrderIs(a: string, b: string, k: nat)
    requires DifferFirst(a, b, k) && (k == |a| || k == |b| || a[k] != b[k])
    ensures TextLe(a, b) <==> k == |a| || (k < |b| && a[k] < b[k])
  {
    if k > 0 {
      assert a[0] == a[..k][0] == b[..k][0] == b[0];
      assert a[1..][..k - 1] == a[..k][1..] && b[1..][..k - 1] == b[..k][1..];
      TextOrderIs(a[1..], b[1..], k - 1);
    }
  }

  // ---- The order of what is reported ----

  /** Groups are in the order of their names, each with its names in order. */
  lemma {:induction false} GroupsInOrder(gid: GroupIdOf, key: CanonicalKey, entries: seq<AliasEntry>, i: nat, j: nat)
    requires i < j < |ExactGroups(gid, key, entries)|
    ensures TextsLe(ExactGroups(gid, key, entries)[i].names, ExactGroups(gid, key, entries)[j].names)
  {
    hide SortBy, ExactGroups, GroupNumbers, TextsLe;
    ExactGroupsAre(gid, key, entries);
  }

  /** Suggestions are in the order of the left names, then the right names, then the counts; and evidence rows
      in that of their keys. */
  lemma {:induction false} AnswerInOrder(x: Index, result: IdentityAnalysis, i: nat, j: nat)
    requires Answers(x, result) && i < j
    ensures j < |result.overlapSuggestions| ==>
      var a, b := result.overlapSuggestions[i], result.overlapSuggestions[j];
      TextLe(a.leftName, b.leftName) && (a.leftName == b.leftName ==> TextLe(a.rightName, b.rightName)) &&
      (a.leftName == b.leftName && a.rightName == b.rightName ==> a.commonIdCount <= b.commonIdCount)
    ensures j < |result.weakIdEvidence| ==>
      TextLe(result.weakIdEvidence[i].canonicalKey, result.weakIdEvidence[j].canonicalKey)
  {
    hide SortBy, TextLe, Found, EvidenceRows, Cut;
    SuggestionOrder();
    TextOrders();
    SortBySorts(SuggestionLe, Cut(Found(x), MAX_INDEX_SUGGESTIONS));
    SortBySorts(RowLe, EvidenceRows(x.clusters, x.postings, x.keys, EvidenceIds(x), |x.keys|));
  }

  // ---- Groups by IDs ----

  /** The key is that of a non-empty ID of both entries. */
  ghost predicate SharedKey(a: AliasEntry, b: AliasEntry, key: CanonicalKey, k: string) {
    k != "" && (exists p :: p in a.ids && p != "" && key(p) == k) && (exists q :: q in b.ids && q != "" && key(q) == k)
  }

  /** Any two entries of one group have IDs with at least five different non-empty keys in common. */
  lemma {:induction false} GroupedShareFive(es: seq<AliasEntry>, key: CanonicalKey, i: nat, j: nat) returns (shared: set<string>)
    requires i < |es| && j < |es| && i != j && GroupNumbers(es, key)[i] == GroupNumbers(es, key)[j]
    ensures |shared| >= 5 && forall k | k in shared :: SharedKey(es[i], es[j], key, k)
  {
    hide GroupNumbers;
    GroupedEntriesShareKeys(es, key, i, j);
    shared := Keys(es[i], key) * Keys(es[j], key);
  }

  /** What one pair of entries shares is all that is shared: every common key of non-empty IDs counts. */
  lemma {:induction false} SharedCounts(a: AliasEntry, b: AliasEntry, key: CanonicalKey, shared: set<string>)
    requires forall k :: k in shared <==> SharedKey(a, b, key, k)
    ensures |Keys(a, key) * Keys(b, key)| == |shared|
  {
    assert Keys(a, key) * Keys(b, key) == shared;
  }

  // ---- The caps ----

  /** The pairs of the buckets that were expanded among the first k. */
  function Expanded(postings: seq<seq<nat>>, order: seq<nat>, k: nat, omitted: seq<bool>): nat
    requires Visits(order, |postings|) && k <= |order| && |omitted| == |postings|
  {
    if k == 0 then 0 else
      var n := |postings[order[k - 1]]|;
      Expanded(postings, order, k - 1, omitted) + if n >= 2 && !omitted[order[k - 1]] then n * (n - 1) / 2 else 0
  }

  lemma {:induction false} LeftIsRest(postings: seq<seq<nat>>, order: seq<nat>, k: nat, omitted: seq<bool>)
    requires |omitted| == |postings| && OmitsUpTo(postings, order, |order|, Omitted(omitted)) && k <= |order|
    ensures Expanded(postings, order, k, omitted) + LeftAfter(postings, order, k) == 1000000
  {
    hide Expands, LeftAfter;
    if k > 0 {
      LeftIsRest(postings, order, k - 1, omitted);
      OneVisitMore(postings, order, k - 1);
      OmittedAt(postings, order, k - 1, omitted);
    } else {
      NothingOmitted(postings, order);
    }
  }

  lemma {:induction false} OmittedAt(postings: seq<seq<nat>>, order: seq<nat>, k: nat, omitted: seq<bool>)
    requires |omitted| == |postings| && OmitsUpTo(postings, order, |order|, Omitted(omitted)) && k < |order|
    ensures omitted[order[k]] <==> |postings[order[k]]| >= 2 && !Expands(|postings[order[k]]|, LeftAfter(postings, order, k))
  {
    hide Expands, LeftAfter;
    assert order[k] in Omitted(omitted) <==> omitted[order[k]];
  }

  /** A shared ID is omitted exactly if more than 256 sets have it, or its pairs together with those of the IDs
      expanded before it are more than a million; so never more than a million pairs are expanded. */
  lemma {:induction false} OmittedExactly(es: seq<AliasEntry>, key: CanonicalKey, x: Index, k: nat)
    requires IndexOf(es, key, x) && k < |x.keys|
    ensures var order := BucketOrder(x.postings, x.keys);
      && Visits(order, |x.postings|)
      && var n := |x.postings[order[k]]|;
        (x.omittedKeys[order[k]] <==>
          n >= 2 && (n > 256 || Expanded(x.postings, order, k, x.omittedKeys) + n * (n - 1) / 2 > 1000000))
  {
    hide SortBy, BucketOrder, LeftAfter, Omitted, Compressed, CountedOverlaps, WellIndexed;
    var order := BucketOrder(x.postings, x.keys);
    OmittedAt(x.postings, order, k, x.omittedKeys);
    LeftIsRest(x.postings, order, k, x.omittedKeys);
  }

  /** When no ID was omitted the list has one suggestion for every linked pair, up to the first hundred thousand. */
  lemma {:induction false} ListedUpTo(es: seq<AliasEntry>, key: CanonicalKey, x: Index, result: IdentityAnalysis)
    requires IndexOf(es, key, x) && Answers(x, result) && Omitted(x.omittedKeys) == {}
    ensures |result.overlapSuggestions| == if |LinkedOnce(es, key)| > 100000 then 100000 else |LinkedOnce(es, key)|
  {
    hide IndexOf, SortBy, EvidenceRows, Found, LinkedOnce, ListsPairs, Omitted;
    FoundListsPairs(es, key, x);
    ListLength(es, key, Found(x));
    SortByMembers(SuggestionLe, Cut(Found(x), MAX_INDEX_SUGGESTIONS));
  }

  // ---- Evidence rows ----

  ghost function InClass(names: seq<string>, f: seq<int>, c: int, k: nat, x: string): set<nat>
    requires k <= |names| && k <= |f|
  {
    set p: nat | p < k && f[p] == c && names[p] == x
  }

  lemma {:induction false} ClassCounts(names: seq<string>, f: seq<int>, c: int, k: nat, x: string)
    requires k <= |names| && k <= |f|
    ensures multiset(ClassNames(names, f, c, k))[x] == |InClass(names, f, c, k, x)|
  {
    if k == 0 {
      assert InClass(names, f, c, 0, x) == {};
    } else {
      ClassCounts(names, f, c, k - 1, x);
      var fewer, all := InClass(names, f, c, k - 1, x), InClass(names, f, c, k, x);
      if f[k - 1] == c && names[k - 1] == x { assert all == fewer + {k - 1}; } else { assert all == fewer; }
    }
  }

  ghost function InClasses(names: seq<string>, f: seq<int>, posting: seq<nat>, x: string): set<nat>
    requires |names| == |f|
  {
    set p: nat | p < |names| && 0 <= f[p] && (f[p] as nat) in posting && names[p] == x
  }

  lemma {:induction false} OneClassMore(names: seq<string>, f: seq<int>, front: seq<nat>, c: nat, x: string)
    requires |names| == |f| && c !in front
    ensures |InClasses(names, f, front + [c], x)| == |InClasses(names, f, front, x)| + |InClass(names, f, c, |names|, x)|
  {
    assert InClasses(names, f, front + [c], x) == InClasses(names, f, front, x) + InClass(names, f, c, |names|, x);
    assert InClasses(names, f, front, x) !! InClass(names, f, c, |names|, x);
  }

  lemma {:induction false} OneNameMore(clusters: seq<AliasCluster>, front: seq<nat>, c: nat)
    requires Within(front + [c], |clusters|)
    ensures Within(front, |clusters|) && c < |clusters|
    ensures NamesAlong(clusters, front + [c]) == NamesAlong(clusters, front) + clusters[c].names
  {
    var all := front + [c];
    assert all[|all| - 1] == c && all[..|all| - 1] == front;
    assert forall t | 0 <= t < |front| :: all[t] == front[t];
  }

  lemma {:induction false} AlongCounts(clusters: seq<AliasCluster>, names: seq<string>, f: seq<int>, posting: seq<nat>, x: string)
    requires |names| == |f| && NameLists(clusters) == ClassLists(names, f, |clusters|, |names|)
    requires Within(posting, |clusters|) && Increasing(posting)
    ensures multiset(NamesAlong(clusters, posting))[x] == |InClasses(names, f, posting, x)|
  {
    hide ClassNames, InClass, Within, NamesAlong;
    if posting == [] {
      NobodyAlong(clusters, names, f, x);
    } else {
      var last := |posting| - 1;
      var front, c := posting[..last], posting[last];
      assert posting == front + [c] && c !in front;
      OneNameMore(clusters, front, c);
      AlongCounts(clusters, names, f, front, x);
      ClassCounts(names, f, c, |names|, x);
      assert clusters[c].names == NameLists(clusters)[c] == ClassNames(names, f, c, |names|);
      OneClassMore(names, f, front, c, x);
    }
  }

  lemma {:induction false} NobodyAlong(clusters: seq<AliasCluster>, names: seq<string>, f: seq<int>, x: string)
    requires |names| == |f|
    ensures Within([], |clusters|) && NamesAlong(clusters, []) == [] && InClasses(names, f, [], x) == {}
  {
  }

  /** The entries of a name that have the key. */
  ghost function Having(es: seq<AliasEntry>, key: CanonicalKey, k: string, name: string): set<nat> {
    set p: nat | p < |es| && k in Keys(es[p], key) && es[p].name == name
  }

  lemma {:induction false} PostingNames(es: seq<AliasEntry>, key: CanonicalKey, x: Index, id: nat, name: string)
    requires IndexOf(es, key, x) && id < |x.keys|
    ensures Within(x.postings[id], |x.clusters|)
    ensures multiset(NamesAlong(x.clusters, x.postings[id]))[name] == |Having(es, key, x.keys[id], name)|
  {
    hide Keys, Compressed, OmitsUpTo, CountedOverlaps, BucketOrder, NamesAlong, Holders, Represents;
    HoldersWithin(x.clusters, x.postings);
    var posting := x.postings[id];
    CompressedLists(es, key, x);
    AlongCounts(x.clusters, NamesOf(es), x.f, posting, name);
    forall p: nat | p < |es| ensures x.keys[id] in Keys(es[p], key) <==> 0 <= x.f[p] && (x.f[p] as nat) in posting {
      CompressedKeyHeld(es, key, x, p, id);
      if 0 <= x.f[p] { assert (x.f[p] as nat) in posting <==> (x.f[p] as nat) in Elements(posting); }
    }
    assert InClasses(NamesOf(es), x.f, posting, name) == Having(es, key, x.keys[id], name);
  }

  lemma {:induction false} CompressedLists(es: seq<AliasEntry>, key: CanonicalKey, x: Index)
    requires Compressed(es, key, x)
    ensures |x.f| == |es| && NameLists(x.clusters) == ClassLists(NamesOf(es), x.f, |x.clusters|, |es|)
  {
    hide Sorted, Contents, Keys;
    ClustersRepresent(es, key, x.clusters, x.keys, x.f, x.first);
    ClustersOfEntries(es, key, x.clusters, IdAdjacency(x.clusters), x.f, x.first);
  }

  /** The row is that of one shown ID. */
  ghost predicate RowOf(x: Index, shown: set<nat>, row: WeakIdEvidence, id: nat)
    requires AllWithin(x.postings, |x.clusters|) && |x.postings| == |x.keys|
  {
    id in shown && id < |x.keys| && row == WeakIdEvidence(x.keys[id], SortBy(TextLe, NamesAlong(x.clusters, x.postings[id])))
  }

  lemma {:induction false} RowsAre(x: Index, shown: set<nat>, n: nat, row: WeakIdEvidence)
    requires AllWithin(x.postings, |x.clusters|) && n <= |x.postings| == |x.keys|
    ensures row in EvidenceRows(x.clusters, x.postings, x.keys, shown, n) <==> exists id: nat :: id < n && RowOf(x, shown, row, id)
    ensures |EvidenceRows(x.clusters, x.postings, x.keys, shown, n)| == |set id | id in shown && id < n|
  {
    hide SortBy, NamesAlong;
    if n > 0 {
      RowsAre(x, shown, n - 1, row);
      var few, all := set id | id in shown && id < n - 1, set id | id in shown && id < n;
      if n - 1 in shown {
        assert all == few + {n - 1};
        var last := WeakIdEvidence(x.keys[n - 1], SortBy(TextLe, NamesAlong(x.clusters, x.postings[n - 1])));
        assert RowOf(x, shown, last, n - 1);
        assert EvidenceRows(x.clusters, x.postings, x.keys, shown, n) ==
          EvidenceRows(x.clusters, x.postings, x.keys, shown, n - 1) + [last];
      } else {
        assert all == few;
      }
    } else {
      assert (set id | id in shown && id < 0) == {};
    }
  }

  lemma {:induction false} ShownIds(x: Index, id: nat)
    requires Listable(x) && |x.omittedKeys| == |x.keys|
    ensures id in EvidenceIds(x) <==> id < |x.keys| && (x.omittedKeys[id] || (|Found(x)| > 100000 && |x.postings[id]| > 1))
  {
    hide Found, InBounds, AllWithin, SortBy;
  }

  /** There is one evidence row for every ID that calls for one; it has the ID's key, and the name of every entry
      with that key as often as there are such entries, in order. */
  lemma {:induction false} RowsExactly(es: seq<AliasEntry>, key: CanonicalKey, x: Index, result: IdentityAnalysis, row: WeakIdEvidence)
    requires IndexOf(es, key, x) && Answers(x, result)
    ensures |result.weakIdEvidence| == |EvidenceIds(x)|
    ensures forall id: nat | id < |x.keys| && (x.omittedKeys[id] || (|Found(x)| > 100000 && |x.postings[id]| > 1)) ::
      id in EvidenceIds(x) && exists r :: r in result.weakIdEvidence && r.canonicalKey == x.keys[id]
    ensures forall id: nat | id in EvidenceIds(x) ::
      id < |x.keys| && (x.omittedKeys[id] || (|Found(x)| > 100000 && |x.postings[id]| > 1))
    ensures row in result.weakIdEvidence ==>
      SortedBy(TextLe, row.names) && forall name :: multiset(row.names)[name] == |Having(es, key, row.canonicalKey, name)|
  {
    hide Compressed, OmitsUpTo, CountedOverlaps, WellIndexed, SortBy, EvidenceRows, Found, NamesAlong, SortedBy, TextLe, Having;
    var rows, shown := EvidenceRows(x.clusters, x.postings, x.keys, EvidenceIds(x), |x.keys|), EvidenceIds(x);
    SameElements(RowLe, rows);
    SortByMembers(RowLe, rows);
    RowsAre(x, shown, |x.keys|, row);
    assert shown == set id | id in shown && id < |x.keys|;
    forall id: nat ensures id in shown <==> id < |x.keys| && (x.omittedKeys[id] || (|Found(x)| > 100000 && |x.postings[id]| > 1)) {
      ShownIds(x, id);
    }
    forall id: nat | id in shown ensures exists r :: r in result.weakIdEvidence && r.canonicalKey == x.keys[id] {
      var r := WeakIdEvidence(x.keys[id], SortBy(TextLe, NamesAlong(x.clusters, x.postings[id])));
      RowsAre(x, shown, |x.keys|, r);
      assert RowOf(x, shown, r, id);
    }
    if row in rows {
      var id: nat :| id < |x.keys| && RowOf(x, shown, row, id);
      TextOrders();
      SortBySorts(TextLe, NamesAlong(x.clusters, x.postings[id]));
      forall name ensures multiset(row.names)[name] == |Having(es, key, row.canonicalKey, name)| { PostingNames(es, key, x, id, name); }
    }
  }

  // ---- Counted overlaps ----

  ghost function Shares(x: Index, i: nat, j: nat): set<nat>
    requires i < |x.clusters| && j < |x.clusters|
  {
    set id | id in x.clusters[i].ids && id in x.clusters[j].ids && !(id < |x.omittedKeys| && x.omittedKeys[id])
  }

  ghost predicate HasOmitted(x: Index, i: nat)
    requires i < |x.clusters|
  {
    exists id :: id in x.clusters[i].ids && id < |x.omittedKeys| && x.omittedKeys[id]
  }

  /** Two clusters have an overlap exactly if they share an ID that was not omitted; it counts these IDs, and it is
      marked exactly if each of the two has an omitted one. */
  lemma {:induction false} OverlapExactly(es: seq<AliasEntry>, key: CanonicalKey, x: Index, i: nat, j: nat)
    requires IndexOf(es, key, x) && i < j < |x.clusters|
    ensures (exists o :: o in x.overlaps && o.left == i && o.right == j) <==> Shares(x, i, j) != {}
    ensures forall o | o in x.overlaps && o.left == i && o.right == j ::
      o.common == |Shares(x, i, j)| && (o.lowerBound <==> HasOmitted(x, i) && HasOmitted(x, j))
  {
    hide Compressed, OmitsUpTo, WellIndexed, OneEach, BucketOrder, IdsOf, Omitted, Shares, HasOmitted;
    var omitted := Omitted(x.omittedKeys);
    SharesAre(x, i, j);
    MarkIs(x, i);
    MarkIs(x, j);
    var o := PairOverlap(i, j, |Shares(x, i, j)|, HasOmitted(x, i) && HasOmitted(x, j));
    if Shares(x, i, j) != {} { assert CountedOverlap(x.clusters, omitted, o); }
  }

  lemma {:induction false} SharesAre(x: Index, i: nat, j: nat)
    requires i < |x.clusters| && j < |x.clusters|
    ensures IdsOf(x.clusters[i]) * IdsOf(x.clusters[j]) - Omitted(x.omittedKeys) == Shares(x, i, j)
  {
  }

  lemma {:induction false} MarkIs(x: Index, i: nat)
    requires i < |x.clusters|
    ensures IdsOf(x.clusters[i]) * Omitted(x.omittedKeys) != {} <==> HasOmitted(x, i)
  {
    if HasOmitted(x, i) {
      var id :| id in x.clusters[i].ids && id < |x.omittedKeys| && x.omittedKeys[id];
      assert id in IdsOf(x.clusters[i]) * Omitted(x.omittedKeys);
    }
    if id :| id in IdsOf(x.clusters[i]) * Omitted(x.omittedKeys) { assert id in x.clusters[i].ids; }
  }
}
