/** The indexed analysis: interned keys, compressed signatures, posting lists and streamed
    counters, with caps on displayed suggestions only. */
module IdentityIndexed {
  import opened Options
  import opened Collections
  import opened Ordering
  import opened CliqueCover
  import opened IdentityGroups
  import opened IdentityClusters
  import opened IdentityListing

  const MAX_INDEX_BUCKET_SETS := 256
  const MAX_INDEX_PAIR_UPDATES := 1000000
  const MAX_INDEX_SUGGESTIONS := 100000

  ghost predicate Increasing(ids: seq<nat>) {
    forall i, j | 0 <= i < j < |ids| :: ids[i] < ids[j]
  }

  ghost function IdsOf(cluster: AliasCluster): set<nat> { Elements(cluster.ids) }

  ghost function IdAdjacency(clusters: seq<AliasCluster>): Adjacency {
    (j: nat, i: nat) => j < |clusters| && i < |clusters| && Strong(IdsOf(clusters[j]), IdsOf(clusters[i]))
  }

  // ---- Merge-scan overlap test ----

  /** Nothing in the part passed on one side equals anything in the rest of the other. */
  ghost predicate Scanned(left: seq<nat>, right: seq<nat>, i: nat, j: nat) {
    && Increasing(left) && Increasing(right) && i <= |left| && j <= |right|
    && (forall x, y | 0 <= x < i && j <= y < |right| :: left[x] < right[y])
    && (forall x, y | i <= x < |left| && 0 <= y < j :: right[y] < left[x])
  }

  ghost function CommonSoFar(left: seq<nat>, right: seq<nat>, i: nat, j: nat): set<nat>
    requires i <= |left| && j <= |right|
  {
    Elements(left[..i]) * Elements(right[..j])
  }

  lemma {:induction false} ScanStart(left: seq<nat>, right: seq<nat>)
    requires Increasing(left) && Increasing(right)
    ensures Scanned(left, right, 0, 0) && |CommonSoFar(left, right, 0, 0)| == 0
  {
    assert CommonSoFar(left, right, 0, 0) == {};
  }

  lemma {:induction false} ScanLeft(left: seq<nat>, right: seq<nat>, i: nat, j: nat)
    requires Scanned(left, right, i, j) && i < |left| && j < |right| && left[i] < right[j]
    ensures Scanned(left, right, i + 1, j) && CommonSoFar(left, right, i + 1, j) == CommonSoFar(left, right, i, j)
  {
    assert left[..i + 1] == left[..i] + [left[i]];
  }

  lemma {:induction false} ScanRight(left: seq<nat>, right: seq<nat>, i: nat, j: nat)
    requires Scanned(left, right, i, j) && i < |left| && j < |right| && right[j] < left[i]
    ensures Scanned(left, right, i, j + 1) && CommonSoFar(left, right, i, j + 1) == CommonSoFar(left, right, i, j)
  {
    assert right[..j + 1] == right[..j] + [right[j]];
  }

  lemma {:induction false} ScanBoth(left: seq<nat>, right: seq<nat>, i: nat, j: nat)
    requires Scanned(left, right, i, j) && i < |left| && j < |right| && left[i] == right[j]
    ensures Scanned(left, right, i + 1, j + 1) && |CommonSoFar(left, right, i + 1, j + 1)| == |CommonSoFar(left, right, i, j)| + 1
  {
    assert left[..i + 1] == left[..i] + [left[i]] && right[..j + 1] == right[..j] + [right[j]];
    assert left[i] !in left[..i];
    assert CommonSoFar(left, right, i + 1, j + 1) == CommonSoFar(left, right, i, j) + {left[i]};
  }

  lemma {:induction false} ScanEnd(left: seq<nat>, right: seq<nat>, i: nat, j: nat)
    requires Scanned(left, right, i, j)
    ensures |CommonSoFar(left, right, i, j)| <= |Elements(left) * Elements(right)|
    ensures i == |left| || j == |right| ==> CommonSoFar(left, right, i, j) == Elements(left) * Elements(right)
  {
    SubsetSize(CommonSoFar(left, right, i, j), Elements(left) * Elements(right));
    if i == |left| || j == |right| {
      forall x | x in Elements(left) * Elements(right) ensures x in CommonSoFar(left, right, i, j) {
        var p :| 0 <= p < |left| && left[p] == x;
        var q :| 0 <= q < |right| && right[q] == x;
        assert p < i && q < j;
        assert left[..i][p] == x && right[..j][q] == x;
      }
    }
  }

  method HasStrongOverlap(left: AliasCluster, right: AliasCluster) returns (strong: bool)
    requires Increasing(left.ids) && Increasing(right.ids)
    ensures strong <==> Strong(IdsOf(left), IdsOf(right))
  {
    hide Scanned, CommonSoFar, Elements;
    var i, j, games := 0, 0, 0;
    ScanStart(left.ids, right.ids);
    while i < |left.ids| && j < |right.ids|
      invariant i <= |left.ids| && j <= |right.ids|
      invariant Scanned(left.ids, right.ids, i, j)
      invariant games == |CommonSoFar(left.ids, right.ids, i, j)| < SHARED_ID_THRESHOLD
      decreases |left.ids| - i + |right.ids| - j
    {
      if left.ids[i] < right.ids[j] {
        ScanLeft(left.ids, right.ids, i, j);
        i := i + 1;
      } else if right.ids[j] < left.ids[i] {
        ScanRight(left.ids, right.ids, i, j);
        j := j + 1;
      } else {
        ScanBoth(left.ids, right.ids, i, j);
        games := games + 1;
        if games >= SHARED_ID_THRESHOLD {
          ScanEnd(left.ids, right.ids, i + 1, j + 1);
          return true;
        }
        i, j := i + 1, j + 1;
      }
    }
    ScanEnd(left.ids, right.ids, i, j);
    return false;
  }

  // ---- Interning ----

  /** keys numbers the distinct non-empty keys met; both maps agree with it. */
  ghost predicate Interned(key: CanonicalKey, rawIds: map<string, Option<nat>>, internedKeys: map<string, nat>, keys: seq<string>) {
    && (forall k | k in internedKeys :: internedKeys[k] < |keys| && keys[internedKeys[k]] == k)
    && (forall i | 0 <= i < |keys| :: keys[i] != "" && keys[i] in internedKeys && internedKeys[keys[i]] == i)
    && (forall raw | raw in rawIds :: match rawIds[raw]
          case None => key(raw) == ""
          case Some(id) => id < |keys| && keys[id] == key(raw))
  }

  ghost function KeysNumbered(ids: set<nat>, keys: seq<string>): set<string> {
    set id | id in ids && id < |keys| :: keys[id]
  }

  /** A new non-empty key gets the next number. */
  function WithKey(keys: seq<string>, k: string): seq<string> {
    if k == "" || k in keys then keys else keys + [k]
  }

  function WithKeys(keys: seq<string>, ids: seq<string>, key: CanonicalKey): seq<string> {
    if ids == [] then keys else
      var last := |ids| - 1;
      var earlier := WithKeys(keys, ids[..last], key);
      if ids[last] == "" then earlier else WithKey(earlier, key(ids[last]))
  }

  /** The keys of the first k entries in the order in which they were met. */
  function KeysMet(es: seq<AliasEntry>, key: CanonicalKey, k: nat): seq<string>
    requires k <= |es|
  {
    if k == 0 then [] else WithKeys(KeysMet(es, key, k - 1), es[k - 1].ids, key)
  }

  lemma {:induction false} OneMoreId(keys: seq<string>, ids: seq<string>, key: CanonicalKey, k: nat)
    requires k < |ids|
    ensures WithKeys(keys, ids[..k + 1], key) ==
      if ids[k] == "" then WithKeys(keys, ids[..k], key) else WithKey(WithKeys(keys, ids[..k], key), key(ids[k]))
  {
    assert ids[..k + 1][..k] == ids[..k];
  }

  method InternOne(raw: string, key: CanonicalKey, rawIds: map<string, Option<nat>>, internedKeys: map<string, nat>,
    keys: seq<string>) returns (id: Option<nat>, rawIds': map<string, Option<nat>>,
    internedKeys': map<string, nat>, keys': seq<string>)
    requires Interned(key, rawIds, internedKeys, keys)
    ensures Interned(key, rawIds', internedKeys', keys') && keys <= keys' == WithKey(keys, key(raw))
    ensures id.None? <==> key(raw) == ""
    ensures id.Some? ==> id.value < |keys'| && keys'[id.value] == key(raw)
  {
    rawIds', internedKeys', keys' := rawIds, internedKeys, keys;
    if raw in rawIds {
      return rawIds[raw], rawIds, internedKeys, keys;
    }
    var k := key(raw);
    id := None;
    if k != "" {
      if k in internedKeys {
        id := Some(internedKeys[k]);
      } else {
        id := Some(|keys|);
        internedKeys' := internedKeys[k := |keys|];
        keys' := keys + [k];
      }
    }
    rawIds' := rawIds[raw := id];
  }

  method DistinctSorted(ids: seq<nat>) returns (distinct: seq<nat>)
    ensures Increasing(distinct) && Elements(distinct) == Elements(ids)
  {
    hide SortBy;
    var sorted := SortBy(NatLe, ids);
    SortBySorts(NatLe, ids);
    SortByMembers(NatLe, ids);
    distinct := [];
    for k := 0 to |sorted|
      invariant Increasing(distinct) && Elements(distinct) == Elements(sorted[..k])
      invariant if k == 0 then distinct == [] else distinct != [] && distinct[|distinct| - 1] == sorted[k - 1]
    {
      ElementsOneMore(sorted, k);
      if k == 0 || sorted[k - 1] != sorted[k] {
        assert k > 0 ==> NatLe(sorted[k - 1], sorted[k]);
        ElementsAppend(distinct, sorted[k]);
        distinct := distinct + [sorted[k]];
      } else {
        assert distinct[|distinct| - 1] in Elements(distinct);
      }
    }
    assert sorted[..|sorted|] == sorted;
  }

  lemma {:induction false} KeysOneMore(ids: seq<string>, key: CanonicalKey, k: nat)
    requires k < |ids|
    ensures KeysOf(ids[..k + 1], key) ==
      KeysOf(ids[..k], key) + if ids[k] != "" && key(ids[k]) != "" then {key(ids[k])} else {}
  {
    assert ids[..k + 1] == ids[..k] + [ids[k]];
  }

  lemma {:induction false} NumberedOneMore(ids: seq<nat>, id: nat, keys: seq<string>, keys': seq<string>)
    requires keys <= keys' && id < |keys'| && forall i | i in ids :: i < |keys|
    ensures KeysNumbered(Elements(ids), keys') == KeysNumbered(Elements(ids), keys)
    ensures KeysNumbered(Elements(ids + [id]), keys') == KeysNumbered(Elements(ids), keys) + {keys'[id]}
  {
    forall k | k in KeysNumbered(Elements(ids), keys) ensures k in KeysNumbered(Elements(ids), keys') {
      var i :| i in ids && keys[i] == k;
      assert keys'[i] == k;
    }
    var more := KeysNumbered(Elements(ids + [id]), keys');
    forall k | k in KeysNumbered(Elements(ids), keys) + {keys'[id]} ensures k in more {
      if k != keys'[id] {
        var i :| i in ids && keys[i] == k;
        assert keys'[i] == k && i in Elements(ids + [id]);
      } else {
        assert id in Elements(ids + [id]);
      }
    }
  }

  method InternIds(entry: AliasEntry, key: CanonicalKey, rawIds: map<string, Option<nat>>,
    internedKeys: map<string, nat>, keys: seq<string>) returns (ids: seq<nat>,
    rawIds': map<string, Option<nat>>, internedKeys': map<string, nat>, keys': seq<string>)
    requires Interned(key, rawIds, internedKeys, keys)
    ensures Interned(key, rawIds', internedKeys', keys') && keys <= keys' == WithKeys(keys, entry.ids, key)
    ensures Increasing(ids) && (forall id | id in ids :: id < |keys'|)
    ensures KeysNumbered(Elements(ids), keys') == Keys(entry, key)
  {
    hide KeysOf, KeysNumbered, WithKey;
    rawIds', internedKeys', keys' := rawIds, internedKeys, keys;
    var unsorted: seq<nat> := [];
    NothingKnown(entry.ids[..0], key, keys);
    for k := 0 to |entry.ids|
      invariant Interned(key, rawIds', internedKeys', keys') && keys <= keys' == WithKeys(keys, entry.ids[..k], key)
      invariant forall id | id in unsorted :: id < |keys'|
      invariant KeysNumbered(Elements(unsorted), keys') == KeysOf(entry.ids[..k], key)
    {
      var raw := entry.ids[k];
      KeysOneMore(entry.ids, key, k);
      OneMoreId(keys, entry.ids, key, k);
      if raw == "" { continue; }
      ghost var before := keys';
      var id;
      id, rawIds', internedKeys', keys' := InternOne(raw, key, rawIds', internedKeys', keys');
      match id {
        case None =>
          if |keys'| > 0 { NumberedOneMore(unsorted, 0, before, keys'); } else { assert before == keys'; }
        case Some(value) =>
          NumberedOneMore(unsorted, value, before, keys');
          unsorted := unsorted + [value];
      }
    }
    ids := DistinctSorted(unsorted);
    assert entry.ids[..|entry.ids|] == entry.ids;
    forall id | id in ids ensures id < |keys'| { assert id in Elements(unsorted); }
    KeysAre(entry, key);
  }

  lemma {:induction false} NothingKnown(ids: seq<string>, key: CanonicalKey, keys: seq<string>)
    requires ids == []
    ensures KeysNumbered(Elements<nat>([]), keys) == KeysOf(ids, key) == {}
  {}

  lemma {:induction false} KeysAre(entry: AliasEntry, key: CanonicalKey)
    ensures KeysOf(entry.ids, key) == Keys(entry, key)
  {}

  // ---- Compressing equal signatures ----

  /** Which cluster each of the first k entries went to, and in which order clusters appeared. */
  ghost predicate Sorted(es: seq<AliasEntry>, k: nat, clusters: seq<AliasCluster>, f: seq<int>, first: seq<nat>) {
    && k <= |es| && |f| == k && |first| == |clusters|
    && (forall i | 0 <= i < k :: -1 <= f[i] < |clusters|)
    && (forall c | 0 <= c < |clusters| :: first[c] < k && f[first[c]] == c)
    && (forall i | 0 <= i < k && 0 <= f[i] :: first[f[i]] <= i)
    && (forall c, d | 0 <= c < d < |clusters| :: first[c] < first[d])
    && (forall i, j | 0 <= j < i < k && f[i] == f[j] && 0 <= f[i] :: |clusters[f[i]].ids| >= SHARED_ID_THRESHOLD)
    && (forall c | 0 <= c < |clusters| :: clusters[c].names == ClassNames(NamesOf(es), f, c, k))
  }

  ghost predicate Contents(es: seq<AliasEntry>, key: CanonicalKey, k: nat, clusters: seq<AliasCluster>,
    keys: seq<string>, f: seq<int>)
  {
    && k <= |es| && |f| == k
    && (forall c | 0 <= c < |clusters| :: clusters[c].ids != [] && Increasing(clusters[c].ids))
    && (forall c, id | 0 <= c < |clusters| && id in clusters[c].ids :: id < |keys|)
    && (forall i | 0 <= i < k :: -1 <= f[i] < |clusters|)
    && (forall i | 0 <= i < k && f[i] < 0 :: Keys(es[i], key) == {})
    && (forall i | 0 <= i < k && 0 <= f[i] :: Keys(es[i], key) == KeysNumbered(IdsOf(clusters[f[i]]), keys))
  }

  /** The signatures are the large ID sets, each with its cluster. */
  ghost predicate Signed(clusters: seq<AliasCluster>, signatures: map<seq<nat>, nat>) {
    && (forall ids | ids in signatures ::
      signatures[ids] < |clusters| && clusters[signatures[ids]].ids == ids && |ids| >= SHARED_ID_THRESHOLD)
    && (forall c: nat | c < |clusters| && |clusters[c].ids| >= SHARED_ID_THRESHOLD ::
      clusters[c].ids in signatures && signatures[clusters[c].ids] == c)
  }

  /** No two clusters have the same large ID set. */
  ghost predicate Merged(clusters: seq<AliasCluster>) {
    forall c: nat, d: nat | c < d < |clusters| && clusters[c].ids == clusters[d].ids :: |clusters[c].ids| < SHARED_ID_THRESHOLD
  }

  lemma {:induction false} SignedStart(clusters: seq<AliasCluster>, signatures: map<seq<nat>, nat>, ids: seq<nat>, name: string)
    requires Signed(clusters, signatures)
    ensures |ids| < SHARED_ID_THRESHOLD ==> Signed(clusters + [AliasCluster(ids, [name])], signatures)
    ensures |ids| >= SHARED_ID_THRESHOLD && ids !in signatures ==>
      Signed(clusters + [AliasCluster(ids, [name])], signatures[ids := |clusters|])
  {}

  lemma {:induction false} SignedJoin(clusters: seq<AliasCluster>, signatures: map<seq<nat>, nat>, x: nat, name: string)
    requires Signed(clusters, signatures) && x < |clusters|
    ensures Signed(Renamed(clusters, x, name), signatures)
  {}

  lemma {:induction false} SignedMerges(clusters: seq<AliasCluster>, signatures: map<seq<nat>, nat>)
    requires Signed(clusters, signatures)
    ensures Merged(clusters)
  {}

  lemma {:induction false} SignedCluster(clusters: seq<AliasCluster>, signatures: map<seq<nat>, nat>, ids: seq<nat>)
    requires Signed(clusters, signatures) && ids in signatures
    ensures signatures[ids] < |clusters| && clusters[signatures[ids]].ids == ids && |ids| >= SHARED_ID_THRESHOLD
  {}

  lemma {:induction false} MoreKeys(es: seq<AliasEntry>, key: CanonicalKey, k: nat, clusters: seq<AliasCluster>,
    keys: seq<string>, keys': seq<string>, f: seq<int>)
    requires Contents(es, key, k, clusters, keys, f) && keys <= keys'
    ensures Contents(es, key, k, clusters, keys', f)
  {
    forall c | 0 <= c < |clusters|
      ensures KeysNumbered(IdsOf(clusters[c]), keys') == KeysNumbered(IdsOf(clusters[c]), keys)
    {
      var id := clusters[c].ids[0];
      assert id in clusters[c].ids;
      NumberedOneMore(clusters[c].ids, id, keys, keys');
    }
  }

  lemma {:induction false} NamesSkip(es: seq<AliasEntry>, k: nat, clusters: seq<AliasCluster>, f: seq<int>, first: seq<nat>)
    requires Sorted(es, k, clusters, f, first) && k < |es|
    ensures Sorted(es, k + 1, clusters, f + [-1], first)
  {
    hide ClassNames, NamesOf;
    var f' := f + [-1];
    forall c | 0 <= c < |clusters| ensures clusters[c].names == ClassNames(NamesOf(es), f', c, k + 1) {
      ClassNamesExtend(NamesOf(es), f, -1, c, k);
      ClassNamesUnfold(NamesOf(es), f', c, k + 1);
    }
    assert forall i | 0 <= i < k :: f'[i] == f[i];
  }

  lemma {:induction false} EntrySkipped(es: seq<AliasEntry>, key: CanonicalKey, k: nat, clusters: seq<AliasCluster>,
    keys: seq<string>, f: seq<int>, first: seq<nat>)
    requires Sorted(es, k, clusters, f, first) && Contents(es, key, k, clusters, keys, f)
    requires k < |es| && Keys(es[k], key) == {}
    ensures Sorted(es, k + 1, clusters, f + [-1], first) && Contents(es, key, k + 1, clusters, keys, f + [-1])
  {
    hide Keys, KeysNumbered, Increasing, Sorted;
    NamesSkip(es, k, clusters, f, first);
  }

  lemma {:induction false} ClusterStarts(es: seq<AliasEntry>, key: CanonicalKey, k: nat, clusters: seq<AliasCluster>,
    keys: seq<string>, f: seq<int>, ids: seq<nat>)
    requires Contents(es, key, k, clusters, keys, f) && k < |es|
    requires ids != [] && Increasing(ids) && forall id | id in ids :: id < |keys|
    requires Keys(es[k], key) == KeysNumbered(Elements(ids), keys)
    ensures Contents(es, key, k + 1, clusters + [AliasCluster(ids, [es[k].name])], keys, f + [|clusters|])
  {
    hide Keys, KeysNumbered, Increasing;
    var clusters', f' := clusters + [AliasCluster(ids, [es[k].name])], f + [|clusters|];
    assert forall c | 0 <= c < |clusters| :: clusters'[c] == clusters[c];
    assert forall i | 0 <= i < k :: f'[i] == f[i];
  }

  lemma {:induction false} NamesStart(es: seq<AliasEntry>, k: nat, clusters: seq<AliasCluster>,
    f: seq<int>, first: seq<nat>, ids: seq<nat>)
    requires Sorted(es, k, clusters, f, first) && k < |es|
    ensures Sorted(es, k + 1, clusters + [AliasCluster(ids, [es[k].name])], f + [|clusters|], first + [k])
  {
    hide ClassNames, NamesOf;
    var clusters', f' := clusters + [AliasCluster(ids, [es[k].name])], f + [|clusters|];
    forall c | 0 <= c < |clusters'| ensures clusters'[c].names == ClassNames(NamesOf(es), f', c, k + 1) {
      ClassNamesExtend(NamesOf(es), f, |clusters|, c, k);
      ClassNamesUnfold(NamesOf(es), f', c, k + 1);
      if c == |clusters| { NoClassNames(NamesOf(es), f, |clusters|, k); }
    }
    assert forall i | 0 <= i < k :: f'[i] == f[i];
  }

  lemma {:induction false} ClassNamesUnfold(names: seq<string>, f: seq<int>, c: int, k: nat)
    requires 0 < k <= |names| && k <= |f|
    ensures f[k - 1] == c ==> ClassNames(names, f, c, k) == ClassNames(names, f, c, k - 1) + [names[k - 1]]
    ensures f[k - 1] != c ==> ClassNames(names, f, c, k) == ClassNames(names, f, c, k - 1)
  {}

  lemma {:induction false} EntryStarts(es: seq<AliasEntry>, key: CanonicalKey, k: nat, clusters: seq<AliasCluster>,
    keys: seq<string>, f: seq<int>, first: seq<nat>, ids: seq<nat>)
    requires Sorted(es, k, clusters, f, first) && Contents(es, key, k, clusters, keys, f) && k < |es|
    requires ids != [] && Increasing(ids) && forall id | id in ids :: id < |keys|
    requires Keys(es[k], key) == KeysNumbered(Elements(ids), keys)
    ensures Sorted(es, k + 1, clusters + [AliasCluster(ids, [es[k].name])], f + [|clusters|], first + [k])
    ensures Contents(es, key, k + 1, clusters + [AliasCluster(ids, [es[k].name])], keys, f + [|clusters|])
  {
    ClusterStarts(es, key, k, clusters, keys, f, ids);
    NamesStart(es, k, clusters, f, first, ids);
  }

  lemma {:induction false} NamesJoin(es: seq<AliasEntry>, k: nat, clusters: seq<AliasCluster>, f: seq<int>, first: seq<nat>, x: nat)
    requires Sorted(es, k, clusters, f, first) && k < |es| && x < |clusters|
    requires |clusters[x].ids| >= SHARED_ID_THRESHOLD
    ensures Sorted(es, k + 1, Renamed(clusters, x, es[k].name), f + [x], first)
  {
    hide ClassNames, NamesOf;
    var clusters', f' := Renamed(clusters, x, es[k].name), f + [x];
    forall c | 0 <= c < |clusters| ensures clusters'[c].names == ClassNames(NamesOf(es), f', c, k + 1) {
      ClassNamesExtend(NamesOf(es), f, x, c, k);
      ClassNamesUnfold(NamesOf(es), f', c, k + 1);
    }
    assert forall i | 0 <= i < k :: f'[i] == f[i];
  }

  lemma {:induction false} EntryJoins(es: seq<AliasEntry>, key: CanonicalKey, k: nat, clusters: seq<AliasCluster>,
    keys: seq<string>, f: seq<int>, first: seq<nat>, x: nat)
    requires Sorted(es, k, clusters, f, first) && Contents(es, key, k, clusters, keys, f)
    requires k < |es| && x < |clusters| && |clusters[x].ids| >= SHARED_ID_THRESHOLD
    requires Keys(es[k], key) == KeysNumbered(IdsOf(clusters[x]), keys)
    ensures Sorted(es, k + 1, Renamed(clusters, x, es[k].name), f + [x], first)
    ensures Contents(es, key, k + 1, Renamed(clusters, x, es[k].name), keys, f + [x])
  {
    hide Keys, KeysNumbered, Increasing, Sorted;
    NamesJoin(es, k, clusters, f, first, x);
    var clusters' := Renamed(clusters, x, es[k].name);
    assert forall c | 0 <= c < |clusters| :: clusters'[c].ids == clusters[c].ids;
  }

  function Renamed(clusters: seq<AliasCluster>, x: nat, name: string): seq<AliasCluster>
    requires x < |clusters|
  {
    clusters[x := AliasCluster(clusters[x].ids, clusters[x].names + [name])]
  }

  method BuildClusters(es: seq<AliasEntry>, key: CanonicalKey)
    returns (clusters: seq<AliasCluster>, keys: seq<string>, ghost f: seq<int>, ghost first: seq<nat>)
    ensures Sorted(es, |es|, clusters, f, first) && Contents(es, key, |es|, clusters, keys, f)
    ensures OneToOne(keys) && keys == KeysMet(es, key, |es|) && Merged(clusters)
  {
    hide Sorted, Contents, Interned, Keys, KeysNumbered, Signed, WithKeys;
    var rawIds: map<string, Option<nat>> := map[];
    var internedKeys: map<string, nat> := map[];
    var signatures: map<seq<nat>, nat> := map[];
    clusters, keys, f, first := [], [], [], [];
    NothingSorted(es, key);
    for k := 0 to |es|
      invariant Interned(key, rawIds, internedKeys, keys)
      invariant Sorted(es, k, clusters, f, first) && Contents(es, key, k, clusters, keys, f)
      invariant Signed(clusters, signatures) && keys == KeysMet(es, key, k)
    {
      var ids;
      ghost var before := keys;
      ids, rawIds, internedKeys, keys := InternIds(es[k], key, rawIds, internedKeys, keys);
      MoreKeys(es, key, k, clusters, before, keys, f);
      NumberedNothing(keys);
      if ids == [] {
        EntrySkipped(es, key, k, clusters, keys, f, first);
        f := f + [-1];
      } else if |ids| < SHARED_ID_THRESHOLD {
        EntryStarts(es, key, k, clusters, keys, f, first, ids);
        SignedStart(clusters, signatures, ids, es[k].name);
        clusters, f, first := clusters + [AliasCluster(ids, [es[k].name])], f + [|clusters|], first + [k];
      } else if ids in signatures {
        var x := signatures[ids];
        SignedCluster(clusters, signatures, ids);
        SignedJoin(clusters, signatures, x, es[k].name);
        EntryJoins(es, key, k, clusters, keys, f, first, x);
        clusters := Renamed(clusters, x, es[k].name);
        f := f + [x];
      } else {
        EntryStarts(es, key, k, clusters, keys, f, first, ids);
        SignedStart(clusters, signatures, ids, es[k].name);
        signatures := signatures[ids := |clusters|];
        clusters, f, first := clusters + [AliasCluster(ids, [es[k].name])], f + [|clusters|], first + [k];
      }
    }
    KeysDistinct(key, rawIds, internedKeys, keys);
    SignedMerges(clusters, signatures);
  }

  lemma {:induction false} NothingSorted(es: seq<AliasEntry>, key: CanonicalKey)
    ensures Sorted(es, 0, [], [], []) && Contents(es, key, 0, [], [], [])
    ensures Interned(key, map[], map[], []) && Signed([], map[])
  {}

  lemma {:induction false} NumberedNothing(keys: seq<string>)
    ensures KeysNumbered(Elements<nat>([]), keys) == {}
  {}

  lemma {:induction false} KeysDistinct(key: CanonicalKey, rawIds: map<string, Option<nat>>, internedKeys: map<string, nat>, keys: seq<string>)
    requires Interned(key, rawIds, internedKeys, keys)
    ensures OneToOne(keys)
  {}

  ghost predicate OneToOne(keys: seq<string>) {
    forall i, j | 0 <= i < j < |keys| :: keys[i] != keys[j]
  }

  lemma {:induction false} NumberingKeepsSize(a: set<nat>, keys: seq<string>)
    requires OneToOne(keys) && forall i | i in a :: i < |keys|
    ensures |KeysNumbered(a, keys)| == |a|
  {
    if a == {} {
      assert KeysNumbered(a, keys) == {};
    } else {
      var i :| i in a;
      NumberingKeepsSize(a - {i}, keys);
      assert keys[i] !in KeysNumbered(a - {i}, keys);
      assert KeysNumbered(a, keys) == KeysNumbered(a - {i}, keys) + {keys[i]};
    }
  }

  /** Numbering keys one to one keeps the size of intersections. */
  lemma {:induction false} NumberingKeepsCounts(a: set<nat>, b: set<nat>, keys: seq<string>)
    requires OneToOne(keys) && forall i | i in a || i in b :: i < |keys|
    ensures |KeysNumbered(a, keys) * KeysNumbered(b, keys)| == |a * b|
  {
    NumberingKeepsSize(a * b, keys);
    assert KeysNumbered(a, keys) * KeysNumbered(b, keys) == KeysNumbered(a * b, keys);
  }

  lemma {:induction false} ClustersCompress(es: seq<AliasEntry>, key: CanonicalKey, clusters: seq<AliasCluster>,
    keys: seq<string>, f: seq<int>, first: seq<nat>, p: nat, q: nat)
    requires Contents(es, key, |es|, clusters, keys, f) && OneToOne(keys)
    requires p < |es| && q < |es|
    ensures f[p] < 0 || f[q] < 0 ==> Keys(es[p], key) * Keys(es[q], key) == {}
    ensures 0 <= f[p] && 0 <= f[q] ==>
      |Keys(es[p], key) * Keys(es[q], key)| == |IdsOf(clusters[f[p]]) * IdsOf(clusters[f[q]])|
  {
    if 0 <= f[p] && 0 <= f[q] {
      NumberingKeepsCounts(IdsOf(clusters[f[p]]), IdsOf(clusters[f[q]]), keys);
    }
  }

  lemma {:induction false} SizeOfIncreasing(ids: seq<nat>)
    requires Increasing(ids)
    ensures |Elements(ids)| == |ids|
  {
    if ids != [] {
      var last := |ids| - 1;
      SizeOfIncreasing(ids[..last]);
      assert ids == ids[..last] + [ids[last]];
      assert Elements(ids) == Elements(ids[..last]) + {ids[last]};
    }
  }

  /** Compressed clusters stand for the entries they were made from. */
  lemma {:induction false} ClustersRepresent(es: seq<AliasEntry>, key: CanonicalKey, clusters: seq<AliasCluster>,
    keys: seq<string>, f: seq<int>, first: seq<nat>)
    requires Sorted(es, |es|, clusters, f, first) && Contents(es, key, |es|, clusters, keys, f) && OneToOne(keys)
    ensures Represents(es, key, clusters, IdAdjacency(clusters), f, first)
  {
    hide Keys, KeysNumbered;
    var adj, classes := KeyAdjacency(es, key), IdAdjacency(clusters);
    forall i: nat, j: nat | j < i < |es|
      ensures f[i] < 0 || f[j] < 0 ==> !adj(j, i)
      ensures 0 <= f[i] && 0 <= f[j] && f[i] != f[j] ==> adj(j, i) == classes(f[j], f[i]) == classes(f[i], f[j])
      ensures 0 <= f[i] && f[i] == f[j] ==> adj(j, i)
    {
      ClustersCompress(es, key, clusters, keys, f, first, j, i);
      if 0 <= f[i] && 0 <= f[j] {
        var a, b := IdsOf(clusters[f[i]]), IdsOf(clusters[f[j]]);
        assert a * b == b * a;
        if f[i] == f[j] {
          SizeOfIncreasing(clusters[f[i]].ids);
          assert a * b == a;
        }
      }
    }
    assert NameLists(clusters) == ClassLists(NamesOf(es), f, |clusters|, |es|);
  }

  // ---- Posting lists ----

  ghost function Holders(clusters: seq<AliasCluster>, id: nat): set<nat> {
    set c: nat | c < |clusters| && id in clusters[c].ids
  }

  /** postings[id] lists in order the clusters that hold id. */
  ghost predicate PostingsOf(clusters: seq<AliasCluster>, n: nat, postings: seq<seq<nat>>) {
    && |postings| == n
    && (forall id: nat | id < n :: Increasing(postings[id]) && Elements(postings[id]) == Holders(clusters, id))
  }

  lemma {:induction false} AppendIncreasing(s: seq<nat>, x: nat)
    requires Increasing(s) && forall y: nat | y in Elements(s) :: y < x
    ensures Increasing(s + [x]) && Elements(s + [x]) == Elements(s) + {x}
  {
    var r := s + [x];
    forall i, j | 0 <= i < j < |r| ensures r[i] < r[j] {
      assert r[i] == s[i] && s[i] in Elements(s);
      assert j < |s| ==> r[j] == s[j];
    }
  }

  lemma {:induction false} OneMoreHolder(clusters: seq<AliasCluster>, i: nat, id: nat)
    requires i < |clusters|
    ensures Holders(clusters[..i + 1], id) ==
      Holders(clusters[..i], id) + if id in clusters[i].ids then {i} else {}
  {}

  method BuildPostings(clusters: seq<AliasCluster>, n: nat) returns (postings: seq<seq<nat>>)
    requires forall c, id | 0 <= c < |clusters| && id in clusters[c].ids :: id < n
    requires forall c | 0 <= c < |clusters| :: Increasing(clusters[c].ids)
    ensures PostingsOf(clusters, n, postings)
  {
    postings := seq(n, _ => []);
    for i := 0 to |clusters|
      invariant PostingsOf(clusters[..i], n, postings)
    {
      var ids := clusters[i].ids;
      ghost var before := postings;
      for t := 0 to |ids|
        invariant |postings| == n
        invariant forall id: nat | id < n :: Increasing(postings[id])
        invariant forall id: nat | id < n ::
          Elements(postings[id]) == Elements(before[id]) + if id in ids[..t] then {i} else {}
      {
        assert ids[..t + 1] == ids[..t] + [ids[t]];
        assert ids[t] in ids && ids[t] !in ids[..t];
        assert Elements(postings[ids[t]]) == Elements(before[ids[t]]) == Holders(clusters[..i], ids[t]);
        AppendIncreasing(postings[ids[t]], i);
        postings := postings[ids[t] := postings[ids[t]] + [i]];
      }
      assert ids[..|ids|] == ids;
      forall id: nat | id < n ensures Elements(postings[id]) == Holders(clusters[..i + 1], id) {
        OneMoreHolder(clusters, i, id);
      }
    }
    assert clusters[..|clusters|] == clusters;
  }

  // ---- Streaming one seed's counters ----

  /** How many of the first k IDs are in s. */
  function CountIn(ids: seq<nat>, k: nat, s: set<nat>): nat
    requires k <= |ids|
  {
    if k == 0 then 0 else CountIn(ids, k - 1, s) + if ids[k - 1] in s then 1 else 0
  }

  lemma {:induction false} NewElement(ids: seq<nat>, k: nat)
    requires Increasing(ids) && k <= |ids|
    ensures if k == 0 then Elements(ids[..k]) == {} else ids[k - 1] !in Elements(ids[..k - 1])
  {}

  lemma {:induction false} CountInIsIntersection(ids: seq<nat>, k: nat, s: set<nat>)
    requires Increasing(ids) && k <= |ids|
    ensures CountIn(ids, k, s) == |Elements(ids[..k]) * s|
  {
    hide Elements, Increasing;
    NewElement(ids, k);
    if k > 0 {
      CountInIsIntersection(ids, k - 1, s);
      ElementsOneMore(ids, k - 1);
      AddToCommon(Elements(ids[..k - 1]), s, ids[k - 1]);
    }
  }

  /** Whether the seed's counter counts this cluster at all. */
  predicate Countable(groupOf: seq<nat>, n: nat, seed: nat, c: nat)
    requires c < |groupOf|
  {
    seed < c && groupOf[c] == n
  }

  /** counts holds, for each countable cluster, how many of the seed's first k IDs it shares,
      plus one when it is already met in the posting list of the next ID. */
  ghost predicate Counted(clusters: seq<AliasCluster>, groupOf: seq<nat>, seed: nat, counts: seq<nat>,
    k: nat, met: set<nat>)
  {
    && |counts| == |groupOf| == |clusters| && seed < |clusters| && k <= |clusters[seed].ids|
    && (forall c: nat | c < |clusters| && !Countable(groupOf, |clusters|, seed, c) :: counts[c] == 0)
    && (forall c: nat | c < |clusters| && Countable(groupOf, |clusters|, seed, c) ::
      counts[c] == CountIn(clusters[seed].ids, k, IdsOf(clusters[c])) + if c in met then 1 else 0)
  }

  lemma {:induction false} NextIdCounted(clusters: seq<AliasCluster>, groupOf: seq<nat>, seed: nat, counts: seq<nat>, k: nat)
    requires seed < |clusters| && k < |clusters[seed].ids|
    requires Counted(clusters, groupOf, seed, counts, k, Holders(clusters, clusters[seed].ids[k]))
    ensures Counted(clusters, groupOf, seed, counts, k + 1, {})
  {}

  /** The clusters with a positive counter. */
  ghost function Positive(counts: seq<nat>): set<nat> {
    set c: nat | c < |counts| && counts[c] > 0
  }

  method CountCandidates(clusters: seq<AliasCluster>, postings: seq<seq<nat>>, seed: nat,
    groupOf: array<nat>, counts: array<nat>) returns (candidates: seq<nat>)
    requires groupOf != counts && groupOf.Length == counts.Length == |clusters| && seed < |clusters|
    requires PostingsOf(clusters, |postings|, postings)
    requires forall id | id in clusters[seed].ids :: id < |postings|
    requires forall c: nat | c < |clusters| :: counts[c] == 0
    modifies counts
    ensures Counted(clusters, groupOf[..], seed, counts[..], |clusters[seed].ids|, {})
    ensures Elements(candidates) == Positive(counts[..])
  {
    hide CountIn;
    candidates := [];
    var ids := clusters[seed].ids;
    NothingCounted(clusters, groupOf[..], seed, counts[..]);
    for k := 0 to |ids|
      invariant Counted(clusters, groupOf[..], seed, counts[..], k, {})
      invariant Elements(candidates) == Positive(counts[..])
    {
      assert ids[k] in ids;
      var posting := postings[ids[k]];
      for t := 0 to |posting|
        invariant Counted(clusters, groupOf[..], seed, counts[..], k, Elements(posting[..t]))
        invariant Elements(candidates) == Positive(counts[..])
      {
        var candidate := posting[t];
        assert candidate in Elements(posting) && candidate !in posting[..t];
        assert Elements(posting[..t + 1]) == Elements(posting[..t]) + {candidate} by {
          assert posting[..t + 1] == posting[..t] + [candidate];
        }
        if candidate <= seed || groupOf[candidate] != |clusters| { continue; }
        ghost var before := counts[..];
        if counts[candidate] == 0 {
          candidates := candidates + [candidate];
        }
        counts[candidate] := counts[candidate] + 1;
        assert counts[..] == before[candidate := before[candidate] + 1];
        assert Positive(counts[..]) == Positive(before) + {candidate};
      }
      assert posting[..|posting|] == posting;
      NextIdCounted(clusters, groupOf[..], seed, counts[..], k);
    }
  }

  lemma {:induction false} NothingCounted(clusters: seq<AliasCluster>, groupOf: seq<nat>, seed: nat, counts: seq<nat>)
    requires |counts| == |groupOf| == |clusters| && seed < |clusters|
    requires forall c: nat | c < |clusters| :: counts[c] == 0
    ensures Counted(clusters, groupOf, seed, counts, 0, {}) && Positive(counts) == {}
  {}

  /** A full counter is the number of shared IDs. */
  lemma {:induction false} CounterIsOverlap(clusters: seq<AliasCluster>, groupOf: seq<nat>, seed: nat, counts: seq<nat>, c: nat)
    requires seed < |clusters| && Increasing(clusters[seed].ids)
    requires Counted(clusters, groupOf, seed, counts, |clusters[seed].ids|, {})
    requires c < |clusters| && Countable(groupOf, |clusters|, seed, c)
    ensures counts[c] == |IdsOf(clusters[seed]) * IdsOf(clusters[c])|
  {
    CountInIsIntersection(clusters[seed].ids, |clusters[seed].ids|, IdsOf(clusters[c]));
    assert clusters[seed].ids[..|clusters[seed].ids|] == clusters[seed].ids;
  }

  ghost predicate WellIndexed(clusters: seq<AliasCluster>, postings: seq<seq<nat>>) {
    && PostingsOf(clusters, |postings|, postings)
    && (forall c | 0 <= c < |clusters| :: Increasing(clusters[c].ids))
    && (forall c, id | 0 <= c < |clusters| && id in clusters[c].ids :: id < |postings|)
  }

  lemma {:induction false} IndexedIdsFit(clusters: seq<AliasCluster>, postings: seq<seq<nat>>, seed: nat)
    requires WellIndexed(clusters, postings) && seed < |clusters|
    ensures forall id | id in clusters[seed].ids :: id < |postings|
  {
  }

  ghost function Shared(postings: seq<seq<nat>>): set<nat> {
    set id: nat | id < |postings| && |postings[id]| > 1
  }

  /** A seed with fewer than five IDs in shared postings is adjacent to no later cluster. */
  lemma {:induction false} RareSeed(clusters: seq<AliasCluster>, postings: seq<seq<nat>>, seed: nat, i: nat)
    requires WellIndexed(clusters, postings) && seed < i < |clusters|
    requires CountIn(clusters[seed].ids, |clusters[seed].ids|, Shared(postings)) < SHARED_ID_THRESHOLD
    ensures !IdAdjacency(clusters)(seed, i)
  {
    var ids := clusters[seed].ids;
    CountInIsIntersection(ids, |ids|, Shared(postings));
    assert ids[..|ids|] == ids;
    var common := IdsOf(clusters[seed]) * IdsOf(clusters[i]);
    forall id | id in common ensures id in Shared(postings) {
      assert {seed, i} <= Holders(clusters, id);
      assert seed in Elements(postings[id]) && i in Elements(postings[id]);
    }
    SubsetSize(common, Elements(ids) * Shared(postings));
  }

  method CountShared(ids: seq<nat>, postings: seq<seq<nat>>) returns (possible: nat)
    requires forall id | id in ids :: id < |postings|
    ensures possible == CountIn(ids, |ids|, Shared(postings))
  {
    possible := 0;
    for k := 0 to |ids|
      invariant possible == CountIn(ids, k, Shared(postings))
    {
      assert ids[k] in ids;
      if |postings[ids[k]]| > 1 { possible := possible + 1; }
    }
  }

  /** Every member after the first is strong with the candidate. */
  method AllStrong(clusters: seq<AliasCluster>, members: seq<nat>, candidate: nat) returns (all: bool)
    requires candidate < |clusters| && members != [] && forall m | m in members :: m < |clusters|
    requires forall c | 0 <= c < |clusters| :: Increasing(clusters[c].ids)
    ensures all <==> forall m | m in members[1..] :: IdAdjacency(clusters)(m, candidate)
  {
    for k := 1 to |members|
      invariant forall m | m in members[1..k] :: IdAdjacency(clusters)(m, candidate)
    {
      assert members[k] in members && members[k] == members[1..][k - 1] && members[k] in members[1..];
      var strong := HasStrongOverlap(clusters[members[k]], clusters[candidate]);
      if !strong { return false; }
      assert members[1..k + 1] == members[1..k] + [members[k]];
    }
    assert members[1..|members|] == members[1..];
    return true;
  }

  /** A counter below five rules the seed out; every member of the seed's group has one. */
  lemma {:induction false} CountersDecide(clusters: seq<AliasCluster>, groupOf: seq<nat>, seed: nat, counts: seq<nat>, c: nat)
    requires seed < c < |clusters| && Increasing(clusters[seed].ids)
    requires Counted(clusters, groupOf, seed, counts, |clusters[seed].ids|, {})
    requires Assigned(groupOf, Cover(IdAdjacency(clusters), |clusters|), |clusters|, seed, {seed})
    requires Cover(IdAdjacency(clusters), |clusters|)[seed] == seed
    ensures seed <= Cover(IdAdjacency(clusters), |clusters|)[c] ==>
      (counts[c] >= SHARED_ID_THRESHOLD <==> IdAdjacency(clusters)(seed, c))
    ensures counts[c] > 0 ==> seed <= Cover(IdAdjacency(clusters), |clusters|)[c]
    ensures Cover(IdAdjacency(clusters), |clusters|)[c] == seed ==> counts[c] >= SHARED_ID_THRESHOLD
  {
    var adj, n := IdAdjacency(clusters), |clusters|;
    var g := Cover(adj, n);
    CoverIsFirstFit(adj, n);
    assert FitsFirst(adj, g, c);
    if seed <= g[c] {
      CounterIsOverlap(clusters, groupOf, seed, counts, c);
    }
  }

  method CompleteIndexedGroups(clusters: seq<AliasCluster>, postings: seq<seq<nat>>) returns (result: seq<nat>)
    requires WellIndexed(clusters, postings)
    ensures result == Cover(IdAdjacency(clusters), |clusters|)
  {
    hide PostingsOf, Counted, CountIn, Shared, SortBy, Cover, Assigned, IdAdjacency, WellIndexed;
    var n := |clusters|;
    ghost var adj := IdAdjacency(clusters);
    var groupOf := new nat[n](_ => n);
    var counts := new nat[n](_ => 0);
    CoverSize(adj, n);
    NothingAssigned(adj, groupOf[..], n);
    for seed := 0 to n
      invariant Assigned(groupOf[..], Cover(adj, n), n, seed, {})
      invariant forall c: nat | c < n :: counts[c] == 0
    {
      if groupOf[seed] != n {
        SeedTaken(adj, groupOf[..], n, seed);
        continue;
      }
      SeedStarts(adj, groupOf[..], n, seed);
      ghost var start: seq<nat> := groupOf[..];
      groupOf[seed] := seed;
      assert groupOf[..] == start[seed := seed];
      IndexedIdsFit(clusters, postings, seed);
      var possible := CountShared(clusters[seed].ids, postings);
      if possible < SHARED_ID_THRESHOLD {
        forall i: nat | seed < i < n ensures !adj(seed, i) { RareSeed(clusters, postings, seed, i); }
        SeedFinishes(adj, groupOf[..], n, seed, {seed});
        continue;
      }
      CollectMembers(clusters, postings, seed, groupOf, counts);
    }
    result := groupOf[..];
    AllAssigned(adj, groupOf[..], n);
  }

  /** The candidates of a seed: later unassigned clusters in order, none of the seed's group missed. */
  ghost predicate CandidatesOf(clusters: seq<AliasCluster>, seed: nat, candidates: seq<nat>, full: seq<nat>) {
    var adj, n := IdAdjacency(clusters), |clusters|;
    && |full| == n && seed < n && SortedBy(NatLe, candidates)
    && (forall c | c in candidates :: seed < c < n && seed <= Cover(adj, n)[c])
    && (forall c: nat | seed < c < n && seed <= Cover(adj, n)[c] :: full[c] >= SHARED_ID_THRESHOLD <==> adj(seed, c))
    && (forall j: nat | seed < j < n && Cover(adj, n)[j] == seed :: j in candidates && full[j] >= SHARED_ID_THRESHOLD)
    && (forall c: nat | c < n && c !in candidates :: full[c] == 0)
  }

  lemma {:induction false} CountedOnlyLater(clusters: seq<AliasCluster>, groupOf: seq<nat>, seed: nat, counts: seq<nat>)
    requires seed < |clusters|
    requires Counted(clusters, groupOf, seed, counts, |clusters[seed].ids|, {})
    ensures |counts| == |groupOf| == |clusters|
    ensures forall c: nat | c in Positive(counts) :: seed < c < |clusters| && groupOf[c] == |clusters|
  {}

  lemma {:induction false} CountersGiveCandidates(clusters: seq<AliasCluster>, groupOf: seq<nat>, seed: nat, counts: seq<nat>, candidates: seq<nat>)
    requires seed < |clusters| && Increasing(clusters[seed].ids)
    requires Counted(clusters, groupOf, seed, counts, |clusters[seed].ids|, {})
    requires Assigned(groupOf, Cover(IdAdjacency(clusters), |clusters|), |clusters|, seed, {seed})
    requires Cover(IdAdjacency(clusters), |clusters|)[seed] == seed
    requires Elements(candidates) == Positive(counts)
    ensures CandidatesOf(clusters, seed, SortBy(NatLe, candidates), counts)
  {
    hide Counted, Assigned, SortedBy, IdAdjacency, Cover;
    var adj, n := IdAdjacency(clusters), |clusters|;
    var g, ordered := Cover(adj, n), SortBy(NatLe, candidates);
    SortBySorts(NatLe, candidates);
    SortByMembers(NatLe, candidates);
    hide SortBy;
    CountedOnlyLater(clusters, groupOf, seed, counts);
    forall c: nat ensures c in ordered <==> c in Positive(counts) {
      assert c in ordered <==> c in Elements(ordered);
    }
    forall c: nat | seed < c < n
      ensures counts[c] > 0 ==> seed <= g[c]
      ensures seed <= g[c] ==> (counts[c] >= SHARED_ID_THRESHOLD <==> adj(seed, c))
      ensures g[c] == seed ==> counts[c] >= SHARED_ID_THRESHOLD
    {
      CountersDecide(clusters, groupOf, seed, counts, c);
    }
  }

  /** What becomes of the next candidate: it joins when it was counted often enough, was not visited
      before, and is strong with every member after the seed. */
  lemma {:induction false} CandidateJoins(clusters: seq<AliasCluster>, groupOf: seq<nat>, seed: nat,
    candidates: seq<nat>, full: seq<nat>, k: nat, members: seq<nat>)
    requires CandidatesOf(clusters, seed, candidates, full) && k < |candidates| && |groupOf| == |clusters|
    requires Cover(IdAdjacency(clusters), |clusters|)[seed] == seed
    requires SeedPass(groupOf, Cover(IdAdjacency(clusters), |clusters|), |clusters|, seed, candidates, k, members)
    ensures candidates[k] < |clusters| && members != [] && forall m | m in members :: m < |clusters|
    ensures full[candidates[k]] < SHARED_ID_THRESHOLD || candidates[k] in candidates[..k] ==>
      SeedPass(groupOf, Cover(IdAdjacency(clusters), |clusters|), |clusters|, seed, candidates, k + 1, members)
    ensures full[candidates[k]] >= SHARED_ID_THRESHOLD && candidates[k] !in candidates[..k] ==>
      if forall m | m in members[1..] :: IdAdjacency(clusters)(m, candidates[k]) then
        SeedPass(groupOf[candidates[k] := seed], Cover(IdAdjacency(clusters), |clusters|), |clusters|, seed, candidates, k + 1, members + [candidates[k]])
      else SeedPass(groupOf, Cover(IdAdjacency(clusters), |clusters|), |clusters|, seed, candidates, k + 1, members)
  {
    hide IdAdjacency, Cover;
    var adj, n, candidate := IdAdjacency(clusters), |clusters|, candidates[k];
    assert candidate in candidates;
    Visit(adj, groupOf, n, seed, candidates, k, members);
    if full[candidate] >= SHARED_ID_THRESHOLD && candidate !in candidates[..k] {
      assert members == [seed] + members[1..];
      assert forall m | m in members :: m == seed || m in members[1..];
      CandidateDecided(adj, groupOf, n, seed, candidates, k, members);
    }
  }

  /** Visit one candidate: reset its counter, and let it join if it is strong with every member. */
  method VisitCandidate(clusters: seq<AliasCluster>, seed: nat, groupOf: array<nat>, counts: array<nat>,
    candidates: seq<nat>, k: nat, members: seq<nat>, ghost full: seq<nat>) returns (members': seq<nat>)
    requires forall c | 0 <= c < |clusters| :: Increasing(clusters[c].ids)
    requires CandidatesOf(clusters, seed, candidates, full) && k < |candidates|
    requires groupOf != counts && groupOf.Length == counts.Length == |clusters|
    requires Cover(IdAdjacency(clusters), |clusters|)[seed] == seed
    requires SeedPass(groupOf[..], Cover(IdAdjacency(clusters), |clusters|), |clusters|, seed, candidates, k, members)
    requires forall c: nat | c < |clusters| :: counts[c] == if c in candidates[..k] then 0 else full[c]
    modifies groupOf, counts
    ensures SeedPass(groupOf[..], Cover(IdAdjacency(clusters), |clusters|), |clusters|, seed, candidates, k + 1, members')
    ensures forall c: nat | c < |clusters| :: counts[c] == if c in candidates[..k + 1] then 0 else full[c]
  {
    hide SeedPass, Cover, IdAdjacency, Increasing, SortedBy;
    var candidate := candidates[k];
    CandidateJoins(clusters, groupOf[..], seed, candidates, full, k, members);
    var count := counts[candidate];
    counts[candidate] := 0;
    assert candidates[..k + 1] == candidates[..k] + [candidate];
    members' := members;
    if count < SHARED_ID_THRESHOLD { return; }
    var all := AllStrong(clusters, members, candidate);
    if all {
      members' := members + [candidate];
      groupOf[candidate] := seed;
    }
  }

  /** One seed's pass: count, visit the candidates in order, and leave the counters reset. */
  method CollectMembers(clusters: seq<AliasCluster>, postings: seq<seq<nat>>, seed: nat,
    groupOf: array<nat>, counts: array<nat>)
    requires WellIndexed(clusters, postings) && seed < |clusters|
    requires groupOf != counts && groupOf.Length == counts.Length == |clusters|
    requires Cover(IdAdjacency(clusters), |clusters|)[seed] == seed
    requires Assigned(groupOf[..], Cover(IdAdjacency(clusters), |clusters|), |clusters|, seed, {seed})
    requires forall c: nat | c < |clusters| :: counts[c] == 0
    modifies groupOf, counts
    ensures Assigned(groupOf[..], Cover(IdAdjacency(clusters), |clusters|), |clusters|, seed + 1, {})
    ensures forall c: nat | c < |clusters| :: counts[c] == 0
  {
    hide PostingsOf, Counted, CountIn, SortBy;
    var n := |clusters|;
    ghost var adj := IdAdjacency(clusters);
    ghost var g := Cover(adj, n);
    var candidates := CountCandidates(clusters, postings, seed, groupOf, counts);
    ghost var full := counts[..];
    CountersGiveCandidates(clusters, groupOf[..], seed, full, candidates);
    candidates := SortBy(NatLe, candidates);
    var members: seq<nat> := [seed];
    for k := 0 to |candidates|
      invariant SeedPass(groupOf[..], g, n, seed, candidates, k, members)
      invariant forall c: nat | c < n :: counts[c] == if c in candidates[..k] then 0 else full[c]
    {
      members := VisitCandidate(clusters, seed, groupOf, counts, candidates, k, members, full);
    }
    assert candidates[..|candidates|] == candidates;
    forall i: nat | seed < i < n && i !in candidates && seed <= g[i] ensures !adj(seed, i) {
      assert full[i] == 0;
    }
    SeedFinishes(adj, groupOf[..], n, seed, {seed} + Elements(candidates));
  }

  // ---- Counting the displayed pairs under the caps ----

  type PairCounts = map<(nat, nat), nat>

  function CountOf(counts: PairCounts, x: nat, y: nat): nat {
    if (x, y) in counts then counts[(x, y)] else 0
  }

  ghost predicate OrderedPairs(counts: PairCounts) {
    forall pair | pair in counts :: pair.0 < pair.1 && counts[pair] > 0
  }

  lemma {:induction false} CountAfter(counts: PairCounts, a: nat, b: nat)
    requires OrderedPairs(counts) && a < b
    ensures var more := counts[(a, b) := CountOf(counts, a, b) + 1];
      OrderedPairs(more) &&
      forall x: nat, y: nat :: CountOf(more, x, y) == CountOf(counts, x, y) + if x == a && y == b then 1 else 0
  {
  }

  /** One more shared ID for the i-th cluster of the bucket with each later one. */
  method AddRow(bucket: seq<nat>, i: nat, counts: PairCounts) returns (counts': PairCounts)
    requires Increasing(bucket) && OrderedPairs(counts) && i < |bucket|
    ensures OrderedPairs(counts')
    ensures forall x: nat, y: nat ::
      CountOf(counts', x, y) == CountOf(counts, x, y) + if x == bucket[i] && y in bucket[i + 1..] then 1 else 0
  {
    hide OrderedPairs, CountOf;
    counts' := counts;
    for j := i + 1 to |bucket|
      invariant OrderedPairs(counts')
      invariant forall x: nat, y: nat ::
        CountOf(counts', x, y) == CountOf(counts, x, y) + if x == bucket[i] && y in bucket[i + 1..j] then 1 else 0
    {
      assert bucket[i + 1..j + 1] == bucket[i + 1..j] + [bucket[j]];
      assert bucket[j] !in bucket[i + 1..j];
      CountAfter(counts', bucket[i], bucket[j]);
      counts' := counts'[(bucket[i], bucket[j]) := CountOf(counts', bucket[i], bucket[j]) + 1];
    }
    assert bucket[i + 1..|bucket|] == bucket[i + 1..];
  }

  /** One more shared ID for every pair of clusters in the bucket. */
  method AddBucket(bucket: seq<nat>, counts: PairCounts) returns (counts': PairCounts)
    requires Increasing(bucket) && OrderedPairs(counts)
    ensures OrderedPairs(counts')
    ensures forall x: nat, y: nat ::
      CountOf(counts', x, y) == CountOf(counts, x, y) + if x < y && x in bucket && y in bucket then 1 else 0
  {
    hide OrderedPairs, CountOf, Increasing;
    counts' := counts;
    for i := 0 to |bucket|
      invariant OrderedPairs(counts')
      invariant forall x: nat, y: nat ::
        CountOf(counts', x, y) == CountOf(counts, x, y) + if x < y && x in bucket[..i] && y in bucket then 1 else 0
    {
      ghost var before := counts';
      counts' := AddRow(bucket, i, counts');
      LaterInBucket(bucket, i);
      assert bucket[..i + 1] == bucket[..i] + [bucket[i]];
      forall x: nat, y: nat
        ensures CountOf(counts', x, y) == CountOf(counts, x, y) + if x < y && x in bucket[..i + 1] && y in bucket then 1 else 0
      {
        assert CountOf(before, x, y) == CountOf(counts, x, y) + if x < y && x in bucket[..i] && y in bucket then 1 else 0;
        assert x in bucket[..i + 1] <==> x in bucket[..i] || x == bucket[i];
        assert y in bucket[i + 1..] <==> y in bucket && bucket[i] < y;
        assert CountOf(counts', x, y) == CountOf(before, x, y) + if x == bucket[i] && y in bucket[i + 1..] then 1 else 0;
        assert x == bucket[i] ==> x !in bucket[..i];
      }
    }
    assert bucket[..|bucket|] == bucket;
  }

  lemma {:induction false} LaterInBucket(bucket: seq<nat>, i: nat)
    requires Increasing(bucket) && i < |bucket|
    ensures forall y: nat :: y in bucket[i + 1..] <==> y in bucket && bucket[i] < y
    ensures bucket[i] !in bucket[..i]
  {
    forall y: nat | y in bucket && bucket[i] < y ensures y in bucket[i + 1..] {
      var p :| 0 <= p < |bucket| && bucket[p] == y;
      assert bucket[i + 1..][p - i - 1] == y;
    }
  }

  /** Where counting stands: counted and omitted hold the visited IDs of shared postings. */
  ghost predicate PairsCounted(clusters: seq<AliasCluster>, counts: PairCounts, incomplete: seq<bool>,
    counted: set<nat>, omitted: set<nat>)
  {
    && OrderedPairs(counts) && |incomplete| == |clusters|
    && (forall x: nat, y: nat | x < y < |clusters| ::
      CountOf(counts, x, y) == |counted * (IdsOf(clusters[x]) * IdsOf(clusters[y]))|)
    && (forall x: nat, y: nat | |clusters| <= y :: CountOf(counts, x, y) == 0)
    && (forall m: nat | m < |clusters| :: incomplete[m] <==> IdsOf(clusters[m]) * omitted != {})
  }

  lemma {:induction false} BucketCounted(clusters: seq<AliasCluster>, counts: PairCounts, counts': PairCounts, incomplete: seq<bool>,
    counted: set<nat>, omitted: set<nat>, id: nat, bucket: seq<nat>)
    requires PairsCounted(clusters, counts, incomplete, counted, omitted) && id !in counted
    requires Elements(bucket) == Holders(clusters, id) && OrderedPairs(counts')
    requires forall x: nat, y: nat ::
      CountOf(counts', x, y) == CountOf(counts, x, y) + if x < y && x in bucket && y in bucket then 1 else 0
    ensures PairsCounted(clusters, counts', incomplete, counted + {id}, omitted)
  {
    hide Holders, IdsOf;
    forall x: nat, y: nat | x < y < |clusters|
      ensures CountOf(counts', x, y) == |(counted + {id}) * (IdsOf(clusters[x]) * IdsOf(clusters[y]))|
    {
      PairCounted(clusters, counted, id, bucket, x, y);
    }
    forall x: nat, y: nat | |clusters| <= y ensures CountOf(counts', x, y) == 0 {
      assert y in bucket <==> y in Elements(bucket);
      HoldersInBounds(clusters, id, y);
    }
  }

  lemma {:induction false} BucketOmitted(clusters: seq<AliasCluster>, counts: PairCounts, incomplete: seq<bool>,
    incomplete': seq<bool>, counted: set<nat>, omitted: set<nat>, id: nat)
    requires PairsCounted(clusters, counts, incomplete, counted, omitted) && |incomplete'| == |clusters|
    requires forall m: nat | m < |clusters| :: incomplete'[m] <==> IdsOf(clusters[m]) * (omitted + {id}) != {}
    ensures PairsCounted(clusters, counts, incomplete', counted, omitted + {id})
  {
    hide IdsOf, CountOf;
  }

  lemma {:induction false} PairsCountedParts(clusters: seq<AliasCluster>, counts: PairCounts, incomplete: seq<bool>,
    counted: set<nat>, omitted: set<nat>)
    requires PairsCounted(clusters, counts, incomplete, counted, omitted)
    ensures OrderedPairs(counts) && |incomplete| == |clusters|
    ensures forall m: nat | m < |clusters| :: incomplete[m] <==> IdsOf(clusters[m]) * omitted != {}
  {}

  lemma {:induction false} HoldersInBounds(clusters: seq<AliasCluster>, id: nat, c: nat)
    ensures c in Holders(clusters, id) <==> c < |clusters| && id in IdsOf(clusters[c])
  {}

  lemma {:induction false} PairCounted(clusters: seq<AliasCluster>, counted: set<nat>, id: nat, bucket: seq<nat>, x: nat, y: nat)
    requires Elements(bucket) == Holders(clusters, id) && id !in counted && x < y < |clusters|
    ensures |(counted + {id}) * (IdsOf(clusters[x]) * IdsOf(clusters[y]))| ==
      |counted * (IdsOf(clusters[x]) * IdsOf(clusters[y]))| + if x in bucket && y in bucket then 1 else 0
  {
    var common := IdsOf(clusters[x]) * IdsOf(clusters[y]);
    assert x in bucket <==> x in Elements(bucket);
    assert y in bucket <==> y in Elements(bucket);
    HoldersInBounds(clusters, id, x);
    HoldersInBounds(clusters, id, y);
    AddToCommon(counted, common, id);
  }

  method MarkIncomplete(clusters: seq<AliasCluster>, bucket: seq<nat>, incomplete: seq<bool>,
    ghost id: nat, ghost omitted: set<nat>) returns (incomplete': seq<bool>)
    requires |incomplete| == |clusters| && Elements(bucket) == Holders(clusters, id)
    requires forall m: nat | m < |clusters| :: incomplete[m] <==> IdsOf(clusters[m]) * omitted != {}
    ensures |incomplete'| == |clusters|
    ensures forall m: nat | m < |clusters| :: incomplete'[m] <==> IdsOf(clusters[m]) * (omitted + {id}) != {}
  {
    incomplete' := incomplete;
    for t := 0 to |bucket|
      invariant |incomplete'| == |clusters|
      invariant forall m: nat | m < |clusters| :: incomplete'[m] <==> incomplete[m] || m in bucket[..t]
    {
      assert bucket[t] in Elements(bucket);
      assert bucket[..t + 1] == bucket[..t] + [bucket[t]];
      incomplete' := incomplete'[bucket[t] := true];
    }
    assert bucket[..|bucket|] == bucket;
    forall m: nat | m < |clusters|
      ensures incomplete'[m] <==> IdsOf(clusters[m]) * (omitted + {id}) != {}
    {
      assert m in bucket <==> m in Elements(bucket);
      assert m in Holders(clusters, id) <==> id in IdsOf(clusters[m]);
      var ids := IdsOf(clusters[m]);
      assert ids * (omitted + {id}) == ids * omitted + ids * {id};
      assert ids * {id} != {} <==> id in ids by {
        if id in ids { assert id in ids * {id}; }
      }
    }
  }

  /** What the capped counting leaves: overlaps that are exact unless marked, complete but
      for the omitted IDs. */
  ghost predicate CappedOverlaps(clusters: seq<AliasCluster>, n: nat, overlaps: seq<PairOverlap>, omittedKeys: seq<bool>) {
    && |omittedKeys| == n
    && (forall o | o in overlaps :: o.left < o.right < |clusters|)
    && (forall o | o in overlaps :: 0 < o.common <= |IdsOf(clusters[o.left]) * IdsOf(clusters[o.right])|)
    && (forall o | o in overlaps && !o.lowerBound ::
      o.common == |IdsOf(clusters[o.left]) * IdsOf(clusters[o.right])|)
    && (forall id: nat, i: nat, j: nat | id < n && !omittedKeys[id] && i < j < |clusters| &&
        id in IdsOf(clusters[i]) && id in IdsOf(clusters[j]) ::
      exists o :: o in overlaps && o.left == i && o.right == j)
    && ((forall id: nat | id < n :: !omittedKeys[id]) ==> forall o | o in overlaps :: !o.lowerBound)
  }

  method PairsOf(counts: PairCounts, incomplete: seq<bool>) returns (overlaps: seq<PairOverlap>)
    requires OrderedPairs(counts) && forall pair | pair in counts :: pair.1 < |incomplete|
    ensures forall o :: o in overlaps <==>
      (o.left, o.right) in counts && o.common == counts[(o.left, o.right)] &&
      o.lowerBound == (incomplete[o.left] && incomplete[o.right])
    ensures OneEach(overlaps)
  {
    hide OneEach;
    overlaps := [];
    NoPairYet();
    var rest := counts.Keys;
    while rest != {}
      invariant rest <= counts.Keys
      invariant forall o :: o in overlaps <==>
        (o.left, o.right) in counts.Keys - rest && o.common == counts[(o.left, o.right)] &&
        o.lowerBound == (incomplete[o.left] && incomplete[o.right])
      invariant OneEach(overlaps)
      decreases rest
    {
      var pair :| pair in rest;
      rest := rest - {pair};
      var overlap := PairOverlap(pair.0, pair.1, counts[pair], incomplete[pair.0] && incomplete[pair.1]);
      OneMorePair(overlaps, overlap);
      overlaps := overlaps + [overlap];
    }
  }

  ghost function Omitted(omittedKeys: seq<bool>): set<nat> {
    set id: nat | id < |omittedKeys| && omittedKeys[id]
  }

  /** An overlap of two clusters in the IDs that were not omitted, marked if both have omitted ones. */
  ghost predicate CountedOverlap(clusters: seq<AliasCluster>, omitted: set<nat>, o: PairOverlap) {
    && o.left < o.right < |clusters|
    && o.common == |IdsOf(clusters[o.left]) * IdsOf(clusters[o.right]) - omitted| > 0
    && (o.lowerBound <==> IdsOf(clusters[o.left]) * omitted != {} && IdsOf(clusters[o.right]) * omitted != {})
  }

  ghost predicate CountedOverlaps(clusters: seq<AliasCluster>, omitted: set<nat>, overlaps: seq<PairOverlap>) {
    OneEach(overlaps) && forall o :: o in overlaps <==> CountedOverlap(clusters, omitted, o)
  }

  lemma {:induction false} CommonCounted(clusters: seq<AliasCluster>, counted: set<nat>, omitted: set<nat>, x: nat, y: nat)
    requires x < y < |clusters| && counted !! omitted
    requires forall id: nat | id !in counted && id !in omitted :: |Holders(clusters, id)| <= 1
    ensures counted * (IdsOf(clusters[x]) * IdsOf(clusters[y])) == IdsOf(clusters[x]) * IdsOf(clusters[y]) - omitted
  {
    hide Holders, IdsOf;
    forall id: nat | id in IdsOf(clusters[x]) * IdsOf(clusters[y]) ensures id in counted <==> id !in omitted {
      TwoHolders(clusters, id, x, y);
    }
  }

  lemma {:induction false} CountedPairsAreExact(clusters: seq<AliasCluster>, counts: PairCounts, incomplete: seq<bool>,
    counted: set<nat>, omitted: set<nat>, overlaps: seq<PairOverlap>)
    requires PairsCounted(clusters, counts, incomplete, counted, omitted) && counted !! omitted
    requires forall id: nat | id !in counted && id !in omitted :: |Holders(clusters, id)| <= 1
    requires forall pair | pair in counts :: pair.1 < |incomplete|
    requires forall o :: o in overlaps <==>
      (o.left, o.right) in counts && o.common == counts[(o.left, o.right)] &&
      o.lowerBound == (incomplete[o.left] && incomplete[o.right])
    ensures forall o :: o in overlaps <==> CountedOverlap(clusters, omitted, o)
  {
    hide Holders, IdsOf;
    forall o ensures o in overlaps <==> CountedOverlap(clusters, omitted, o) {
      if (o.left, o.right) in counts || o.left < o.right < |clusters| {
        assert (o.left, o.right) in counts <==> CountOf(counts, o.left, o.right) > 0;
        CommonCounted(clusters, counted, omitted, o.left, o.right);
      }
    }
  }

  lemma {:induction false} CommonBounds(common: set<nat>, left: set<nat>, right: set<nat>, omitted: set<nat>)
    requires common == left * right
    ensures |common - omitted| <= |common|
    ensures left * omitted == {} || right * omitted == {} ==> common - omitted == common
  {
    SubsetSize(common - omitted, common);
    if left * omitted == {} || right * omitted == {} {
      forall id | id in common ensures id !in omitted {
        assert id in omitted ==> id in left * omitted && id in right * omitted;
      }
    }
  }

  lemma {:induction false} CountedPair(clusters: seq<AliasCluster>, omitted: set<nat>, id: nat, i: nat, j: nat) returns (o: PairOverlap)
    requires i < j < |clusters| && id in IdsOf(clusters[i]) && id in IdsOf(clusters[j]) && id !in omitted
    ensures CountedOverlap(clusters, omitted, o) && o.left == i && o.right == j
  {
    hide IdsOf;
    var common := IdsOf(clusters[i]) * IdsOf(clusters[j]) - omitted;
    assert id in common;
    o := PairOverlap(i, j, |common|, IdsOf(clusters[i]) * omitted != {} && IdsOf(clusters[j]) * omitted != {});
  }

  /** Counts of the IDs that were not omitted are exact unless marked and bounds where they are marked. */
  lemma {:induction false} CountedAreCapped(clusters: seq<AliasCluster>, overlaps: seq<PairOverlap>, omittedKeys: seq<bool>)
    requires CountedOverlaps(clusters, Omitted(omittedKeys), overlaps)
    ensures CappedOverlaps(clusters, |omittedKeys|, overlaps, omittedKeys)
  {
    hide IdsOf, OneEach;
    var omitted := Omitted(omittedKeys);
    forall o | o in overlaps
      ensures o.left < o.right < |clusters|
      ensures 0 < o.common <= |IdsOf(clusters[o.left]) * IdsOf(clusters[o.right])|
      ensures !o.lowerBound ==> o.common == |IdsOf(clusters[o.left]) * IdsOf(clusters[o.right])|
    {
      CommonBounds(IdsOf(clusters[o.left]) * IdsOf(clusters[o.right]), IdsOf(clusters[o.left]), IdsOf(clusters[o.right]), omitted);
    }
    forall id: nat, i: nat, j: nat | id < |omittedKeys| && !omittedKeys[id] && i < j < |clusters| &&
        id in IdsOf(clusters[i]) && id in IdsOf(clusters[j])
      ensures exists o :: o in overlaps && o.left == i && o.right == j
    {
      var o := CountedPair(clusters, omitted, id, i, j);
      assert o in overlaps;
    }
    if forall id: nat | id < |omittedKeys| :: !omittedKeys[id] { NoneMarked(clusters, overlaps, omittedKeys); }
  }

  lemma {:induction false} NoneMarked(clusters: seq<AliasCluster>, overlaps: seq<PairOverlap>, omittedKeys: seq<bool>)
    requires CountedOverlaps(clusters, Omitted(omittedKeys), overlaps)
    requires forall id: nat | id < |omittedKeys| :: !omittedKeys[id]
    ensures forall o | o in overlaps :: !o.lowerBound
  {
    assert Omitted(omittedKeys) == {};
  }

  lemma {:induction false} TwoHolders(clusters: seq<AliasCluster>, id: nat, i: nat, j: nat)
    requires i < j < |clusters| && id in IdsOf(clusters[i]) && id in IdsOf(clusters[j])
    ensures |Holders(clusters, id)| > 1
  {
    assert {i, j} <= Holders(clusters, id);
    SubsetSize({i, j}, Holders(clusters, id));
  }

  function BucketLe(postings: seq<seq<nat>>, keys: seq<string>): (nat, nat) -> bool
    requires |postings| == |keys|
  {
    (a: nat, b: nat) =>
      if a >= |keys| || b >= |keys| then a <= b
      else if |postings[a]| != |postings[b]| then |postings[a]| < |postings[b]|
      else TextLe(keys[a], keys[b])
  }

  /** The order in which buckets are visited: by size, then by key. */
  function BucketOrder(postings: seq<seq<nat>>, keys: seq<string>): seq<nat>
    requires |postings| == |keys|
  {
    SortBy<nat>(BucketLe(postings, keys), Iota(|keys|))
  }

  /** The number of pairs in a bucket of n sets. */
  function PairUpdates(n: nat): nat { n * (n - 1) / 2 }

  /** Whether a bucket of that size is expanded while so many updates are left. */
  predicate Expands(size: nat, left: nat) { size <= MAX_INDEX_BUCKET_SETS && PairUpdates(size) <= left }

  ghost predicate Visits(order: seq<nat>, n: nat) { |order| == n && forall i: nat | i < n :: order[i] < n }

  /** The updates left once the first k buckets were visited. */
  function LeftAfter(postings: seq<seq<nat>>, order: seq<nat>, k: nat): nat
    requires Visits(order, |postings|) && k <= |order|
  {
    if k == 0 then MAX_INDEX_PAIR_UPDATES else
      var left := LeftAfter(postings, order, k - 1);
      var size := |postings[order[k - 1]]|;
      if size >= 2 && Expands(size, left) then left - PairUpdates(size) else left
  }

  /** Of the first k buckets those of shared IDs that could not be expanded were omitted. */
  ghost predicate OmitsUpTo(postings: seq<seq<nat>>, order: seq<nat>, k: nat, omitted: set<nat>) {
    && Visits(order, |postings|) && k <= |order|
    && (forall i: nat | i < k :: order[i] in omitted <==>
      |postings[order[i]]| >= 2 && !Expands(|postings[order[i]]|, LeftAfter(postings, order, i)))
  }

  lemma {:induction false} OmitsOneMore(postings: seq<seq<nat>>, order: seq<nat>, k: nat, omitted: set<nat>)
    requires OmitsUpTo(postings, order, k, omitted) && k < |order| && order[k] !in omitted && order[k] !in order[..k]
    ensures var size, left := |postings[order[k]]|, LeftAfter(postings, order, k);
      && (size < 2 || Expands(size, left) ==> OmitsUpTo(postings, order, k + 1, omitted))
      && (size >= 2 && !Expands(size, left) ==> OmitsUpTo(postings, order, k + 1, omitted + {order[k]}))
  {
    hide Expands, LeftAfter;
    forall i: nat | i < k ensures order[i] != order[k] { assert order[i] in order[..k]; }
  }

  lemma {:induction false} OneVisitMore(postings: seq<seq<nat>>, order: seq<nat>, k: nat)
    requires Visits(order, |postings|) && k < |order|
    ensures var size, left := |postings[order[k]]|, LeftAfter(postings, order, k);
      LeftAfter(postings, order, k + 1) == if size >= 2 && Expands(size, left) then left - PairUpdates(size) else left
  {
    hide Expands, PairUpdates;
  }

  lemma {:induction false} VisitOne(postings: seq<seq<nat>>, order: seq<nat>, k: nat, omitted: set<nat>)
    requires OmitsUpTo(postings, order, k, omitted) && k < |order| && order[k] !in omitted && order[k] !in order[..k]
    ensures order[k] < |postings|
    ensures var size, left, more := |postings[order[k]]|, LeftAfter(postings, order, k), LeftAfter(postings, order, k + 1);
      && (size < 2 ==> OmitsUpTo(postings, order, k + 1, omitted) && more == left)
      && (size >= 2 && (size > MAX_INDEX_BUCKET_SETS || PairUpdates(size) > left) ==>
        OmitsUpTo(postings, order, k + 1, omitted + {order[k]}) && more == left)
      && (size >= 2 && size <= MAX_INDEX_BUCKET_SETS && PairUpdates(size) <= left ==>
        OmitsUpTo(postings, order, k + 1, omitted) && more == left - PairUpdates(size))
  {
    hide LeftAfter, PairUpdates;
    OmitsOneMore(postings, order, k, omitted);
    OneVisitMore(postings, order, k);
  }

  lemma {:induction false} LeftFalls(postings: seq<seq<nat>>, order: seq<nat>, i: nat, j: nat)
    requires Visits(order, |postings|) && i <= j <= |order|
    ensures LeftAfter(postings, order, j) <= LeftAfter(postings, order, i)
  {
    if i < j {
      LeftFalls(postings, order, i, j - 1);
      OneVisitMore(postings, order, j - 1);
    }
  }

  lemma {:induction false} MoreUpdates(m: nat, n: nat)
    requires m <= n
    ensures PairUpdates(m) <= PairUpdates(n)
  {
    if m < n {
      MoreUpdates(m, n - 1);
      assert n * (n - 1) == (n - 1) * (n - 2) + 2 * (n - 1);
    }
  }

  lemma {:induction false} BucketsBySize(postings: seq<seq<nat>>, keys: seq<string>, i: nat, j: nat)
    requires |postings| == |keys| && i < j < |keys|
    ensures var order := BucketOrder(postings, keys);
      Visits(order, |postings|) && |postings[order[i]]| <= |postings[order[j]]| &&
      (|postings[order[i]]| == |postings[order[j]]| ==> TextLe(keys[order[i]], keys[order[j]]))
  {
    hide SortBy, TextLe;
    var order := BucketOrder(postings, keys);
    VisitsEveryBucket(order, |keys|);
    SameMembers(order, Iota(|keys|));
    TextOrders();
    SortBySorts(BucketLe(postings, keys), Iota(|keys|));
  }

  /** The IDs omitted are those that come last, so no omitted one is in fewer sets than one that was counted. */
  lemma {:induction false} OmittedComeLast(postings: seq<seq<nat>>, keys: seq<string>, omitted: set<nat>, i: nat, j: nat)
    requires |postings| == |keys| && i < j < |keys|
    requires OmitsUpTo(postings, BucketOrder(postings, keys), |keys|, omitted)
    ensures BucketOrder(postings, keys)[i] in omitted ==> BucketOrder(postings, keys)[j] in omitted
  {
    hide BucketOrder, PairUpdates;
    var order := BucketOrder(postings, keys);
    BucketsBySize(postings, keys, i, j);
    LeftFalls(postings, order, i, j);
    MoreUpdates(|postings[order[i]]|, |postings[order[j]]|);
  }

  method CountPairs(clusters: seq<AliasCluster>, postings: seq<seq<nat>>, keys: seq<string>)
    returns (overlaps: seq<PairOverlap>, omittedKeys: seq<bool>, bucketsCapped: bool)
    requires WellIndexed(clusters, postings) && |postings| == |keys|
    ensures |omittedKeys| == |keys| && OmitsUpTo(postings, BucketOrder(postings, keys), |keys|, Omitted(omittedKeys))
    ensures CountedOverlaps(clusters, Omitted(omittedKeys), overlaps)
    ensures bucketsCapped <==> Omitted(omittedKeys) != {}
  {
    hide SortBy, PairsCounted, OrderedPairs, IdsOf, CountOf, PairUpdates, Holders, BucketLe, Increasing, OneEach, LeftAfter,
      OmitsUpTo, CountedOverlap, Expands;
    var bucketOrder := BucketOrder(postings, keys);
    VisitsEveryBucket(bucketOrder, |keys|);
    SameMembers(bucketOrder, Iota(|keys|));
    omittedKeys := seq(|keys|, _ => false);
    var incomplete: seq<bool> := seq(|clusters|, _ => false);
    var counts: PairCounts := map[];
    var remaining := MAX_INDEX_PAIR_UPDATES;
    bucketsCapped := false;
    ghost var counted: set<nat>, omitted: set<nat> := {}, {};
    NoPairsCounted(clusters, incomplete);
    NothingOmitted(postings, bucketOrder);
    for k := 0 to |bucketOrder|
      invariant PairsCounted(clusters, counts, incomplete, counted, omitted)
      invariant |omittedKeys| == |keys| && Omitted(omittedKeys) == omitted
      invariant counted + omitted <= Elements(bucketOrder[..k]) && counted !! omitted
      invariant forall id: nat | id in Elements(bucketOrder[..k]) && |postings[id]| > 1 :: id in counted || id in omitted
      invariant OmitsUpTo(postings, bucketOrder, k, omitted) && remaining == LeftAfter(postings, bucketOrder, k)
      invariant bucketsCapped <==> omitted != {}
    {
      var id := bucketOrder[k];
      var bucket := postings[id];
      assert bucketOrder[..k + 1] == bucketOrder[..k] + [id];
      assert id !in bucketOrder[..k];
      VisitOne(postings, bucketOrder, k, omitted);
      if |bucket| < 2 { continue; }
      var popular := |bucket| > MAX_INDEX_BUCKET_SETS;
      var updates := if popular then 0 else PairUpdates(|bucket|);
      PairsCountedParts(clusters, counts, incomplete, counted, omitted);
      if popular || updates > remaining {
        omittedKeys := omittedKeys[id := true];
        bucketsCapped := true;
        ghost var unmarked := incomplete;
        incomplete := MarkIncomplete(clusters, bucket, incomplete, id, omitted);
        BucketOmitted(clusters, counts, unmarked, incomplete, counted, omitted, id);
        omitted := omitted + {id};
        continue;
      }
      remaining := remaining - updates;
      ghost var before := counts;
      counts := AddBucket(bucket, counts);
      BucketCounted(clusters, before, counts, incomplete, counted, omitted, id, bucket);
      counted := counted + {id};
    }
    assert bucketOrder[..|bucketOrder|] == bucketOrder;
    PairsCountedParts(clusters, counts, incomplete, counted, omitted);
    PairsInBounds(clusters, counts, incomplete, counted, omitted);
    overlaps := PairsOf(counts, incomplete);
    forall id: nat | id !in counted && id !in omitted ensures |Holders(clusters, id)| <= 1 {
      if id < |keys| {
        assert id in Elements(bucketOrder);
        SizeOfIncreasing(postings[id]);
      } else {
        NotHeld(clusters, postings, id);
      }
    }
    CountedPairsAreExact(clusters, counts, incomplete, counted, omitted, overlaps);
  }

  lemma {:induction false} NothingOmitted(postings: seq<seq<nat>>, order: seq<nat>)
    requires Visits(order, |postings|)
    ensures OmitsUpTo(postings, order, 0, {}) && LeftAfter(postings, order, 0) == MAX_INDEX_PAIR_UPDATES
  {}

  lemma {:induction false} NotHeld(clusters: seq<AliasCluster>, postings: seq<seq<nat>>, id: nat)
    requires WellIndexed(clusters, postings) && |postings| <= id
    ensures |Holders(clusters, id)| == 0
  {
    assert Holders(clusters, id) == {};
  }

  lemma {:induction false} NoPairsCounted(clusters: seq<AliasCluster>, incomplete: seq<bool>)
    requires incomplete == seq(|clusters|, _ => false)
    ensures PairsCounted(clusters, map[], incomplete, {}, {})
  {
    forall x: nat, y: nat | x < y < |clusters|
      ensures {} * (IdsOf(clusters[x]) * IdsOf(clusters[y])) == {} {}
    forall m: nat | m < |clusters| ensures IdsOf(clusters[m]) * {} == {} {}
  }

  lemma {:induction false} PairsInBounds(clusters: seq<AliasCluster>, counts: PairCounts, incomplete: seq<bool>,
    counted: set<nat>, omitted: set<nat>)
    requires PairsCounted(clusters, counts, incomplete, counted, omitted)
    ensures forall pair | pair in counts :: pair.1 < |incomplete|
  {
    forall pair | pair in counts ensures pair.1 < |incomplete| {
      assert CountOf(counts, pair.0, pair.1) > 0;
    }
  }

  function Iota(n: nat): (r: seq<nat>)
    ensures |r| == n && forall i: nat | i < n :: r[i] == i
  {
    seq(n, i => i)
  }

  /** An arrangement of the numbers below n visits each exactly once. */
  lemma {:induction false} VisitsEveryBucket(order: seq<nat>, n: nat)
    requires multiset(order) == multiset(Iota(n))
    ensures forall id: nat :: id in Elements(order) <==> id < n
    ensures forall k: nat | k < |order| :: order[k] < n && order[k] !in order[..k]
  {
    SameMembers(order, Iota(n));
    forall id: nat ensures id in Elements(order) <==> id < n {
      if id < n { assert Iota(n)[id] == id; }
      assert id in Elements(Iota(n)) <==> id < n;
    }
    forall k: nat | k < |order| ensures order[k] < n && order[k] !in order[..k] {
      assert order[k] in Elements(order);
      OnceEach(n, order[k]);
      if order[k] in order[..k] { TwiceIn(order, k); }
    }
  }

  lemma {:induction false} OnceEach(n: nat, x: nat)
    ensures multiset(Iota(n))[x] <= 1
    ensures x >= n ==> multiset(Iota(n))[x] == 0
  {
    if n > 0 {
      OnceEach(n - 1, x);
      assert Iota(n) == Iota(n - 1) + [n - 1];
    }
  }

  lemma {:induction false} TwiceIn(s: seq<nat>, k: nat)
    requires k < |s| && s[k] in s[..k]
    ensures multiset(s)[s[k]] >= 2
  {
    assert s == s[..k] + [s[k]] + s[k + 1..];
    assert multiset(s) == multiset(s[..k]) + multiset{s[k]} + multiset(s[k + 1..]);
    assert s[k] in multiset(s[..k]);
  }

  // ---- Evidence rows and the whole analysis ----

  ghost predicate NamesHolding(clusters: seq<AliasCluster>, id: nat, names: seq<string>) {
    forall name :: name in names <==> exists c: nat :: c in Holders(clusters, id) && name in clusters[c].names
  }

  predicate Within(posting: seq<nat>, n: nat) { forall t | 0 <= t < |posting| :: posting[t] < n }

  /** The names of the clusters of a posting, cluster by cluster. */
  function NamesAlong(clusters: seq<AliasCluster>, posting: seq<nat>): seq<string>
    requires Within(posting, |clusters|)
  {
    if posting == [] then [] else
      var last := |posting| - 1;
      NamesAlong(clusters, posting[..last]) + clusters[posting[last]].names
  }

  method EvidenceNames(clusters: seq<AliasCluster>, posting: seq<nat>, ghost id: nat) returns (names: seq<string>)
    requires Elements(posting) == Holders(clusters, id)
    ensures NamesHolding(clusters, id, names)
    ensures Within(posting, |clusters|) && names == NamesAlong(clusters, posting)
  {
    names := [];
    forall c: nat | c in posting ensures c < |clusters| { assert c in Elements(posting); }
    forall t | 0 <= t < |posting| ensures posting[t] < |clusters| { assert posting[t] in posting; }
    for t := 0 to |posting|
      invariant forall name :: name in names <==> exists c: nat :: c in posting[..t] && c < |clusters| && name in clusters[c].names
      invariant Within(posting, |clusters|) && names == NamesAlong(clusters, posting[..t])
    {
      assert posting[..t + 1] == posting[..t] + [posting[t]];
      assert posting[..t + 1][..t] == posting[..t];
      assert posting[t] in posting;
      names := names + clusters[posting[t]].names;
    }
    assert posting[..|posting|] == posting;
    forall c: nat ensures c in posting <==> c in Holders(clusters, id) {
      assert c in posting <==> c in Elements(posting);
    }
  }

  ghost predicate AllWithin(postings: seq<seq<nat>>, n: nat) { forall id: nat | id < |postings| :: Within(postings[id], n) }

  /** The rows of the shown IDs below n, in the order of their numbers. */
  ghost function EvidenceRows(clusters: seq<AliasCluster>, postings: seq<seq<nat>>, keys: seq<string>, shown: set<nat>, n: nat)
    : seq<WeakIdEvidence>
    requires AllWithin(postings, |clusters|) && n <= |postings| == |keys|
  {
    if n == 0 then [] else
      var rows := EvidenceRows(clusters, postings, keys, shown, n - 1);
      if n - 1 !in shown then rows else
        rows + [WeakIdEvidence(keys[n - 1], SortBy(TextLe, NamesAlong(clusters, postings[n - 1])))]
  }

  lemma {:induction false} HoldersWithin(clusters: seq<AliasCluster>, postings: seq<seq<nat>>)
    requires WellIndexed(clusters, postings)
    ensures AllWithin(postings, |clusters|)
  {
    forall id: nat, t | id < |postings| && 0 <= t < |postings[id]| ensures postings[id][t] < |clusters| {
      assert postings[id][t] in Elements(postings[id]);
    }
  }

  predicate RowLe(a: WeakIdEvidence, b: WeakIdEvidence) { TextLe(a.canonicalKey, b.canonicalKey) }

  /** One row for each key that was omitted, or for each shared key once the output was cut. */
  ghost predicate RowsOf(clusters: seq<AliasCluster>, keys: seq<string>, shown: set<nat>, n: nat, rows: seq<WeakIdEvidence>) {
    && (forall id: nat | id in shown && id < n && id < |keys| ::
      exists row :: row in rows && row.canonicalKey == keys[id] && NamesHolding(clusters, id, row.names))
    && (forall row | row in rows ::
      exists id: nat :: id in shown && id < n && id < |keys| && row.canonicalKey == keys[id] && NamesHolding(clusters, id, row.names))
  }

  lemma {:induction false} NoRowsYet(clusters: seq<AliasCluster>, keys: seq<string>, shown: set<nat>)
    ensures RowsOf(clusters, keys, shown, 0, [])
  {}

  lemma {:induction false} RowNotShown(clusters: seq<AliasCluster>, keys: seq<string>, shown: set<nat>, id: nat,
    rows: seq<WeakIdEvidence>)
    requires RowsOf(clusters, keys, shown, id, rows) && id !in shown
    ensures RowsOf(clusters, keys, shown, id + 1, rows)
  {
    hide NamesHolding;
  }

  lemma {:induction false} RowsSorted(clusters: seq<AliasCluster>, keys: seq<string>, shown: set<nat>, rows: seq<WeakIdEvidence>)
    requires RowsOf(clusters, keys, shown, |keys|, rows)
    ensures RowsOf(clusters, keys, shown, |keys|, SortBy(RowLe, rows)) && |SortBy(RowLe, rows)| == |rows|
    ensures SortedBy(RowLe, SortBy(RowLe, rows))
  {
    hide NamesHolding, SortBy, TextLe;
    TextOrders();
    SortBySorts(RowLe, rows);
    SortByMembers(RowLe, rows);
    assert forall row :: row in SortBy(RowLe, rows) <==> row in Elements(rows);
  }

  lemma {:induction false} OneMoreRow(clusters: seq<AliasCluster>, keys: seq<string>, shown: set<nat>, id: nat,
    rows: seq<WeakIdEvidence>, row: WeakIdEvidence)
    requires RowsOf(clusters, keys, shown, id, rows) && id in shown && id < |keys|
    requires row.canonicalKey == keys[id] && NamesHolding(clusters, id, row.names)
    ensures RowsOf(clusters, keys, shown, id + 1, rows + [row])
  {
    hide NamesHolding;
    assert forall r :: r in rows + [row] <==> r in rows || r == row;
    forall other: nat | other in shown && other < id + 1 && other < |keys|
      ensures exists r :: r in rows + [row] && r.canonicalKey == keys[other] && NamesHolding(clusters, other, r.names)
    {
      if other < id {
        var r :| r in rows && r.canonicalKey == keys[other] && NamesHolding(clusters, other, r.names);
        assert r in rows + [row];
      } else {
        assert row in rows + [row];
      }
    }
  }

  method WeakEvidence(clusters: seq<AliasCluster>, postings: seq<seq<nat>>, keys: seq<string>,
    omittedKeys: seq<bool>, outputCapped: bool, ghost shown: set<nat>) returns (rows: seq<WeakIdEvidence>)
    requires WellIndexed(clusters, postings) && |postings| == |keys| == |omittedKeys|
    requires forall id: nat | id < |keys| ::
      id in shown <==> omittedKeys[id] || (outputCapped && |postings[id]| > 1)
    ensures RowsOf(clusters, keys, shown, |keys|, rows) && SortedBy(RowLe, rows)
    ensures shown == {} ==> rows == []
    ensures AllWithin(postings, |clusters|) && rows == SortBy(RowLe, EvidenceRows(clusters, postings, keys, shown, |keys|))
  {
    hide SortBy, NamesHolding, RowsOf, SortedBy, NamesAlong, Within;
    rows := [];
    HoldersWithin(clusters, postings);
    NoRowsYet(clusters, keys, shown);
    for id := 0 to |keys|
      invariant RowsOf(clusters, keys, shown, id, rows)
      invariant rows == EvidenceRows(clusters, postings, keys, shown, id)
      invariant shown == {} ==> rows == []
    {
      if !omittedKeys[id] && !(outputCapped && |postings[id]| > 1) {
        RowNotShown(clusters, keys, shown, id, rows);
        continue;
      }
      var names := EvidenceNames(clusters, postings[id], id);
      SortedNamesHold(clusters, id, names);
      OneMoreRow(clusters, keys, shown, id, rows, WeakIdEvidence(keys[id], SortBy(TextLe, names)));
      rows := rows + [WeakIdEvidence(keys[id], SortBy(TextLe, names))];
    }
    RowsSorted(clusters, keys, shown, rows);
    rows := SortBy(RowLe, rows);
  }

  lemma {:induction false} SortedNamesHold(clusters: seq<AliasCluster>, id: nat, names: seq<string>)
    requires NamesHolding(clusters, id, names)
    ensures NamesHolding(clusters, id, SortBy(TextLe, names))
  {
    SortByMembers(TextLe, names);
    assert forall name :: name in SortBy(TextLe, names) <==> name in Elements(names);
    hide SortBy;
  }

  /** Having a key, seen from the entry and from its cluster. */
  lemma {:induction false} KeyHeld(es: seq<AliasEntry>, key: CanonicalKey, clusters: seq<AliasCluster>, keys: seq<string>,
    f: seq<int>, p: nat, id: nat)
    requires Contents(es, key, |es|, clusters, keys, f) && OneToOne(keys) && p < |es| && id < |keys|
    ensures keys[id] in Keys(es[p], key) <==> 0 <= f[p] && f[p] in Holders(clusters, id)
  {}

  lemma {:induction false} KeyNumbered(es: seq<AliasEntry>, key: CanonicalKey, clusters: seq<AliasCluster>, keys: seq<string>,
    f: seq<int>, p: nat, k: string) returns (id: nat)
    requires Contents(es, key, |es|, clusters, keys, f) && p < |es| && k in Keys(es[p], key)
    ensures id < |keys| && keys[id] == k && 0 <= f[p]
  {
    id :| id in IdsOf(clusters[f[p]]) && id < |keys| && keys[id] == k;
  }

  lemma {:induction false} RowsMean(es: seq<AliasEntry>, key: CanonicalKey, clusters: seq<AliasCluster>, keys: seq<string>,
    f: seq<int>, first: seq<nat>, id: nat, row: WeakIdEvidence)
    requires Represents(es, key, clusters, IdAdjacency(clusters), f, first)
    requires Contents(es, key, |es|, clusters, keys, f) && OneToOne(keys)
    requires id < |keys| && row.canonicalKey == keys[id] && NamesHolding(clusters, id, row.names)
    ensures RowMeans(es, key, row)
  {
    hide Represents, Contents;
    forall name
      ensures name in row.names <==> exists p: nat :: p < |es| && keys[id] in Keys(es[p], key) && es[p].name == name
    {
      if name in row.names {
        var c: nat :| c in Holders(clusters, id) && name in clusters[c].names;
        ClusterNamesEntry(es, key, clusters, IdAdjacency(clusters), f, first, c, name);
        var p: nat :| p < |es| && f[p] == c && es[p].name == name;
        KeyHeld(es, key, clusters, keys, f, p, id);
      }
      forall p: nat | p < |es| && keys[id] in Keys(es[p], key) && es[p].name == name ensures name in row.names {
        EntryLength(es, key, clusters, keys, f);
        KeyHeld(es, key, clusters, keys, f, p, id);
        ClusterNamesEntry(es, key, clusters, IdAdjacency(clusters), f, first, f[p], name);
      }
    }
  }

  lemma {:induction false} EntryLength(es: seq<AliasEntry>, key: CanonicalKey, clusters: seq<AliasCluster>, keys: seq<string>, f: seq<int>)
    requires Contents(es, key, |es|, clusters, keys, f)
    ensures |f| == |es| && forall p | 0 <= p < |es| :: f[p] < |clusters|
  {}

  /** Capped overlaps say about entries what their marks promise. */
  lemma {:induction false} CappedOverlapsMean(es: seq<AliasEntry>, key: CanonicalKey, clusters: seq<AliasCluster>, keys: seq<string>,
    f: seq<int>, overlaps: seq<PairOverlap>, omittedKeys: seq<bool>)
    requires Contents(es, key, |es|, clusters, keys, f) && OneToOne(keys)
    requires CappedOverlaps(clusters, |keys|, overlaps, omittedKeys)
    ensures OverlapsMean(es, key, f, overlaps)
  {
    EntryLength(es, key, clusters, keys, f);
    hide Contents;
    forall o, p: nat, q: nat | o in overlaps && p < |es| && q < |es| && f[p] == o.left && f[q] == o.right
      ensures |Keys(es[p], key) * Keys(es[q], key)| == |IdsOf(clusters[o.left]) * IdsOf(clusters[o.right])|
    {
      ClustersCompress(es, key, clusters, keys, f, [], p, q);
    }
  }

  lemma {:induction false} RowShows(es: seq<AliasEntry>, key: CanonicalKey, clusters: seq<AliasCluster>, keys: seq<string>,
    f: seq<int>, first: seq<nat>, shown: set<nat>, rows: seq<WeakIdEvidence>, id: nat, p: nat, q: nat)
    requires Represents(es, key, clusters, IdAdjacency(clusters), f, first)
    requires RowsOf(clusters, keys, shown, |keys|, rows)
    requires |f| == |es| && p < |es| && q < |es| && 0 <= f[p] && 0 <= f[q] && id < |keys| && id in shown
    requires f[p] in Holders(clusters, id) && f[q] in Holders(clusters, id)
    ensures InOneRow(rows, keys[id], es[p].name, es[q].name)
  {
    hide Represents, NamesHolding, Holders;
    HoldersInBounds(clusters, id, f[p]);
    HoldersInBounds(clusters, id, f[q]);
    ClusterNamesEntry(es, key, clusters, IdAdjacency(clusters), f, first, f[p], es[p].name);
    ClusterNamesEntry(es, key, clusters, IdAdjacency(clusters), f, first, f[q], es[q].name);
    var row :| row in rows && row.canonicalKey == keys[id] && NamesHolding(clusters, id, row.names);
    HoldingNamed(clusters, id, row.names, f[p], es[p].name);
    HoldingNamed(clusters, id, row.names, f[q], es[q].name);
  }

  lemma {:induction false} HoldingNamed(clusters: seq<AliasCluster>, id: nat, names: seq<string>, c: nat, name: string)
    requires NamesHolding(clusters, id, names) && c in Holders(clusters, id) && name in clusters[c].names
    ensures name in names
  {}

  lemma {:induction false} OverlapShows(es: seq<AliasEntry>, key: CanonicalKey, clusters: seq<AliasCluster>, keys: seq<string>,
    f: seq<int>, first: seq<nat>, overlaps: seq<PairOverlap>, omittedKeys: seq<bool>,
    suggestions: seq<OverlapSuggestion>, id: nat, p: nat, q: nat)
    requires Represents(es, key, clusters, IdAdjacency(clusters), f, first)
    requires Contents(es, key, |es|, clusters, keys, f) && OneToOne(keys)
    requires CappedOverlaps(clusters, |keys|, overlaps, omittedKeys)
    requires SuggestionsComplete(clusters, overlaps, Cover(IdAdjacency(clusters), |clusters|), suggestions)
    requires |f| == |es| && p < |es| && q < |es| && 0 <= f[p] < f[q] && id < |keys| && !omittedKeys[id]
    requires f[p] in Holders(clusters, id) && f[q] in Holders(clusters, id)
    requires GroupNumbers(es, key)[p] != GroupNumbers(es, key)[q]
    ensures Suggested(es, key, suggestions, p, q) && Suggested(es, key, suggestions, q, p)
  {
    hide Represents, Contents, SuggestionsComplete, Suggested;
    CappedOverlapsMean(es, key, clusters, keys, f, overlaps, omittedKeys);
    HoldersInBounds(clusters, id, f[p]);
    HoldersInBounds(clusters, id, f[q]);
    var o :| o in overlaps && o.left == f[p] && o.right == f[q];
    EntriesSuggested(es, key, clusters, IdAdjacency(clusters), f, first, overlaps, suggestions, o, p, q);
    SuggestedEitherWay(es, key, suggestions, p, q);
  }

  lemma {:induction false} ManyHolders(clusters: seq<AliasCluster>, id: nat, i: nat, j: nat)
    requires i < j && i in Holders(clusters, id) && j in Holders(clusters, id)
    ensures |Holders(clusters, id)| > 1
  {
    TwoHolders(clusters, id, i, j);
  }

  lemma {:induction false} SuggestedEitherWay(es: seq<AliasEntry>, key: CanonicalKey, suggestions: seq<OverlapSuggestion>, p: nat, q: nat)
    requires Suggested(es, key, suggestions, p, q)
    ensures Suggested(es, key, suggestions, q, p)
  {
    hide Shows;
    var s :| s in suggestions && (Shows(es, key, s, p, q) || Shows(es, key, s, q, p));
  }

  /** Two entries of different groups with a common key are shown together: as a suggestion,
      or in the evidence row of that key. */
  lemma {:induction false} SharingEntriesShown(es: seq<AliasEntry>, key: CanonicalKey, clusters: seq<AliasCluster>, keys: seq<string>,
    f: seq<int>, first: seq<nat>, overlaps: seq<PairOverlap>, omittedKeys: seq<bool>, shown: set<nat>,
    suggestions: seq<OverlapSuggestion>, truncated: bool, rows: seq<WeakIdEvidence>, p: nat, q: nat, k: string)
    requires Represents(es, key, clusters, IdAdjacency(clusters), f, first)
    requires Contents(es, key, |es|, clusters, keys, f) && OneToOne(keys)
    requires CappedOverlaps(clusters, |keys|, overlaps, omittedKeys)
    requires !truncated ==> SuggestionsComplete(clusters, overlaps, Cover(IdAdjacency(clusters), |clusters|), suggestions)
    requires forall id: nat | id < |keys| && (omittedKeys[id] || (truncated && |Holders(clusters, id)| > 1)) :: id in shown
    requires RowsOf(clusters, keys, shown, |keys|, rows)
    requires p < |es| && q < |es| && k in Keys(es[p], key) && k in Keys(es[q], key)
    requires GroupNumbers(es, key)[p] != GroupNumbers(es, key)[q]
    ensures Suggested(es, key, suggestions, p, q) || InOneRow(rows, k, es[p].name, es[q].name)
  {
    hide Represents, Contents, SuggestionsComplete, CappedOverlaps, Holders, KeysNumbered;
    EntryLength(es, key, clusters, keys, f);
    var id := KeyNumbered(es, key, clusters, keys, f, p, k);
    KeyHeld(es, key, clusters, keys, f, p, id);
    KeyHeld(es, key, clusters, keys, f, q, id);
    if id in shown {
      RowShows(es, key, clusters, keys, f, first, shown, rows, id, p, q);
    } else if f[p] < f[q] {
      ManyHolders(clusters, id, f[p], f[q]);
      OverlapShows(es, key, clusters, keys, f, first, overlaps, omittedKeys, suggestions, id, p, q);
    } else {
      GroupsCorrespond(es, key, clusters, IdAdjacency(clusters), f, first, p, q);
      ManyHolders(clusters, id, f[q], f[p]);
      OverlapShows(es, key, clusters, keys, f, first, overlaps, omittedKeys, suggestions, id, q, p);
    }
  }

  /** Without omitted keys no overlap, and so no suggestion, is marked as a lower bound. */
  lemma {:induction false} ExactWhenComplete(clusters: seq<AliasCluster>, groupOf: seq<nat>, n: nat, overlaps: seq<PairOverlap>,
    omittedKeys: seq<bool>, suggestions: seq<OverlapSuggestion>)
    requires CappedOverlaps(clusters, n, overlaps, omittedKeys)
    requires forall id: nat | id < n :: !omittedKeys[id]
    requires SuggestionsSound(clusters, overlaps, groupOf, suggestions)
    ensures forall s | s in suggestions :: !s.commonIdCountIsLowerBound
  {}

  // ---- The index and the answer it gives ----

  /** What the analysis computes between the sorted entries and its answer. */
  datatype Index = Index(clusters: seq<AliasCluster>, keys: seq<string>, f: seq<int>, first: seq<nat>,
    postings: seq<seq<nat>>, overlaps: seq<PairOverlap>, omittedKeys: seq<bool>)

  ghost predicate Compressed(es: seq<AliasEntry>, key: CanonicalKey, x: Index) {
    && Sorted(es, |es|, x.clusters, x.f, x.first) && Contents(es, key, |es|, x.clusters, x.keys, x.f)
    && x.keys == KeysMet(es, key, |es|) && OneToOne(x.keys) && Merged(x.clusters)
  }

  ghost predicate IndexOf(es: seq<AliasEntry>, key: CanonicalKey, x: Index) {
    && Compressed(es, key, x)
    && WellIndexed(x.clusters, x.postings) && |x.postings| == |x.keys| == |x.omittedKeys|
    && OmitsUpTo(x.postings, BucketOrder(x.postings, x.keys), |x.keys|, Omitted(x.omittedKeys))
    && CountedOverlaps(x.clusters, Omitted(x.omittedKeys), x.overlaps)
  }

  ghost predicate Listable(x: Index) {
    && InBounds(x.clusters, SortBy(PairLe, x.overlaps))
    && |Cover(IdAdjacency(x.clusters), |x.clusters|)| == |x.clusters|
    && AllWithin(x.postings, |x.clusters|) && |x.postings| == |x.keys|
  }

  /** All suggestions there are, without the limit. */
  ghost function Found(x: Index): seq<OverlapSuggestion>
    requires Listable(x)
  {
    Suggestions(x.clusters, SortBy(PairLe, x.overlaps), Cover(IdAdjacency(x.clusters), |x.clusters|))
  }

  /** The IDs that get an evidence row: the omitted ones, and all shared ones once the list was cut. */
  ghost function EvidenceIds(x: Index): set<nat>
    requires Listable(x)
  {
    set id: nat | id < |x.keys| && (id in Omitted(x.omittedKeys) || (|Found(x)| > MAX_INDEX_SUGGESTIONS && |x.postings[id]| > 1))
  }

  /** The answer is that of the index: the first suggestions up to the limit, evidence for what they
      leave out, and the word that something was left out exactly if it was. */
  ghost predicate Answers(x: Index, result: IdentityAnalysis) {
    && Listable(x)
    && result.overlapSuggestions == SortBy(SuggestionLe, Cut(Found(x), MAX_INDEX_SUGGESTIONS))
    && result.weakIdEvidence == SortBy(RowLe, EvidenceRows(x.clusters, x.postings, x.keys, EvidenceIds(x), |x.keys|))
    && (result.overlapSuggestionsTruncated <==> |Found(x)| > MAX_INDEX_SUGGESTIONS || Omitted(x.omittedKeys) != {})
  }

  lemma {:induction false} IndexAnswers(x: Index, listed: IdentityAnalysis, result: IdentityAnalysis, shown: set<nat>)
    requires WellIndexed(x.clusters, x.postings) && |x.postings| == |x.keys| == |x.omittedKeys|
    requires SuggestsUpTo(x.clusters, SortBy(PairLe, x.overlaps), Cover(IdAdjacency(x.clusters), |x.clusters|), MAX_INDEX_SUGGESTIONS, listed)
    requires shown == set id: nat | id < |x.keys| && (x.omittedKeys[id] || (listed.overlapSuggestionsTruncated && |x.postings[id]| > 1))
    requires result.overlapSuggestions == listed.overlapSuggestions && AllWithin(x.postings, |x.clusters|)
    requires result.weakIdEvidence == SortBy(RowLe, EvidenceRows(x.clusters, x.postings, x.keys, shown, |x.keys|))
    requires result.overlapSuggestionsTruncated <==> listed.overlapSuggestionsTruncated || Omitted(x.omittedKeys) != {}
    ensures Answers(x, result)
  {
    hide SortBy, Suggestions, Cut, EvidenceRows, WellIndexed;
    assert shown == EvidenceIds(x);
  }

  /** Groups are those of the plain analysis for every input; caps touch the display only.
      Whatever the caps leave out of the suggestions is still shown in an evidence row. */
  method AnalyzeIndexed(gid: GroupIdOf, entries: seq<AliasEntry>, key: CanonicalKey)
    returns (result: IdentityAnalysis, ghost index: Index)
    ensures result.exactGroups == ExactGroups(gid, key, entries)
    ensures var es := SortBy(EntryLe, entries); ReportsGroups(gid, NamesOf(es), GroupNumbers(es, key), result.exactGroups)
    ensures IndexOf(SortBy(EntryLe, entries), key, index) && Answers(index, result)
    ensures SuggestionsMean(SortBy(EntryLe, entries), key, result.overlapSuggestions)
    ensures forall row | row in result.weakIdEvidence :: RowMeans(SortBy(EntryLe, entries), key, row)
    ensures var es := SortBy(EntryLe, entries);
      forall p: nat, q: nat, k | p < |es| && q < |es| && k in Keys(es[p], key) && k in Keys(es[q], key) &&
          GroupNumbers(es, key)[p] != GroupNumbers(es, key)[q] ::
        Suggested(es, key, result.overlapSuggestions, p, q) ||
        InOneRow(result.weakIdEvidence, k, es[p].name, es[q].name)
    ensures SortedBy(SuggestionLe, result.overlapSuggestions) && SortedBy(RowLe, result.weakIdEvidence)
    ensures !result.overlapSuggestionsTruncated ==> result.weakIdEvidence == []
    ensures !result.overlapSuggestionsTruncated ==>
      forall s | s in result.overlapSuggestions :: !s.commonIdCountIsLowerBound
    ensures !result.overlapSuggestionsTruncated ==> ShowsAll(SortBy(EntryLe, entries), key, result.overlapSuggestions)
    ensures !result.overlapSuggestionsTruncated ==> ListsPairs(SortBy(EntryLe, entries), key, result.overlapSuggestions)
  {
    hide SortBy, Emit, Sorted, Contents, OneToOne, Merged, Represents, CappedOverlaps, CountedOverlaps, OmitsUpTo, BucketOrder,
      Omitted, SuggestionsSound, SuggestionsComplete, SuggestionsMean, EvidenceRows, RowsOf, Answers,
      ShowsAll, ListsPairs, CoversSharing, RowMeans, Suggested, InOneRow, Keys, OneEach, SortedBy, SuggestsUpTo,
      ReportsGroups, ExactGroups;
    var es := SortBy(EntryLe, entries);
    var clusters, keys, f, first := BuildClusters(es, key);
    ClustersRepresent(es, key, clusters, keys, f, first);
    IndexedInBounds(es, key, clusters, keys, f);
    var postings := BuildPostings(clusters, |keys|);
    var overlaps, omittedKeys, bucketsCapped := CountPairs(clusters, postings, keys);
    index := Index(clusters, keys, f, first, postings, overlaps, omittedKeys);
    CountedAreCapped(clusters, overlaps, omittedKeys);
    var groupOf := CompleteIndexedGroups(clusters, postings);
    ghost var adj := IdAdjacency(clusters);
    OverlapsInBounds(clusters, |keys|, overlaps, omittedKeys);
    NoClusters(adj, clusters, overlaps);
    result := BuildAnalysis(gid, clusters, overlaps, MAX_INDEX_SUGGESTIONS, groupOf, adj);
    ghost var listed := result;
    var outputCapped := result.overlapSuggestionsTruncated;
    ghost var shown := set id: nat | id < |keys| && (omittedKeys[id] || (outputCapped && |postings[id]| > 1));
    var rows := WeakEvidence(clusters, postings, keys, omittedKeys, outputCapped, shown);
    result := result.(overlapSuggestionsTruncated := outputCapped || bucketsCapped, weakIdEvidence := rows);
    ClustersEmitExactGroups(gid, entries, es, key, clusters, adj, f, first);
    ExactGroupsAre(gid, key, entries);
    IndexAnswers(index, listed, result, shown);
    AnswerMeans(es, key, index, listed, result, shown);
  }

  lemma {:induction false} IndexedInBounds(es: seq<AliasEntry>, key: CanonicalKey, clusters: seq<AliasCluster>, keys: seq<string>, f: seq<int>)
    requires Contents(es, key, |es|, clusters, keys, f)
    ensures forall c, id | 0 <= c < |clusters| && id in clusters[c].ids :: id < |keys|
    ensures forall c | 0 <= c < |clusters| :: clusters[c].ids != [] && Increasing(clusters[c].ids)
  {}

  lemma {:induction false} AnswerMeans(es: seq<AliasEntry>, key: CanonicalKey, x: Index, listed: IdentityAnalysis,
    result: IdentityAnalysis, shown: set<nat>)
    requires IndexOf(es, key, x)
    requires Represents(es, key, x.clusters, IdAdjacency(x.clusters), x.f, x.first)
    requires SuggestsUpTo(x.clusters, SortBy(PairLe, x.overlaps), Cover(IdAdjacency(x.clusters), |x.clusters|), MAX_INDEX_SUGGESTIONS, listed)
    requires shown == set id: nat | id < |x.keys| && (x.omittedKeys[id] || (listed.overlapSuggestionsTruncated && |x.postings[id]| > 1))
    requires result.overlapSuggestions == listed.overlapSuggestions && RowsOf(x.clusters, x.keys, shown, |x.keys|, result.weakIdEvidence)
    requires shown == {} ==> result.weakIdEvidence == []
    requires result.overlapSuggestionsTruncated <==> listed.overlapSuggestionsTruncated || Omitted(x.omittedKeys) != {}
    ensures SuggestionsMean(es, key, result.overlapSuggestions)
    ensures forall row | row in result.weakIdEvidence :: RowMeans(es, key, row)
    ensures forall p: nat, q: nat, k | p < |es| && q < |es| && k in Keys(es[p], key) && k in Keys(es[q], key) &&
          GroupNumbers(es, key)[p] != GroupNumbers(es, key)[q] ::
        Suggested(es, key, result.overlapSuggestions, p, q) ||
        InOneRow(result.weakIdEvidence, k, es[p].name, es[q].name)
    ensures SortedBy(SuggestionLe, result.overlapSuggestions)
    ensures !result.overlapSuggestionsTruncated ==> result.weakIdEvidence == []
    ensures !result.overlapSuggestionsTruncated ==>
      forall s | s in result.overlapSuggestions :: !s.commonIdCountIsLowerBound
    ensures !result.overlapSuggestionsTruncated ==> ShowsAll(es, key, result.overlapSuggestions)
    ensures !result.overlapSuggestionsTruncated ==> ListsPairs(es, key, result.overlapSuggestions)
  {
    hide SortBy, Emit, Sorted, Contents, OneToOne, Merged, Represents, CappedOverlaps, CountedOverlaps, OmitsUpTo, BucketOrder,
      SuggestionsSound, SuggestionsComplete, SuggestionsMean, WellIndexed, RowsOf,
      ShowsAll, ListsPairs, CoversSharing, RowMeans, Suggested, InOneRow, Keys, OneEach, SortedBy, SuggestsUpTo;
    var adj, groupOf := IdAdjacency(x.clusters), Cover(IdAdjacency(x.clusters), |x.clusters|);
    CountedAreCapped(x.clusters, x.overlaps, x.omittedKeys);
    OverlapsInBounds(x.clusters, |x.keys|, x.overlaps, x.omittedKeys);
    SortedSuggestions(x.clusters, x.overlaps, groupOf, MAX_INDEX_SUGGESTIONS, listed);
    AnalysisInOrder(x.clusters, SortBy(PairLe, x.overlaps), groupOf, MAX_INDEX_SUGGESTIONS, listed);
    CappedOverlapsMean(es, key, x.clusters, x.keys, x.f, x.overlaps, x.omittedKeys);
    SuggestionsMeanEntries(es, key, x.clusters, adj, x.f, x.first, x.overlaps, result.overlapSuggestions);
    EvidenceMeans(es, key, x.clusters, x.keys, x.f, x.first, shown, result.weakIdEvidence);
    HoldersListed(x.clusters, x.postings);
    forall p: nat, q: nat, k | p < |es| && q < |es| && k in Keys(es[p], key) && k in Keys(es[q], key) &&
        GroupNumbers(es, key)[p] != GroupNumbers(es, key)[q]
      ensures Suggested(es, key, result.overlapSuggestions, p, q) || InOneRow(result.weakIdEvidence, k, es[p].name, es[q].name)
    {
      SharingEntriesShown(es, key, x.clusters, x.keys, x.f, x.first, x.overlaps, x.omittedKeys, shown,
        result.overlapSuggestions, listed.overlapSuggestionsTruncated, result.weakIdEvidence, p, q, k);
    }
    if !result.overlapSuggestionsTruncated {
      assert forall id: nat | id < |x.omittedKeys| :: x.omittedKeys[id] ==> id in Omitted(x.omittedKeys);
      assert shown == {};
      ExactWhenComplete(x.clusters, groupOf, |x.keys|, x.overlaps, x.omittedKeys, result.overlapSuggestions);
      ShowsAllWhenComplete(es, key, result.overlapSuggestions, result.weakIdEvidence);
      CoversWhenComplete(es, key, x.clusters, x.keys, x.f, x.first, x.overlaps, x.omittedKeys);
      UnmarkedWhenComplete(x.clusters, |x.keys|, x.overlaps, x.omittedKeys);
      CountedOnce(x.clusters, x.overlaps, x.omittedKeys);
      AnalysisListsPairs(es, key, x.clusters, adj, x.f, x.first, x.overlaps, MAX_INDEX_SUGGESTIONS, listed);
    }
  }

  lemma {:induction false} CountedOnce(clusters: seq<AliasCluster>, overlaps: seq<PairOverlap>, omittedKeys: seq<bool>)
    requires CountedOverlaps(clusters, Omitted(omittedKeys), overlaps)
    ensures OneEach(overlaps)
  {}

  lemma {:induction false} HoldersListed(clusters: seq<AliasCluster>, postings: seq<seq<nat>>)
    requires WellIndexed(clusters, postings)
    ensures forall id: nat | id < |postings| :: |Holders(clusters, id)| == |postings[id]|
  {
    HoldersCounted(clusters, postings);
  }

  lemma {:induction false} UnmarkedWhenComplete(clusters: seq<AliasCluster>, n: nat, overlaps: seq<PairOverlap>, omittedKeys: seq<bool>)
    requires CappedOverlaps(clusters, n, overlaps, omittedKeys) && forall id: nat | id < n :: !omittedKeys[id]
    ensures forall o | o in overlaps :: !o.lowerBound
  {}

  lemma {:induction false} CoversWhenComplete(es: seq<AliasEntry>, key: CanonicalKey, clusters: seq<AliasCluster>, keys: seq<string>,
    f: seq<int>, first: seq<nat>, overlaps: seq<PairOverlap>, omittedKeys: seq<bool>)
    requires Represents(es, key, clusters, IdAdjacency(clusters), f, first)
    requires Contents(es, key, |es|, clusters, keys, f) && OneToOne(keys)
    requires CappedOverlaps(clusters, |keys|, overlaps, omittedKeys) && forall id: nat | id < |keys| :: !omittedKeys[id]
    ensures CoversSharing(es, key, f, overlaps)
  {
    hide Represents, Contents, KeysNumbered, Keys, GroupNumbers, IdsOf, Cover, IdAdjacency;
    EntryLength(es, key, clusters, keys, f);
    forall p: nat, q: nat | Linked(es, key, p, q)
      ensures f[p] != f[q] && (f[p] < f[q] ==> exists o :: o in overlaps && f[p] == o.left && f[q] == o.right)
    {
      var k :| k in Keys(es[p], key) * Keys(es[q], key);
      var id := KeyNumbered(es, key, clusters, keys, f, p, k);
      KeyHeld(es, key, clusters, keys, f, p, id);
      KeyHeld(es, key, clusters, keys, f, q, id);
      GroupsCorrespond(es, key, clusters, IdAdjacency(clusters), f, first, p, q);
      HoldersInBounds(clusters, id, f[p]);
      HoldersInBounds(clusters, id, f[q]);
      if f[p] < f[q] {
        var i: nat, j: nat := f[p], f[q];
        assert !omittedKeys[id] && id in IdsOf(clusters[i]) && id in IdsOf(clusters[j]);
        var o :| o in overlaps && o.left == i && o.right == j;
      }
    }
  }

  lemma {:induction false} ShowsAllWhenComplete(es: seq<AliasEntry>, key: CanonicalKey,
    suggestions: seq<OverlapSuggestion>, rows: seq<WeakIdEvidence>)
    requires SuggestionsMean(es, key, suggestions) && rows == []
    requires forall s | s in suggestions :: !s.commonIdCountIsLowerBound
    requires forall p: nat, q: nat, k | p < |es| && q < |es| && k in Keys(es[p], key) && k in Keys(es[q], key) &&
        GroupNumbers(es, key)[p] != GroupNumbers(es, key)[q] ::
      Suggested(es, key, suggestions, p, q) || InOneRow(rows, k, es[p].name, es[q].name)
    ensures ShowsAll(es, key, suggestions)
  {
    hide Suggested, SuggestionsMean, Keys;
    forall p: nat, q: nat | p < |es| && q < |es| && Keys(es[p], key) * Keys(es[q], key) != {} &&
        GroupNumbers(es, key)[p] != GroupNumbers(es, key)[q]
      ensures Suggested(es, key, suggestions, p, q)
    {
      var k :| k in Keys(es[p], key) * Keys(es[q], key);
      assert k in Keys(es[p], key) && k in Keys(es[q], key) && !InOneRow(rows, k, es[p].name, es[q].name);
    }
  }

  lemma {:induction false} OverlapsInBounds(clusters: seq<AliasCluster>, n: nat, overlaps: seq<PairOverlap>, omittedKeys: seq<bool>)
    requires CappedOverlaps(clusters, n, overlaps, omittedKeys)
    ensures InBounds(clusters, overlaps) && |omittedKeys| == n
  {}

  lemma {:induction false} NoClusters(adj: Adjacency, clusters: seq<AliasCluster>, overlaps: seq<PairOverlap>)
    requires InBounds(clusters, overlaps)
    ensures clusters == [] ==> OverlapsOf(adj, 0, overlaps)
  {}

  lemma {:induction false} HoldersCounted(clusters: seq<AliasCluster>, postings: seq<seq<nat>>)
    requires PostingsOf(clusters, |postings|, postings)
    ensures forall id: nat | id < |postings| :: |Holders(clusters, id)| == |postings[id]|
  {
    forall id: nat | id < |postings| ensures |Holders(clusters, id)| == |postings[id]| {
      SizeOfIncreasing(postings[id]);
    }
  }

  lemma {:induction false} EvidenceMeans(es: seq<AliasEntry>, key: CanonicalKey, clusters: seq<AliasCluster>, keys: seq<string>,
    f: seq<int>, first: seq<nat>, shown: set<nat>, rows: seq<WeakIdEvidence>)
    requires Represents(es, key, clusters, IdAdjacency(clusters), f, first)
    requires Contents(es, key, |es|, clusters, keys, f) && OneToOne(keys)
    requires RowsOf(clusters, keys, shown, |keys|, rows)
    ensures forall row | row in rows :: RowMeans(es, key, row)
  {
    hide Represents, Contents, NamesHolding, RowMeans;
    forall row | row in rows ensures RowMeans(es, key, row) {
      var id: nat :| id in shown && id < |keys| && row.canonicalKey == keys[id] && NamesHolding(clusters, id, row.names);
      RowsMean(es, key, clusters, keys, f, first, id, row);
    }
  }
}
