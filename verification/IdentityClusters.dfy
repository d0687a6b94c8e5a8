/** The steps both identity analyses share: greedy seed loops over groupOf, and turning
    clusters, pair overlaps and group numbers into the returned analysis. */
module IdentityClusters {
  import opened Ordering
  import opened CliqueCover
  import opened IdentityGroups

  datatype AliasCluster = AliasCluster(ids: seq<nat>, names: seq<string>)

  datatype PairOverlap = PairOverlap(left: nat, right: nat, common: nat, lowerBound: bool) {
    predicate IsStrong() { common >= SHARED_ID_THRESHOLD }
  }

  function NameLists(clusters: seq<AliasCluster>): (lists: seq<seq<string>>)
    ensures |lists| == |clusters|
    ensures forall c | 0 <= c < |clusters| :: lists[c] == clusters[c].names
  {
    seq(|clusters|, c requires 0 <= c < |clusters| => clusters[c].names)
  }

  // ---- The state of groupOf while seeds are tried in turn ----

  /** groupOf agrees with the cover g for every group before seed and for the items of
      group seed already visited; everything else is still unassigned (n). */
  ghost predicate Assigned(groupOf: seq<nat>, g: seq<nat>, n: nat, seed: nat, visited: set<nat>) {
    && |groupOf| == |g| == n
    && forall i: nat | i < n ::
      groupOf[i] == if g[i] < seed || (g[i] == seed && i in visited) then g[i] else n
  }

  lemma {:induction false} SeedTaken(adj: Adjacency, groupOf: seq<nat>, n: nat, seed: nat)
    requires seed < n && Assigned(groupOf, Cover(adj, n), n, seed, {}) && groupOf[seed] != n
    ensures Assigned(groupOf, Cover(adj, n), n, seed + 1, {})
  {
    CoverIsFirstFit(adj, n);
    var g := Cover(adj, n);
    forall i: nat | i < n ensures g[i] != seed { assert FitsFirst(adj, g, i); }
  }

  lemma {:induction false} SeedStarts(adj: Adjacency, groupOf: seq<nat>, n: nat, seed: nat)
    requires seed < n && Assigned(groupOf, Cover(adj, n), n, seed, {}) && groupOf[seed] == n
    ensures Cover(adj, n)[seed] == seed
    ensures Assigned(groupOf[seed := seed], Cover(adj, n), n, seed, {seed})
  {
    CoverIsFirstFit(adj, n);
    assert FitsFirst(adj, Cover(adj, n), seed);
  }

  /** Adjacency to the visited members decides whether a candidate joins the seed. */
  lemma {:induction false} CandidateJoins(adj: Adjacency, n: nat, seed: nat, c: nat, visited: set<nat>)
    requires seed < c < n && Cover(adj, n)[seed] == seed <= Cover(adj, n)[c]
    requires forall j: nat | j < c && Cover(adj, n)[j] == seed :: j in visited
    requires forall j | j in visited :: j < c
    ensures Cover(adj, n)[c] == seed <==>
      forall j | j in visited && Cover(adj, n)[j] == seed :: adj(j, c)
  {
    JoinsSeed(adj, n, seed, c);
  }

  lemma {:induction false} SeedFinishes(adj: Adjacency, groupOf: seq<nat>, n: nat, seed: nat, visited: set<nat>)
    requires seed < n && Assigned(groupOf, Cover(adj, n), n, seed, visited)
    requires Cover(adj, n)[seed] == seed && seed in visited
    requires forall i: nat | seed < i < n && i !in visited && seed <= Cover(adj, n)[i] :: !adj(seed, i)
    ensures Assigned(groupOf, Cover(adj, n), n, seed + 1, {})
  {
    CoverIsFirstFit(adj, n);
    var g := Cover(adj, n);
    forall i: nat | i < n && g[i] == seed ensures i in visited {
      assert FitsFirst(adj, g, i);
    }
  }

  /** What one pass over a seed's candidates has reached: the candidates before k are visited. */
  ghost predicate SeedPass(groupOf: seq<nat>, g: seq<nat>, n: nat, seed: nat,
    candidates: seq<nat>, k: nat, members: seq<nat>)
  {
    && k <= |candidates| && |g| == n
    && Assigned(groupOf, g, n, seed, {seed} + Elements(candidates[..k]))
    && (forall m: nat :: m in members <==> m == seed || (m in candidates[..k] && m < n && g[m] == seed))
    && |members| > 0 && members[0] == seed
  }

  lemma {:induction false} Visit(adj: Adjacency, groupOf: seq<nat>, n: nat, seed: nat, candidates: seq<nat>, k: nat, members: seq<nat>)
    requires seed < n && Cover(adj, n)[seed] == seed && k < |candidates| && candidates[k] < n
    requires SeedPass(groupOf, Cover(adj, n), n, seed, candidates, k, members)
    ensures Cover(adj, n)[candidates[k]] != seed || candidates[k] in members ==>
      SeedPass(groupOf, Cover(adj, n), n, seed, candidates, k + 1, members)
    ensures Cover(adj, n)[candidates[k]] == seed && candidates[k] !in members ==>
      SeedPass(groupOf[candidates[k] := seed], Cover(adj, n), n, seed, candidates, k + 1, members + [candidates[k]])
  {
    assert candidates[..k + 1] == candidates[..k] + [candidates[k]];
    assert Elements(candidates[..k + 1]) == Elements(candidates[..k]) + {candidates[k]};
  }

  predicate NatLe(a: nat, b: nat) { a <= b }

  /** When the candidates are in order and miss no member, an unassigned one joins exactly
      when it is adjacent to the members found so far. */
  lemma {:induction false} CandidateDecided(adj: Adjacency, groupOf: seq<nat>, n: nat, seed: nat, candidates: seq<nat>,
    k: nat, members: seq<nat>)
    requires seed < n && Cover(adj, n)[seed] == seed && k < |candidates| && seed < candidates[k] < n
    requires SortedBy(NatLe, candidates)
    requires SeedPass(groupOf, Cover(adj, n), n, seed, candidates, k, members)
    requires groupOf[candidates[k]] == n
    requires forall j: nat | seed < j < n && Cover(adj, n)[j] == seed :: j in candidates
    ensures candidates[k] !in members
    ensures forall m | m in members :: m < candidates[k]
    ensures Cover(adj, n)[candidates[k]] == seed <==> forall m | m in members :: adj(m, candidates[k])
  {
    var c, g := candidates[k], Cover(adj, n);
    CoverIsFirstFit(adj, n);
    var visited := {seed} + Elements(candidates[..k]) - {c};
    forall j | j in visited ensures j < c {
      if j in candidates[..k] { assert j <= c; }
    }
    forall j: nat | j < c && g[j] == seed ensures j in visited {
      assert FitsFirst(adj, g, j);
      if j != seed {
        var p :| 0 <= p < |candidates| && candidates[p] == j;
        assert p < k;
      }
    }
    assert FitsFirst(adj, g, c);
    CandidateJoins(adj, n, seed, c, visited);
    forall m: nat ensures m in members <==> m in visited && m < n && g[m] == seed {}
  }

  // ---- Cover from a list of overlapping pairs ----

  predicate PairLe(a: PairOverlap, b: PairOverlap) {
    a.left < b.left || (a.left == b.left && a.right <= b.right)
  }

  ghost predicate OverlapsOf(adj: Adjacency, n: nat, overlaps: seq<PairOverlap>) {
    && (forall o | o in overlaps :: o.left < o.right < n && (o.IsStrong() ==> adj(o.left, o.right)))
    && (forall j: nat, i: nat | j < i < n && adj(j, i) ::
      exists o :: o in overlaps && o.left == j && o.right == i && o.IsStrong())
  }

  /** No pair of clusters is there twice. */
  ghost predicate OneEach(overlaps: seq<PairOverlap>) {
    forall k, l | 0 <= k < l < |overlaps| :: (overlaps[k].left, overlaps[k].right) != (overlaps[l].left, overlaps[l].right)
  }

  lemma {:induction false} NoPairYet()
    ensures OneEach([])
  {}

  lemma {:induction false} OneMorePair(overlaps: seq<PairOverlap>, more: PairOverlap)
    requires OneEach(overlaps) && forall o | o in overlaps :: (o.left, o.right) != (more.left, more.right)
    ensures OneEach(overlaps + [more])
  {}

  ghost predicate NeighborsOf(adj: Adjacency, n: nat, neighbors: seq<seq<nat>>) {
    && |neighbors| == n
    && (forall i: nat | i < n :: SortedBy(NatLe, neighbors[i]))
    && (forall i: nat, j: nat | i < n :: j in neighbors[i] <==>
      j < n && ((j < i && adj(j, i)) || (i < j && adj(i, j))))
  }

  method Neighbors(n: nat, overlaps: seq<PairOverlap>, ghost adj: Adjacency) returns (neighbors: seq<seq<nat>>)
    requires OverlapsOf(adj, n, overlaps)
    ensures NeighborsOf(adj, n, neighbors)
  {
    neighbors := seq(n, _ => []);
    for k := 0 to |overlaps|
      invariant |neighbors| == n
      invariant forall i: nat, j: nat | i < n :: j in neighbors[i] <==>
        exists o :: o in overlaps[..k] && o.IsStrong() &&
          ((o.left == i && o.right == j) || (o.left == j && o.right == i))
    {
      var pair := overlaps[k];
      assert overlaps[..k + 1] == overlaps[..k] + [pair];
      if pair.IsStrong() {
        neighbors := neighbors[pair.left := neighbors[pair.left] + [pair.right]];
        neighbors := neighbors[pair.right := neighbors[pair.right] + [pair.left]];
      }
    }
    assert overlaps[..|overlaps|] == overlaps;
    ghost var unsorted := neighbors;
    for i := 0 to n
      invariant |neighbors| == n
      invariant forall k: nat | k < n :: Elements(neighbors[k]) == Elements(unsorted[k])
      invariant forall k: nat | k < i :: SortedBy(NatLe, neighbors[k])
    {
      SortBySorts(NatLe, neighbors[i]);
      SortByMembers(NatLe, neighbors[i]);
      neighbors := neighbors[i := SortBy(NatLe, neighbors[i])];
    }
    forall i: nat, j: nat | i < n
      ensures j in neighbors[i] <==> j < n && ((j < i && adj(j, i)) || (i < j && adj(i, j)))
    {
      assert j in neighbors[i] <==> j in Elements(unsorted[i]);
    }
  }

  method AllAdjacent(adjacent: seq<nat>, members: seq<nat>) returns (all: bool)
    ensures all <==> forall m | m in members :: m in adjacent
  {
    for k := 0 to |members|
      invariant forall m | m in members[..k] :: m in adjacent
    {
      if members[k] !in adjacent { return false; }
      assert members[..k + 1] == members[..k] + [members[k]];
    }
    assert members[..|members|] == members;
    return true;
  }

  method CoverByNeighbors(n: nat, overlaps: seq<PairOverlap>, ghost adj: Adjacency) returns (result: seq<nat>)
    requires OverlapsOf(adj, n, overlaps)
    ensures result == Cover(adj, n)
  {
    hide OverlapsOf, FitsFirst, Cover, NeighborsOf, Assigned, SeedPass;
    var neighbors := Neighbors(n, overlaps, adj);
    var groupOf := new nat[n](_ => n);
    CoverSize(adj, n);
    NothingAssigned(adj, groupOf[..], n);
    for seed := 0 to n
      invariant Assigned(groupOf[..], Cover(adj, n), n, seed, {})
    {
      if groupOf[seed] != n {
        SeedTaken(adj, groupOf[..], n, seed);
        continue;
      }
      SeedStarts(adj, groupOf[..], n, seed);
      var members: seq<nat> := [seed];
      ghost var start: seq<nat> := groupOf[..];
      groupOf[seed] := seed;
      assert groupOf[..] == start[seed := seed];
      NeighborsAre(adj, n, neighbors, seed);
      var candidates := neighbors[seed];
      PassStarts(adj, groupOf[..], n, seed, candidates);
      for k := 0 to |candidates|
        invariant SeedPass(groupOf[..], Cover(adj, n), n, seed, candidates, k, members)
      {
        var candidate := candidates[k];
        assert candidate in neighbors[seed];
        Visit(adj, groupOf[..], n, seed, candidates, k, members);
        if groupOf[candidate] != n {
          AlreadyAssigned(adj, groupOf[..], n, seed, candidates, k, members);
          continue;
        }
        NeighborJoins(adj, groupOf[..], n, seed, neighbors, k, members);
        NeighborsAre(adj, n, neighbors, candidate);
        var all := AllAdjacent(neighbors[candidate], members);
        if all {
          ghost var was: seq<nat> := groupOf[..];
          members := members + [candidate];
          groupOf[candidate] := seed;
          assert groupOf[..] == was[candidate := seed];
        }
      }
      PassEnds(adj, groupOf[..], n, seed, candidates, members);
      SeedFinishes(adj, groupOf[..], n, seed, {seed} + Elements(candidates));
    }
    result := groupOf[..];
    AllAssigned(adj, groupOf[..], n);
  }

  lemma {:induction false} CoverSize(adj: Adjacency, n: nat)
    ensures |Cover(adj, n)| == n
  {
    CoverIsFirstFit(adj, n);
  }

  lemma {:induction false} NothingAssigned(adj: Adjacency, groupOf: seq<nat>, n: nat)
    requires |groupOf| == n && forall i | 0 <= i < n :: groupOf[i] == n
    ensures Assigned(groupOf, Cover(adj, n), n, 0, {})
  {
    hide Cover;
    CoverSize(adj, n);
  }

  lemma {:induction false} AllAssigned(adj: Adjacency, groupOf: seq<nat>, n: nat)
    requires Assigned(groupOf, Cover(adj, n), n, n, {})
    ensures groupOf == Cover(adj, n)
  {
    hide Cover;
    forall i: nat | i < n ensures groupOf[i] == Cover(adj, n)[i] { CoverBelow(adj, n, i); }
  }

  lemma {:induction false} NeighborsAre(adj: Adjacency, n: nat, neighbors: seq<seq<nat>>, i: nat)
    requires NeighborsOf(adj, n, neighbors) && i < n
    ensures |neighbors| == n && forall j: nat | j in neighbors[i] :: j < n
    ensures forall j: nat | i < j < n && j !in neighbors[i] :: !adj(i, j)
  {
  }

  lemma {:induction false} PassStarts(adj: Adjacency, groupOf: seq<nat>, n: nat, seed: nat, candidates: seq<nat>)
    requires seed < n && Assigned(groupOf, Cover(adj, n), n, seed, {seed})
    ensures SeedPass(groupOf, Cover(adj, n), n, seed, candidates, 0, [seed])
  {
    hide Cover;
    assert {seed} + Elements(candidates[..0]) == {seed};
  }

  lemma {:induction false} PassEnds(adj: Adjacency, groupOf: seq<nat>, n: nat, seed: nat, candidates: seq<nat>, members: seq<nat>)
    requires SeedPass(groupOf, Cover(adj, n), n, seed, candidates, |candidates|, members)
    ensures Assigned(groupOf, Cover(adj, n), n, seed, {seed} + Elements(candidates))
  {
    hide Cover, Assigned;
    assert candidates[..|candidates|] == candidates;
  }

  /** A candidate with a group belongs to an earlier one, or is a member already. */
  lemma {:induction false} AlreadyAssigned(adj: Adjacency, groupOf: seq<nat>, n: nat, seed: nat, candidates: seq<nat>,
    k: nat, members: seq<nat>)
    requires SeedPass(groupOf, Cover(adj, n), n, seed, candidates, k, members)
    requires k < |candidates| && candidates[k] < n && groupOf[candidates[k]] != n
    ensures Cover(adj, n)[candidates[k]] != seed || candidates[k] in members
  {
    hide Cover;
  }

  lemma {:induction false} CoverBelow(adj: Adjacency, n: nat, i: nat)
    requires i < n
    ensures Cover(adj, n)[i] < n
  {
    CoverIsFirstFit(adj, n);
    assert FitsFirst(adj, Cover(adj, n), i);
  }

  /** Whether an unassigned neighbour is adjacent to every member so far decides whether it joins. */
  lemma {:induction false} NeighborJoins(adj: Adjacency, groupOf: seq<nat>, n: nat, seed: nat, neighbors: seq<seq<nat>>,
    k: nat, members: seq<nat>)
    requires seed < n && NeighborsOf(adj, n, neighbors) && k < |neighbors[seed]|
    requires neighbors[seed][k] < n
    requires Cover(adj, n)[seed] == seed
    requires SeedPass(groupOf, Cover(adj, n), n, seed, neighbors[seed], k, members)
    requires groupOf[neighbors[seed][k]] == n
    ensures neighbors[seed][k] !in members
    ensures Cover(adj, n)[neighbors[seed][k]] == seed <==>
      forall m | m in members :: m in neighbors[neighbors[seed][k]]
  {
    var candidates, g := neighbors[seed], Cover(adj, n);
    CoverIsFirstFit(adj, n);
    assert FitsFirst(adj, g, candidates[k]);
    assert candidates[k] in candidates;
    forall j: nat | seed < j < n && g[j] == seed ensures j in candidates {
      assert FitsFirst(adj, g, j);
    }
    CandidateDecided(adj, groupOf, n, seed, candidates, k, members);
  }

  // ---- Groups and suggestions from clusters, overlaps and group numbers ----

  function Suggest(o: PairOverlap, a: string, b: string): OverlapSuggestion {
    OverlapSuggestion(MinText(a, b), MaxText(a, b), o.common, o.lowerBound)
  }

  predicate SuggestionLe(a: OverlapSuggestion, b: OverlapSuggestion) {
    if a.leftName != b.leftName then TextLe(a.leftName, b.leftName)
    else if a.rightName != b.rightName then TextLe(a.rightName, b.rightName)
    else a.commonIdCount <= b.commonIdCount
  }

  ghost predicate InBounds(clusters: seq<AliasCluster>, overlaps: seq<PairOverlap>) {
    forall o | o in overlaps :: o.left < o.right < |clusters|
  }

  /** o links two groups, and a and b are names of the clusters it links. */
  ghost predicate Links(clusters: seq<AliasCluster>, groupOf: seq<nat>, o: PairOverlap, a: string, b: string) {
    && o.left < |clusters| && o.right < |clusters| && |groupOf| == |clusters|
    && groupOf[o.left] != groupOf[o.right]
    && a in clusters[o.left].names && b in clusters[o.right].names
  }

  /** Every suggestion shows a pair of names that some overlap links across two groups. */
  ghost predicate SuggestionsSound(clusters: seq<AliasCluster>, overlaps: seq<PairOverlap>,
    groupOf: seq<nat>, suggestions: seq<OverlapSuggestion>)
  {
    forall s | s in suggestions ::
      exists o, a, b :: o in overlaps && Links(clusters, groupOf, o, a, b) && s == Suggest(o, a, b)
  }

  ghost predicate SuggestionsComplete(clusters: seq<AliasCluster>, overlaps: seq<PairOverlap>,
    groupOf: seq<nat>, suggestions: seq<OverlapSuggestion>)
  {
    forall o, a, b | o in overlaps && Links(clusters, groupOf, o, a, b) :: Suggest(o, a, b) in suggestions
  }

  // The suggestions in the order in which they are made.

  function SuggestRow(o: PairOverlap, a: string, rights: seq<string>): seq<OverlapSuggestion> {
    if rights == [] then [] else [Suggest(o, a, rights[0])] + SuggestRow(o, a, rights[1..])
  }

  function SuggestAll(o: PairOverlap, lefts: seq<string>, rights: seq<string>): seq<OverlapSuggestion> {
    if lefts == [] then [] else SuggestRow(o, lefts[0], rights) + SuggestAll(o, lefts[1..], rights)
  }

  /** One suggestion for every pair of names of every overlap between two groups. */
  function Suggestions(clusters: seq<AliasCluster>, overlaps: seq<PairOverlap>, groupOf: seq<nat>): seq<OverlapSuggestion>
    requires |groupOf| == |clusters| && forall o | o in overlaps :: o.left < o.right < |clusters|
  {
    if overlaps == [] then []
    else
      var o := overlaps[0];
      (if groupOf[o.left] == groupOf[o.right] then [] else SuggestAll(o, clusters[o.left].names, clusters[o.right].names)) +
      Suggestions(clusters, overlaps[1..], groupOf)
  }

  function Cut<T>(s: seq<T>, limit: nat): (r: seq<T>)
    ensures |r| <= limit && r <= s
  {
    if |s| <= limit then s else s[..limit]
  }

  lemma {:induction false} SuggestRowMembers(o: PairOverlap, a: string, rights: seq<string>)
    ensures forall s :: s in SuggestRow(o, a, rights) <==> exists b :: b in rights && s == Suggest(o, a, b)
  {
    hide Suggest;
    if rights != [] {
      SuggestRowMembers(o, a, rights[1..]);
      assert forall b :: b in rights <==> b == rights[0] || b in rights[1..];
    }
  }

  ghost predicate InPair(o: PairOverlap, lefts: seq<string>, rights: seq<string>, s: OverlapSuggestion) {
    exists a, b :: a in lefts && b in rights && s == Suggest(o, a, b)
  }

  lemma {:induction false} InPairFirst(o: PairOverlap, lefts: seq<string>, rights: seq<string>, s: OverlapSuggestion)
    requires lefts != []
    ensures InPair(o, lefts, rights, s) <==>
      (exists b :: b in rights && s == Suggest(o, lefts[0], b)) || InPair(o, lefts[1..], rights, s)
  {
    hide Suggest;
    assert forall a :: a in lefts <==> a == lefts[0] || a in lefts[1..];
  }

  lemma {:induction false} SuggestAllMembers(o: PairOverlap, lefts: seq<string>, rights: seq<string>)
    ensures forall s :: s in SuggestAll(o, lefts, rights) <==> InPair(o, lefts, rights, s)
  {
    hide Suggest, InPair;
    if lefts == [] {
      forall s ensures !InPair(o, lefts, rights, s) { NoPair(o, rights, s); }
    } else {
      SuggestAllMembers(o, lefts[1..], rights);
      SuggestRowMembers(o, lefts[0], rights);
      forall s ensures s in SuggestAll(o, lefts, rights) <==> InPair(o, lefts, rights, s) { InPairFirst(o, lefts, rights, s); }
    }
  }

  lemma {:induction false} NoPair(o: PairOverlap, rights: seq<string>, s: OverlapSuggestion)
    ensures !InPair(o, [], rights, s)
  {}

  lemma {:induction false} SuggestionsMembers(clusters: seq<AliasCluster>, overlaps: seq<PairOverlap>, groupOf: seq<nat>)
    requires |groupOf| == |clusters| && InBounds(clusters, overlaps)
    ensures SuggestionsSound(clusters, overlaps, groupOf, Suggestions(clusters, overlaps, groupOf))
    ensures SuggestionsComplete(clusters, overlaps, groupOf, Suggestions(clusters, overlaps, groupOf))
  {
    hide Suggest;
    if overlaps != [] {
      SuggestionsMembers(clusters, overlaps[1..], groupOf);
      var o := overlaps[0];
      SuggestAllMembers(o, clusters[o.left].names, clusters[o.right].names);
      assert forall x :: x in overlaps <==> x == o || x in overlaps[1..];
      forall s | s in Suggestions(clusters, overlaps, groupOf)
        ensures exists x, a, b :: x in overlaps && Links(clusters, groupOf, x, a, b) && s == Suggest(x, a, b)
      {
        if s in Suggestions(clusters, overlaps[1..], groupOf) {
          var x, a, b :| x in overlaps[1..] && Links(clusters, groupOf, x, a, b) && s == Suggest(x, a, b);
          assert x in overlaps;
        } else {
          var a, b :| a in clusters[o.left].names && b in clusters[o.right].names && s == Suggest(o, a, b);
          assert Links(clusters, groupOf, o, a, b);
        }
      }
      forall x, a, b | x in overlaps && Links(clusters, groupOf, x, a, b)
        ensures Suggest(x, a, b) in Suggestions(clusters, overlaps, groupOf)
      {
        if x !in overlaps[1..] { assert InPair(o, clusters[o.left].names, clusters[o.right].names, Suggest(x, a, b)); }
      }
    }
  }

  lemma {:induction false} CutBefore<T>(out: seq<T>, rest: seq<T>, limit: nat)
    requires |out| == limit && rest != []
    ensures Cut(out + rest, limit) == out && |out + rest| > limit
  {
    assert (out + rest)[..limit] == out;
  }

  lemma {:induction false} CutTwice<T>(a: seq<T>, b: seq<T>, limit: nat)
    requires |a| > limit
    ensures Cut(a + b, limit) == Cut(a, limit) && |a + b| > limit
  {
    assert (a + b)[..limit] == a[..limit];
  }

  method SuggestNames(o: PairOverlap, a: string, rights: seq<string>, suggestions: seq<OverlapSuggestion>, limit: nat)
    returns (out: seq<OverlapSuggestion>, truncated: bool)
    requires |suggestions| <= limit
    ensures out == Cut(suggestions + SuggestRow(o, a, rights), limit)
    ensures truncated <==> |suggestions + SuggestRow(o, a, rights)| > limit
  {
    hide Suggest, Cut;
    out, truncated := suggestions, false;
    ghost var all := suggestions + SuggestRow(o, a, rights);
    assert rights[0..] == rights;
    for r := 0 to |rights|
      invariant |out| <= limit
      invariant out + SuggestRow(o, a, rights[r..]) == all
    {
      assert rights[r..][1..] == rights[r + 1..];
      if |out| == limit {
        CutBefore(out, SuggestRow(o, a, rights[r..]), limit);
        return out, true;
      }
      assert (out + [Suggest(o, a, rights[r])]) + SuggestRow(o, a, rights[r + 1..]) == out + SuggestRow(o, a, rights[r..]);
      out := out + [Suggest(o, a, rights[r])];
    }
    assert out == all by { assert rights[|rights|..] == []; }
    NoCut(out, limit);
  }

  lemma {:induction false} NoCut<T>(s: seq<T>, limit: nat)
    requires |s| <= limit
    ensures Cut(s, limit) == s
  {}

  method SuggestPair(o: PairOverlap, lefts: seq<string>, rights: seq<string>,
    suggestions: seq<OverlapSuggestion>, limit: nat) returns (out: seq<OverlapSuggestion>, truncated: bool)
    requires |suggestions| <= limit
    ensures out == Cut(suggestions + SuggestAll(o, lefts, rights), limit)
    ensures truncated <==> |suggestions + SuggestAll(o, lefts, rights)| > limit
  {
    hide Cut, SuggestRow;
    out, truncated := suggestions, false;
    ghost var all := suggestions + SuggestAll(o, lefts, rights);
    assert lefts[0..] == lefts;
    for l := 0 to |lefts|
      invariant |out| <= limit && !truncated
      invariant out + SuggestAll(o, lefts[l..], rights) == all
    {
      assert lefts[l..][1..] == lefts[l + 1..];
      ghost var whole := out + SuggestRow(o, lefts[l], rights);
      assert whole + SuggestAll(o, lefts[l + 1..], rights) == out + SuggestAll(o, lefts[l..], rights);
      out, truncated := SuggestNames(o, lefts[l], rights, out, limit);
      if truncated {
        CutTwice(whole, SuggestAll(o, lefts[l + 1..], rights), limit);
        return;
      }
      NoCut(whole, limit);
    }
    assert out == all by { assert lefts[|lefts|..] == []; }
    NoCut(out, limit);
  }

  method SuggestOverlaps(clusters: seq<AliasCluster>, overlaps: seq<PairOverlap>, groupOf: seq<nat>, limit: nat)
    returns (out: seq<OverlapSuggestion>, truncated: bool)
    requires InBounds(clusters, overlaps) && |groupOf| == |clusters|
    ensures out == Cut(Suggestions(clusters, overlaps, groupOf), limit)
    ensures truncated <==> |Suggestions(clusters, overlaps, groupOf)| > limit
  {
    hide SuggestAll, Cut;
    out, truncated := [], false;
    ghost var all := Suggestions(clusters, overlaps, groupOf);
    assert overlaps[0..] == overlaps;
    for k := 0 to |overlaps|
      invariant |out| <= limit && !truncated
      invariant out + Suggestions(clusters, overlaps[k..], groupOf) == all
    {
      var o := overlaps[k];
      assert overlaps[k..][1..] == overlaps[k + 1..];
      if groupOf[o.left] == groupOf[o.right] { continue; }
      ghost var whole := out + SuggestAll(o, clusters[o.left].names, clusters[o.right].names);
      assert whole + Suggestions(clusters, overlaps[k + 1..], groupOf) == out + Suggestions(clusters, overlaps[k..], groupOf);
      out, truncated := SuggestPair(o, clusters[o.left].names, clusters[o.right].names, out, limit);
      if truncated {
        CutTwice(whole, Suggestions(clusters, overlaps[k + 1..], groupOf), limit);
        return;
      }
      NoCut(whole, limit);
    }
    assert out == all by { assert overlaps[|overlaps|..] == []; }
    NoCut(out, limit);
  }

  method GroupNames(gid: GroupIdOf, clusters: seq<AliasCluster>, groupOf: seq<nat>) returns (groups: seq<IdentityGroup>)
    requires |groupOf| == |clusters|
    requires forall i | 0 <= i < |groupOf| :: groupOf[i] < |groupOf|
    ensures groups == SortBy(GroupLe, Emit(gid, NameLists(clusters), groupOf, |groupOf|))
  {
    hide SortBy;
    ghost var lists := NameLists(clusters);
    var namesByGroup: seq<seq<string>> := seq(|clusters|, _ => []);
    for i := 0 to |clusters|
      invariant |namesByGroup| == |clusters|
      invariant forall s: nat | s < |clusters| :: namesByGroup[s] == Gather(lists, groupOf, s, i)
    {
      namesByGroup := namesByGroup[groupOf[i] := namesByGroup[groupOf[i]] + clusters[i].names];
    }
    groups := [];
    for s := 0 to |clusters|
      invariant groups == Emit(gid, lists, groupOf, s)
    {
      var names := namesByGroup[s];
      SortByMembers(TextLe, names);
      assert groups + [] == groups;
      if |names| < 2 { continue; }
      names := SortBy(TextLe, names);
      groups := groups + [IdentityGroup(gid(names), names)];
    }
    groups := SortBy(GroupLe, groups);
  }

  /** The suggestions are the first ones in the order of the pairs, as many as the limit admits,
      sorted; and it is said whether there are more. */
  ghost predicate SuggestsUpTo(clusters: seq<AliasCluster>, ordered: seq<PairOverlap>, groupOf: seq<nat>, limit: nat,
    result: IdentityAnalysis)
  {
    && |groupOf| == |clusters| && InBounds(clusters, ordered)
    && result.overlapSuggestions == SortBy(SuggestionLe, Cut(Suggestions(clusters, ordered, groupOf), limit))
    && (result.overlapSuggestionsTruncated <==> |Suggestions(clusters, ordered, groupOf)| > limit)
  }

  lemma {:induction false} SuggestionOrder()
    ensures forall a, b :: SuggestionLe(a, b) || SuggestionLe(b, a)
    ensures forall a, b, c | SuggestionLe(a, b) && SuggestionLe(b, c) :: SuggestionLe(a, c)
  {
    hide TextLe;
    TextOrders();
  }

  lemma {:induction false} AnalysisInOrder(clusters: seq<AliasCluster>, ordered: seq<PairOverlap>, groupOf: seq<nat>,
    limit: nat, result: IdentityAnalysis)
    requires SuggestsUpTo(clusters, ordered, groupOf, limit, result)
    ensures SortedBy(SuggestionLe, result.overlapSuggestions)
  {
    hide SuggestionLe, SortBy, Suggestions;
    SuggestionOrder();
    SortBySorts(SuggestionLe, Cut(Suggestions(clusters, ordered, groupOf), limit));
  }

  /** Overlaps without a mark make suggestions without one. */
  lemma {:induction false} UnmarkedStay(clusters: seq<AliasCluster>, overlaps: seq<PairOverlap>, groupOf: seq<nat>,
    suggestions: seq<OverlapSuggestion>)
    requires SuggestionsSound(clusters, overlaps, groupOf, suggestions)
    requires forall o | o in overlaps :: !o.lowerBound
    ensures forall s | s in suggestions :: !s.commonIdCountIsLowerBound
  {}

  lemma {:induction false} SortedSuggestions(clusters: seq<AliasCluster>, overlaps: seq<PairOverlap>, groupOf: seq<nat>,
    limit: nat, result: IdentityAnalysis)
    requires InBounds(clusters, overlaps) && SuggestsUpTo(clusters, SortBy(PairLe, overlaps), groupOf, limit, result)
    ensures SuggestionsSound(clusters, overlaps, groupOf, result.overlapSuggestions)
    ensures !result.overlapSuggestionsTruncated ==>
      SuggestionsComplete(clusters, overlaps, groupOf, result.overlapSuggestions)
  {
    hide SortBy, Suggestions, Links, Suggest;
    var ordered := SortBy(PairLe, overlaps);
    SameElements(PairLe, overlaps);
    SuggestionsMembers(clusters, ordered, groupOf);
    var cut := Cut(Suggestions(clusters, ordered, groupOf), limit);
    SameElements(SuggestionLe, cut);
    forall s | s in result.overlapSuggestions
      ensures exists o, a, b :: o in overlaps && Links(clusters, groupOf, o, a, b) && s == Suggest(o, a, b)
    {
      assert s in cut && s in Suggestions(clusters, ordered, groupOf);
      var o, a, b :| o in ordered && Links(clusters, groupOf, o, a, b) && s == Suggest(o, a, b);
      assert o in overlaps;
    }
  }

  lemma {:induction false} SameElements<T>(le: (T, T) -> bool, s: seq<T>)
    ensures forall x :: x in SortBy(le, s) <==> x in s
  {
    hide SortBy;
    SortByMembers(le, s);
    assert forall x :: x in SortBy(le, s) <==> x in Elements(s);
  }

  /** Groups and suggestions for clusters whose adjacency is adj. The group numbers are
      those given, or come from the strong overlaps when none are given. */
  method BuildAnalysis(gid: GroupIdOf, clusters: seq<AliasCluster>, overlaps: seq<PairOverlap>,
    limit: nat, given: seq<nat>, ghost adj: Adjacency) returns (result: IdentityAnalysis)
    requires InBounds(clusters, overlaps)
    requires if given == [] then OverlapsOf(adj, |clusters|, overlaps) else given == Cover(adj, |clusters|)
    ensures result.exactGroups ==
      SortBy(GroupLe, Emit(gid, NameLists(clusters), Cover(adj, |clusters|), |clusters|))
    ensures SuggestsUpTo(clusters, SortBy(PairLe, overlaps), Cover(adj, |clusters|), limit, result)
    ensures SuggestionsSound(clusters, overlaps, Cover(adj, |clusters|), result.overlapSuggestions)
    ensures !result.overlapSuggestionsTruncated ==>
      SuggestionsComplete(clusters, overlaps, Cover(adj, |clusters|), result.overlapSuggestions)
    ensures result.weakIdEvidence == []
  {
    hide SortBy, Suggestions, SuggestionsSound, SuggestionsComplete, OverlapsOf, Emit;
    var ordered := SortBy(PairLe, overlaps);
    SameElements(PairLe, overlaps);
    var groupOf := given;
    if groupOf == [] {
      SameOverlaps(adj, |clusters|, overlaps, ordered);
      groupOf := CoverByNeighbors(|clusters|, ordered, adj);
    }
    CoverIsFirstFit(adj, |clusters|);
    forall i: nat | i < |clusters| ensures groupOf[i] < |clusters| { assert FitsFirst(adj, groupOf, i); }
    var groups := GroupNames(gid, clusters, groupOf);
    var suggestions, truncated := SuggestOverlaps(clusters, ordered, groupOf, limit);
    result := IdentityAnalysis(groups, SortBy(SuggestionLe, suggestions), [], truncated);
    SortedSuggestions(clusters, overlaps, groupOf, limit, result);
  }

  lemma {:induction false} SameOverlaps(adj: Adjacency, n: nat, overlaps: seq<PairOverlap>, ordered: seq<PairOverlap>)
    requires OverlapsOf(adj, n, overlaps) && forall o :: o in ordered <==> o in overlaps
    ensures OverlapsOf(adj, n, ordered)
  {
  }

  // ---- From clusters back to the entries they stand for ----

  ghost predicate Represents(es: seq<AliasEntry>, key: CanonicalKey, clusters: seq<AliasCluster>,
    classes: Adjacency, f: seq<int>, first: seq<nat>)
  {
    && Compresses(KeyAdjacency(es, key), |es|, classes, |clusters|, f, first)
    && NameLists(clusters) == ClassLists(NamesOf(es), f, |clusters|, |es|)
  }

  /** The cover of the clusters emits the groups of the entries. */
  lemma {:induction false} ClustersEmitExactGroups(gid: GroupIdOf, entries: seq<AliasEntry>, es: seq<AliasEntry>,
    key: CanonicalKey, clusters: seq<AliasCluster>, classes: Adjacency, f: seq<int>, first: seq<nat>)
    requires es == SortBy(EntryLe, entries)
    requires Represents(es, key, clusters, classes, f, first)
    ensures SortBy(GroupLe, Emit(gid, NameLists(clusters), Cover(classes, |clusters|), |clusters|)) ==
      ExactGroups(gid, key, entries)
  {
    hide SortBy, Emit;
    CompressionKeepsCover(KeyAdjacency(es, key), |es|, classes, |clusters|, f, first);
    CompressionKeepsGroups(gid, NamesOf(es), Cover(classes, |clusters|), f, first);
  }

  lemma {:induction false} ClassNamesAre(names: seq<string>, f: seq<int>, c: int, k: nat, name: string)
    requires k <= |names| && k <= |f|
    ensures name in ClassNames(names, f, c, k) <==> exists p :: 0 <= p < k && f[p] == c && names[p] == name
  {
    if k > 0 { ClassNamesAre(names, f, c, k - 1, name); }
  }

  lemma {:induction false} GroupsCorrespond(es: seq<AliasEntry>, key: CanonicalKey, clusters: seq<AliasCluster>,
    classes: Adjacency, f: seq<int>, first: seq<nat>, p: nat, q: nat)
    requires Represents(es, key, clusters, classes, f, first)
    requires p < |es| && q < |es| && 0 <= f[p] && 0 <= f[q]
    ensures GroupNumbers(es, key)[p] == GroupNumbers(es, key)[q] <==>
      Cover(classes, |clusters|)[f[p]] == Cover(classes, |clusters|)[f[q]]
  {
    CompressionKeepsCover(KeyAdjacency(es, key), |es|, classes, |clusters|, f, first);
    var h := Cover(classes, |clusters|);
    assert h[f[p]] < |clusters| && h[f[q]] < |clusters|;
    assert f[first[h[f[p]]]] == h[f[p]] && f[first[h[f[q]]]] == h[f[q]];
  }

  /** What an overlap between clusters says about any two entries they stand for. */
  ghost predicate OverlapsMean(es: seq<AliasEntry>, key: CanonicalKey, f: seq<int>, overlaps: seq<PairOverlap>) {
    |f| == |es| &&
    forall o, p: nat, q: nat | o in overlaps && p < |es| && q < |es| && f[p] == o.left && f[q] == o.right ::
      && 0 < o.common <= |Keys(es[p], key) * Keys(es[q], key)|
      && (!o.lowerBound ==> o.common == |Keys(es[p], key) * Keys(es[q], key)|)
  }

  lemma {:induction false} ClusterNamesEntry(es: seq<AliasEntry>, key: CanonicalKey, clusters: seq<AliasCluster>,
    classes: Adjacency, f: seq<int>, first: seq<nat>, c: nat, name: string)
    requires Represents(es, key, clusters, classes, f, first) && c < |clusters|
    ensures |f| == |es|
    ensures name in clusters[c].names <==> exists p: nat :: p < |es| && f[p] == c && es[p].name == name
  {
    assert clusters[c].names == NameLists(clusters)[c] == ClassNames(NamesOf(es), f, c, |es|);
    ClassNamesAre(NamesOf(es), f, c, |es|, name);
  }

  lemma {:induction false} SuggestionMeansEntries(es: seq<AliasEntry>, key: CanonicalKey, clusters: seq<AliasCluster>,
    classes: Adjacency, f: seq<int>, first: seq<nat>, overlaps: seq<PairOverlap>,
    o: PairOverlap, a: string, b: string) returns (p: nat, q: nat)
    requires Represents(es, key, clusters, classes, f, first) && OverlapsMean(es, key, f, overlaps)
    requires o in overlaps && Links(clusters, Cover(classes, |clusters|), o, a, b)
    ensures Shows(es, key, Suggest(o, a, b), p, q)
  {
    hide Represents;
    ClusterNamesEntry(es, key, clusters, classes, f, first, o.left, a);
    ClusterNamesEntry(es, key, clusters, classes, f, first, o.right, b);
    p :| p < |es| && f[p] == o.left && es[p].name == a;
    q :| q < |es| && f[q] == o.right && es[q].name == b;
    GroupsCorrespond(es, key, clusters, classes, f, first, p, q);
  }

  lemma {:induction false} SuggestionsMeanEntries(es: seq<AliasEntry>, key: CanonicalKey, clusters: seq<AliasCluster>,
    classes: Adjacency, f: seq<int>, first: seq<nat>, overlaps: seq<PairOverlap>, suggestions: seq<OverlapSuggestion>)
    requires Represents(es, key, clusters, classes, f, first)
    requires OverlapsMean(es, key, f, overlaps)
    requires SuggestionsSound(clusters, overlaps, Cover(classes, |clusters|), suggestions)
    ensures SuggestionsMean(es, key, suggestions)
  {
    hide Represents, Shows, Links, OverlapsMean;
    forall s | s in suggestions ensures exists p: nat, q: nat :: Shows(es, key, s, p, q) {
      var o, a, b :| o in overlaps && Links(clusters, Cover(classes, |clusters|), o, a, b) && s == Suggest(o, a, b);
      var p, q := SuggestionMeansEntries(es, key, clusters, classes, f, first, overlaps, o, a, b);
    }
  }

  lemma {:induction false} EntriesSuggested(es: seq<AliasEntry>, key: CanonicalKey, clusters: seq<AliasCluster>,
    classes: Adjacency, f: seq<int>, first: seq<nat>, overlaps: seq<PairOverlap>,
    suggestions: seq<OverlapSuggestion>, o: PairOverlap, p: nat, q: nat)
    requires Represents(es, key, clusters, classes, f, first)
    requires OverlapsMean(es, key, f, overlaps)
    requires SuggestionsComplete(clusters, overlaps, Cover(classes, |clusters|), suggestions)
    requires o.left < |clusters| && o.right < |clusters|
    requires o in overlaps && p < |es| && q < |es| && f[p] == o.left && f[q] == o.right
    requires GroupNumbers(es, key)[p] != GroupNumbers(es, key)[q]
    ensures Suggested(es, key, suggestions, p, q)
  {
    hide Represents;
    GroupsCorrespond(es, key, clusters, classes, f, first, p, q);
    ClusterNamesEntry(es, key, clusters, classes, f, first, o.left, es[p].name);
    ClusterNamesEntry(es, key, clusters, classes, f, first, o.right, es[q].name);
    assert Links(clusters, Cover(classes, |clusters|), o, es[p].name, es[q].name);
    assert Shows(es, key, Suggest(o, es[p].name, es[q].name), p, q);
  }
}
