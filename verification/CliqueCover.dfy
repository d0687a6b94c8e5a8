/** Greedy clique cover of n numbered items, stated without the loops that compute it.
    adj(j, i) is asked only for j < i. Item i joins the earliest group all of whose
    members before i are adjacent to it, and otherwise starts a group numbered i. */
module CliqueCover {

  type Adjacency = (nat, nat) -> bool

  /** Item i is adjacent to every member of group s that comes before it. */
  ghost predicate Fits(adj: Adjacency, g: seq<nat>, s: nat, i: nat)
    requires i <= |g|
  {
    forall j: nat | j < i && g[j] == s :: adj(j, i)
  }

  /** Item i is where first fit puts it, given where the items before it are. */
  ghost predicate FitsFirst(adj: Adjacency, g: seq<nat>, i: nat)
    requires i < |g|
  {
    && g[i] <= i
    && (g[i] < i ==> g[g[i]] == g[i] && Fits(adj, g, g[i], i))
    && (forall s: nat | s < g[i] && g[s] == s :: !Fits(adj, g, s, i))
  }

  ghost predicate IsFirstFit(adj: Adjacency, n: nat, g: seq<nat>) {
    |g| == n && forall i: nat | i < n :: FitsFirst(adj, g, i)
  }

  /** First fit determines every group. */
  lemma {:induction false} FirstFitUnique(adj: Adjacency, n: nat, g: seq<nat>, h: seq<nat>)
    requires IsFirstFit(adj, n, g) && IsFirstFit(adj, n, h)
    ensures g == h
  {
    var i: nat := 0;
    while i < n
      invariant i <= n
      invariant g[..i] == h[..i]
    {
      assert FitsFirst(adj, g, i) && FitsFirst(adj, h, i);
      assert forall j: nat | j < i :: g[j] == g[..i][j] && h[j] == h[..i][j] && g[j] == h[j];
      assert forall s: nat :: Fits(adj, g, s, i) <==> Fits(adj, h, s, i);
      assert g[..i + 1] == g[..i] + [g[i]] && h[..i + 1] == h[..i] + [h[i]];
      i := i + 1;
    }
  }

  ghost function Place(adj: Adjacency, g: seq<nat>, s: nat): (r: nat)
    requires s <= |g|
    ensures s <= r <= |g|
    ensures r < |g| ==> g[r] == r && Fits(adj, g, r, |g|)
    ensures forall t: nat | s <= t < r && g[t] == t :: !Fits(adj, g, t, |g|)
    decreases |g| - s
  {
    if s == |g| || (g[s] == s && Fits(adj, g, s, |g|)) then s else Place(adj, g, s + 1)
  }

  lemma {:induction false} FitsFirstExtends(adj: Adjacency, h: seq<nat>, x: nat, i: nat)
    requires i < |h| && FitsFirst(adj, h, i)
    ensures FitsFirst(adj, h + [x], i)
  {
    var g := h + [x];
    assert forall j: nat | j < |h| :: g[j] == h[j];
    forall s: nat | s < g[i] && g[s] == s ensures !Fits(adj, g, s, i) {
      assert !Fits(adj, h, s, i);
    }
  }

  /** The cover: the group number of each of n items. */
  ghost function Cover(adj: Adjacency, n: nat): (g: seq<nat>)
    ensures |g| == n
  {
    if n == 0 then [] else Cover(adj, n - 1) + [Place(adj, Cover(adj, n - 1), 0)]
  }

  lemma {:induction false} CoverIsFirstFit(adj: Adjacency, n: nat)
    ensures IsFirstFit(adj, n, Cover(adj, n))
  {
    if n > 0 {
      CoverIsFirstFit(adj, n - 1);
      var h := Cover(adj, n - 1);
      var g := Cover(adj, n);
      forall i: nat | i < n ensures FitsFirst(adj, g, i) {
        if i < n - 1 {
          FitsFirstExtends(adj, h, Place(adj, h, 0), i);
        } else {
          assert forall j: nat | j < i :: g[j] == h[j];
          assert forall s: nat :: Fits(adj, g, s, i) <==> Fits(adj, h, s, i);
        }
      }
    }
  }

  /** Members of one group are pairwise adjacent: a group is never a chain. */
  lemma {:induction false} GroupsAreCliques(adj: Adjacency, n: nat, i: nat, j: nat)
    requires j < i < n && Cover(adj, n)[j] == Cover(adj, n)[i]
    ensures adj(j, i)
  {
    CoverIsFirstFit(adj, n);
    var g := Cover(adj, n);
    assert FitsFirst(adj, g, i) && FitsFirst(adj, g, j);
    assert g[i] < i;
  }

  /** An item of a later group misses some member of every earlier group. */
  lemma {:induction false} LaterItemsMissSomeMember(adj: Adjacency, n: nat, s: nat, i: nat) returns (j: nat)
    requires i < n && s < Cover(adj, n)[i] <= i
    requires Cover(adj, n)[s] == s
    ensures j < i && Cover(adj, n)[j] == s && !adj(j, i)
  {
    CoverIsFirstFit(adj, n);
    var g := Cover(adj, n);
    assert FitsFirst(adj, g, i);
    assert !Fits(adj, g, s, i);
    j :| j < i && g[j] == s && !adj(j, i);
  }

  /** What the seed loops use: an item not taken by an earlier group joins group s
      exactly when it is adjacent to every earlier member. */
  lemma {:induction false} JoinsSeed(adj: Adjacency, n: nat, s: nat, i: nat)
    requires s < i < n
    requires var g := Cover(adj, n); g[s] == s && s <= g[i]
    ensures var g := Cover(adj, n); g[i] == s <==> Fits(adj, g, s, i)
  {
    CoverIsFirstFit(adj, n);
    var g := Cover(adj, n);
    assert FitsFirst(adj, g, i);
  }

  // ---- Compressing equal items ----

  /** f sends each of n items to one of m classes, or to nothing; first gives the first
      item of each class, in increasing order. Items of one class are adjacent to each
      other and stand in for each other; items sent to nothing are adjacent to none. */
  ghost predicate Compresses(adj: Adjacency, n: nat, classes: Adjacency, m: nat,
    f: seq<int>, first: seq<nat>)
  {
    && |f| == n && |first| == m
    && (forall i | 0 <= i < n :: -1 <= f[i] < m)
    && (forall c | 0 <= c < m :: first[c] < n && f[first[c]] == c)
    && (forall i | 0 <= i < n && 0 <= f[i] :: first[f[i]] <= i)
    && (forall c, d | 0 <= c < d < m :: first[c] < first[d])
    && (forall i, j | 0 <= j < i < n && f[i] == f[j] && 0 <= f[i] :: adj(j, i))
    && (forall i, j | 0 <= j < i < n && (f[i] < 0 || f[j] < 0) :: !adj(j, i))
    && (forall i, j | 0 <= j < i < n && 0 <= f[j] < f[i] :: adj(j, i) == classes(f[j], f[i]))
    && (forall i, j | 0 <= j < i < n && 0 <= f[i] < f[j] :: adj(j, i) == classes(f[i], f[j]))
  }

  /** The group of an item, read off the cover of the classes. */
  ghost function Lifted(h: seq<nat>, f: seq<int>, first: seq<nat>): (g: seq<nat>)
    requires forall i | 0 <= i < |f| :: f[i] < |h|
    requires forall c | 0 <= c < |h| :: h[c] < |first|
    ensures |g| == |f|
    ensures forall i | 0 <= i < |f| :: g[i] == if f[i] < 0 then i else first[h[f[i]]]
  {
    seq(|f|, i requires 0 <= i < |f| => if f[i] < 0 then i else first[h[f[i]]])
  }

  lemma {:induction false} LiftFits(adj: Adjacency, n: nat, classes: Adjacency, m: nat, f: seq<int>,
    first: seq<nat>, h: seq<nat>, i: nat)
    requires Compresses(adj, n, classes, m, f, first)
    requires IsFirstFit(classes, m, h) && i < n && 0 <= f[i]
    ensures (forall c | 0 <= c < m :: h[c] < m) && FitsFirst(adj, Lifted(h, f, first), i)
  {
    forall c: nat | c < m ensures h[c] <= c && h[h[c]] == h[c] { assert FitsFirst(classes, h, c); }
    var g := Lifted(h, f, first);
    var c := f[i];
    assert FitsFirst(classes, h, c);
    if g[i] < i {
      forall j: nat | j < i && g[j] == g[i] ensures adj(j, i) {
        assert f[first[h[c]]] == h[c];
        if 0 <= f[j] && f[j] != c {
          assert FitsFirst(classes, h, f[j]);
          assert h[f[j]] == h[c];
        }
      }
    }
    forall s: nat | s < g[i] && g[s] == s ensures !Fits(adj, g, s, i) {
      if 0 <= f[s] {
        var t := f[s];
        assert h[t] == t && first[t] == s;
        assert t < h[c];
        assert !Fits(classes, h, t, c);
        var k: nat :| k < c && h[k] == t && !classes(k, c);
        assert g[first[k]] == s && first[k] < i && f[first[k]] == k;
      }
    }
  }

  /** The cover of the classes, lifted to the items, is the cover of the items. */
  lemma {:induction false} CompressionKeepsCover(adj: Adjacency, n: nat, classes: Adjacency, m: nat,
    f: seq<int>, first: seq<nat>)
    requires Compresses(adj, n, classes, m, f, first)
    ensures forall c | 0 <= c < m :: Cover(classes, m)[c] < m
    ensures Cover(adj, n) == Lifted(Cover(classes, m), f, first)
  {
    CoverIsFirstFit(classes, m);
    CoverIsFirstFit(adj, n);
    var h := Cover(classes, m);
    forall c: nat | c < m ensures h[c] < m { assert FitsFirst(classes, h, c); }
    var g := Lifted(h, f, first);
    forall i: nat | i < n ensures FitsFirst(adj, g, i) {
      if 0 <= f[i] {
        LiftFits(adj, n, classes, m, f, first, h, i);
      } else {
        forall s: nat | s < i && g[s] == s ensures !Fits(adj, g, s, i) {
          assert !adj(s, i);
        }
      }
    }
    FirstFitUnique(adj, n, g, Cover(adj, n));
  }
}
