/** The table that the matcher's scores use gives the true length of a longest common subsequence. */
module LongestCommonSubsequence {

  /** c is a subsequence of a: its elements stand in a at increasing places. */
  ghost predicate Embeds(c: string, a: string, places: seq<nat>) {
    && |places| == |c|
    && (forall i | 0 <= i < |c| :: places[i] < |a| && a[places[i]] == c[i])
    && (forall i, j | 0 <= i < j < |c| :: places[i] < places[j])
  }

  ghost predicate IsSubsequence(c: string, a: string) { exists places :: Embeds(c, a, places) }

  function Max(a: nat, b: nat): nat { if a < b then b else a }

  function Lcs(a: string, b: string): nat
    decreases |a| + |b|
  {
    if a == "" || b == "" then 0
    else if a[|a| - 1] == b[|b| - 1] then Lcs(a[..|a| - 1], b[..|b| - 1]) + 1
    else Max(Lcs(a[..|a| - 1], b), Lcs(a, b[..|b| - 1]))
  }

  lemma {:induction false} EmbedsLonger(c: string, a: string, places: seq<nat>)
    requires a != "" && Embeds(c, a[..|a| - 1], places)
    ensures Embeds(c, a, places)
  {
  }

  lemma {:induction false} EmbedsWith(c: string, a: string, places: seq<nat>)
    requires a != "" && Embeds(c, a[..|a| - 1], places)
    ensures Embeds(c + [a[|a| - 1]], a, places + [|a| - 1])
  {
  }

  lemma {:induction false} EmbedsWithoutLast(c: string, a: string, places: seq<nat>)
    requires c != "" && Embeds(c, a, places)
    ensures a != "" && Embeds(c[..|c| - 1], a[..|a| - 1], places[..|c| - 1])
    ensures places[|c| - 1] == |a| - 1 ==> c[|c| - 1] == a[|a| - 1]
    ensures places[|c| - 1] < |a| - 1 ==> Embeds(c, a[..|a| - 1], places)
  {
    assert places[|c| - 1] < |a|;
  }

  /** There is a common subsequence of this length. */
  lemma {:induction false} LcsIsAttained(a: string, b: string) returns (c: string, inA: seq<nat>, inB: seq<nat>)
    ensures |c| == Lcs(a, b) && Embeds(c, a, inA) && Embeds(c, b, inB)
    decreases |a| + |b|
  {
    if a == "" || b == "" {
      c, inA, inB := "", [], [];
    } else if a[|a| - 1] == b[|b| - 1] {
      c, inA, inB := LcsIsAttained(a[..|a| - 1], b[..|b| - 1]);
      EmbedsWith(c, a, inA);
      EmbedsWith(c, b, inB);
      c, inA, inB := c + [a[|a| - 1]], inA + [|a| - 1], inB + [|b| - 1];
    } else if Lcs(a[..|a| - 1], b) < Lcs(a, b[..|b| - 1]) {
      c, inA, inB := LcsIsAttained(a, b[..|b| - 1]);
      EmbedsLonger(c, b, inB);
    } else {
      c, inA, inB := LcsIsAttained(a[..|a| - 1], b);
      EmbedsLonger(c, a, inA);
    }
  }

  /** No common subsequence is longer. */
  lemma {:induction false} LcsIsLongest(a: string, b: string, c: string, inA: seq<nat>, inB: seq<nat>)
    requires Embeds(c, a, inA) && Embeds(c, b, inB)
    ensures |c| <= Lcs(a, b)
    decreases |a| + |b|
  {
    hide Embeds;
    if c != "" {
      EmbedsWithoutLast(c, a, inA);
      EmbedsWithoutLast(c, b, inB);
      PlacesLast(c, a, inA);
      PlacesLast(c, b, inB);
      if a[|a| - 1] == b[|b| - 1] {
        LcsIsLongest(a[..|a| - 1], b[..|b| - 1], c[..|c| - 1], inA[..|c| - 1], inB[..|c| - 1]);
      } else if inA[|c| - 1] < |a| - 1 {
        LcsIsLongest(a[..|a| - 1], b, c, inA, inB);
      } else {
        LcsIsLongest(a, b[..|b| - 1], c, inA, inB);
      }
    }
  }

  lemma {:induction false} PlacesLast(c: string, a: string, places: seq<nat>)
    requires c != "" && Embeds(c, a, places)
    ensures |places| == |c| && places[|c| - 1] <= |a| - 1
  {
    assert places[|c| - 1] < |a|;
  }

  ghost predicate IsCommon(a: string, b: string, c: string) { IsSubsequence(c, a) && IsSubsequence(c, b) }

  lemma {:induction false} EmptyLcs(a: string, b: string)
    ensures a == "" || b == "" ==> Lcs(a, b) == 0
  {
  }

  lemma {:induction false} EmptyRows(a: string, b: string)
    ensures forall y | 0 <= y <= |b| :: Lcs(a[..0], b[..y]) == 0
    ensures forall x | 0 <= x <= |a| :: Lcs(a[..x], b[..0]) == 0
  {
  }

  lemma {:induction false} LcsStep(a: string, b: string, i: nat, j: nat)
    requires 0 < i <= |a| && 0 < j <= |b|
    ensures Lcs(a[..i], b[..j]) == if a[i - 1] == b[j - 1] then Lcs(a[..i - 1], b[..j - 1]) + 1
      else Max(Lcs(a[..i - 1], b[..j]), Lcs(a[..i], b[..j - 1]))
  {
    assert a[..i][..i - 1] == a[..i - 1] && b[..j][..j - 1] == b[..j - 1];
  }

  /** Fill the table row by row. */
  method LcsLen(a: string, b: string) returns (length: nat)
    ensures length == Lcs(a, b)
    ensures exists c :: IsCommon(a, b, c) && |c| == length
    ensures forall c | IsCommon(a, b, c) :: |c| <= length
  {
    hide IsSubsequence, Embeds, Lcs, IsCommon;
    LcsIsTheLength(a, b);
    EmptyLcs(a, b);
    var n, m := |a|, |b|;
    if n == 0 || m == 0 { return 0; }
    EmptyRows(a, b);
    var table := new nat[n + 1, m + 1]((i, j) => 0);
    for i := 1 to n + 1
      invariant forall x, y | 0 <= x < i && 0 <= y <= m :: table[x, y] == Lcs(a[..x], b[..y])
      invariant forall x, y | i <= x <= n && 0 <= y <= m :: table[x, y] == 0
    {
      for j := 1 to m + 1
        invariant forall x, y | 0 <= x < i && 0 <= y <= m :: table[x, y] == Lcs(a[..x], b[..y])
        invariant forall y | 0 <= y < j :: table[i, y] == Lcs(a[..i], b[..y])
        invariant forall x, y | i < x <= n && 0 <= y <= m :: table[x, y] == 0
      {
        LcsStep(a, b, i, j);
        if a[i - 1] == b[j - 1] {
          table[i, j] := table[i - 1, j - 1] + 1;
        } else {
          table[i, j] := Max(table[i - 1, j], table[i, j - 1]);
        }
      }
    }
    assert a[..n] == a && b[..m] == b;
    length := table[n, m];
  }

  lemma {:induction false} LcsIsTheLength(a: string, b: string)
    ensures exists c :: IsCommon(a, b, c) && |c| == Lcs(a, b)
    ensures forall c | IsCommon(a, b, c) :: |c| <= Lcs(a, b)
  {
    hide Embeds, Lcs;
    var c, inA, inB := LcsIsAttained(a, b);
    assert IsCommon(a, b, c);
    forall d | IsCommon(a, b, d) ensures |d| <= Lcs(a, b) {
      var pa :| Embeds(d, a, pa);
      var pb :| Embeds(d, b, pb);
      LcsIsLongest(a, b, d, pa, pb);
    }
  }
}
