/** Ranking candidates by score and accepting the best: the verdict does not depend on the order of
    the candidates, nor on how an unstable sort orders equal scores. */
module IdentityMatcher {
  import opened Options
  import opened Ordering

  /** What the acceptance rule reads of a scored candidate; final scores are clamped to 0..160. */
  datatype Scored = Scored(name: string, visibleLength: nat, symbolic: bool, areaMatched: bool, jobMatched: bool,
    allowStrongIdLock: bool, idScore: int, finalScore: nat)

  /** The acceptance rule. The second candidate counts only with its score, which is 0 if there is none. */
  predicate Accepts(best: Scored, second: nat, cacheInsufficient: bool) {
    var gap := best.finalScore - second;
    best.name != "" &&
    if best.symbolic then
      (best.jobMatched && best.finalScore >= 58 && gap >= 25) ||
      (best.areaMatched && best.jobMatched && best.finalScore >= 78 && gap >= 18)
    else if cacheInsufficient then
      (best.allowStrongIdLock && best.idScore >= 95 && gap >= 18) ||
      (best.visibleLength <= 2 && best.allowStrongIdLock && best.idScore >= 35 && best.finalScore >= 65 && gap >= 10 &&
       (best.areaMatched || best.jobMatched))
    else if best.visibleLength <= 2 then
      (best.allowStrongIdLock && best.idScore >= 95 && best.finalScore >= 95 && gap >= 18) ||
      (best.allowStrongIdLock && best.idScore >= 50 && best.finalScore >= 85 && gap >= 12 &&
       (best.areaMatched || best.jobMatched))
    else if best.visibleLength <= 4 then best.finalScore >= 68 && gap >= 10
    else best.finalScore >= 50 && gap >= 8
  }

  /** The candidate accepted from a ranked list, if any. */
  function Verdict(ranked: seq<Scored>, cacheInsufficient: bool): Option<Scored> {
    if ranked == [] then None
    else
      var second := if |ranked| > 1 then ranked[1].finalScore else 0;
      if Accepts(ranked[0], second, cacheInsufficient) then Some(ranked[0]) else None
  }

  ghost predicate Ranked(scores: seq<Scored>) {
    forall i, j | 0 <= i < j < |scores| :: scores[i].finalScore >= scores[j].finalScore
  }

  /** Whatever is accepted is strictly ahead of every other candidate, by at least 8. */
  lemma {:induction false} AcceptedIsAhead(ranked: seq<Scored>, cacheInsufficient: bool)
    requires Ranked(ranked) && Verdict(ranked, cacheInsufficient).Some?
    ensures Verdict(ranked, cacheInsufficient) == Some(ranked[0])
    ensures forall i | 0 < i < |ranked| :: ranked[0].finalScore >= ranked[i].finalScore + 8
  {
  }

  /** How far the best is ahead of the second, or of nothing. */
  function Lead(ranked: seq<Scored>): int
    requires ranked != []
  {
    ranked[0].finalScore - if |ranked| > 1 then ranked[1].finalScore else 0
  }

  /** A name of symbols is never accepted without its job, however strong the rest. */
  lemma {:induction false} SymbolsNeedTheirJob(ranked: seq<Scored>, cacheInsufficient: bool)
    requires Ranked(ranked) && ranked != [] && ranked[0].symbolic && ranked[0].name != ""
    ensures Verdict(ranked, cacheInsufficient).Some? <==>
      && ranked[0].jobMatched
      && ((ranked[0].finalScore >= 58 && Lead(ranked) >= 25) ||
        (ranked[0].finalScore >= 78 && Lead(ranked) >= 18 && ranked[0].areaMatched))
  {
  }

  /** With too few frames only a strong ID is accepted, or a weaker one of a short name in its context. */
  lemma {:induction false} FewFramesNeedAnId(ranked: seq<Scored>)
    requires Ranked(ranked) && ranked != [] && !ranked[0].symbolic && ranked[0].name != ""
    ensures var best := ranked[0];
      Verdict(ranked, true).Some? <==>
        && best.allowStrongIdLock
        && ((best.idScore >= 95 && Lead(ranked) >= 18) ||
          (best.idScore >= 35 && best.visibleLength <= 2 && best.finalScore >= 65 && Lead(ranked) >= 10 &&
            (best.areaMatched || best.jobMatched)))
  {
  }

  /** With frames enough a short name still needs a strong ID, or its context; a longer one only a score and
      a lead, both the smaller the longer the name. */
  lemma {:induction false} EnoughFrames(ranked: seq<Scored>)
    requires Ranked(ranked) && ranked != [] && !ranked[0].symbolic && ranked[0].name != ""
    ensures var best := ranked[0];
      && (best.visibleLength <= 2 ==>
        (Verdict(ranked, false).Some? <==>
          && best.allowStrongIdLock
          && ((best.idScore >= 95 && best.finalScore >= 95 && Lead(ranked) >= 18) ||
            (best.idScore >= 50 && best.finalScore >= 85 && Lead(ranked) >= 12 && (best.areaMatched || best.jobMatched)))))
      && (3 <= best.visibleLength <= 4 ==>
        (Verdict(ranked, false).Some? <==> best.finalScore >= 68 && Lead(ranked) >= 10))
      && (best.visibleLength >= 5 ==>
        (Verdict(ranked, false).Some? <==> best.finalScore >= 50 && Lead(ranked) >= 8))
  {
  }

  /** Nothing nameless is accepted, and nothing from an empty list. */
  lemma {:induction false} NamelessIsRefused(ranked: seq<Scored>, cacheInsufficient: bool)
    requires ranked == [] || ranked[0].name == ""
    ensures Verdict(ranked, cacheInsufficient).None?
  {
  }

  /** Two rankings of the same scores agree in the best and the second score, if the best is ahead. */
  lemma {:induction false} RankingsAgree(a: seq<Scored>, b: seq<Scored>)
    requires multiset(a) == multiset(b) && Ranked(a) && Ranked(b) && a != []
    requires forall i | 0 < i < |a| :: a[0].finalScore > a[i].finalScore
    ensures |a| == |b| && b[0] == a[0]
    ensures |a| > 1 ==> b[1].finalScore == a[1].finalScore
  {
    assert |multiset(a)| == |a| && |multiset(b)| == |b|;
    var k := IndexIn(a, b, a[0]);
    var j := IndexIn(b, a, b[0]);
    assert b[0].finalScore >= b[k].finalScore;
    if |a| > 1 { SecondsAgree(a, b); }
  }

  lemma {:induction false} IndexIn(a: seq<Scored>, b: seq<Scored>, x: Scored) returns (k: nat)
    requires multiset(a) == multiset(b) && x in a
    ensures k < |b| && b[k] == x
  {
    assert x in multiset(a);
    assert x in b;
    k :| 0 <= k < |b| && b[k] == x;
  }

  lemma {:induction false} SecondsAgree(a: seq<Scored>, b: seq<Scored>)
    requires multiset(a) == multiset(b) && Ranked(a) && Ranked(b) && |a| > 1 && |b| > 1 && b[0] == a[0]
    ensures b[1].finalScore == a[1].finalScore
  {
    TailsAgree(a, b);
    var k := IndexIn(a[1..], b[1..], a[1]);
    var j := IndexIn(b[1..], a[1..], b[1]);
    assert b[1].finalScore >= b[1..][k].finalScore && a[1].finalScore >= a[1..][j].finalScore;
  }

  lemma {:induction false} TailsAgree(a: seq<Scored>, b: seq<Scored>)
    requires multiset(a) == multiset(b) && a != [] && b != [] && a[0] == b[0]
    ensures multiset(a[1..]) == multiset(b[1..])
  {
    assert a == [a[0]] + a[1..] && b == [b[0]] + b[1..];
    assert multiset(a[1..]) == multiset(a) - multiset{a[0]};
    assert multiset(b[1..]) == multiset(b) - multiset{b[0]};
  }

  /** The verdict depends only on which scores there are, not on their order among equals. */
  lemma {:induction false} VerdictIgnoresOrder(a: seq<Scored>, b: seq<Scored>, cacheInsufficient: bool)
    requires multiset(a) == multiset(b) && Ranked(a) && Ranked(b)
    ensures Verdict(a, cacheInsufficient) == Verdict(b, cacheInsufficient)
  {
    hide Ranked, Accepts;
    assert |multiset(a)| == |a| && |multiset(b)| == |b|;
    if Verdict(a, cacheInsufficient).Some? {
      AcceptedIsAhead(a, cacheInsufficient);
      RankingsAgree(a, b);
    }
    if Verdict(b, cacheInsufficient).Some? {
      AcceptedIsAhead(b, cacheInsufficient);
      RankingsAgree(b, a);
    }
  }

  // ---- From candidates ----

  datatype Candidate = Candidate(name: string, profile: string)

  function Scores(candidates: seq<Candidate>, score: Candidate -> Scored): seq<Scored> {
    if candidates == [] then []
    else
      var front := Scores(candidates[..|candidates| - 1], score);
      var last := candidates[|candidates| - 1];
      if last.name == "" then front else front + [score(last)]
  }

  ghost predicate IsRankingOf(ranked: seq<Scored>, scores: seq<Scored>) {
    multiset(ranked) == multiset(scores) && Ranked(ranked)
  }

  function Without(candidates: seq<Candidate>, i: nat): seq<Candidate>
    requires i < |candidates|
  {
    candidates[..i] + candidates[i + 1..]
  }

  lemma {:induction false} ScoresConcat(a: seq<Candidate>, b: seq<Candidate>, score: Candidate -> Scored)
    ensures Scores(a + b, score) == Scores(a, score) + Scores(b, score)
  {
    if b == [] { assert a + b == a; }
    else {
      assert (a + b)[..|a + b| - 1] == a + b[..|b| - 1];
      ScoresConcat(a, b[..|b| - 1], score);
    }
  }

  lemma {:induction false} ScoresWithout(candidates: seq<Candidate>, i: nat, score: Candidate -> Scored)
    requires i < |candidates|
    ensures multiset(Scores(candidates, score)) ==
      multiset(Scores(Without(candidates, i), score)) + multiset(Scores([candidates[i]], score))
  {
    hide Scores;
    assert candidates == candidates[..i] + ([candidates[i]] + candidates[i + 1..]);
    ScoresConcat(candidates[..i], [candidates[i]] + candidates[i + 1..], score);
    ScoresConcat([candidates[i]], candidates[i + 1..], score);
    ScoresConcat(candidates[..i], candidates[i + 1..], score);
  }

  lemma {:induction false} ScoresIgnoreOrder(a: seq<Candidate>, b: seq<Candidate>, score: Candidate -> Scored)
    requires multiset(a) == multiset(b)
    ensures multiset(Scores(a, score)) == multiset(Scores(b, score))
  {
    hide Scores;
    assert |multiset(a)| == |a| && |multiset(b)| == |b|;
    if a == [] {
      assert b == [];
    } else {
      var last := a[|a| - 1];
      assert last in multiset(b);
      var k: nat :| k < |b| && b[k] == last;
      assert a == Without(a, |a| - 1) + [last];
      assert b == b[..k] + [last] + b[k + 1..];
      assert multiset(Without(b, k)) == multiset(b) - multiset{last};
      ScoresIgnoreOrder(Without(a, |a| - 1), Without(b, k), score);
      ScoresWithout(a, |a| - 1, score);
      ScoresWithout(b, k, score);
    }
  }

  ghost function NamedPlaces(candidates: seq<Candidate>): set<nat> {
    set i: nat | i < |candidates| && candidates[i].name != ""
  }

  lemma {:induction false} OneMorePlace(front: seq<Candidate>, last: Candidate)
    ensures |NamedPlaces(front + [last])| == |NamedPlaces(front)| + if last.name == "" then 0 else 1
  {
    var all := NamedPlaces(front + [last]);
    if last.name == "" { assert all == NamedPlaces(front); } else { assert all == NamedPlaces(front) + {|front|}; }
  }

  lemma {:induction false} NoPlaces()
    ensures |NamedPlaces([])| == 0
  {
  }

  /** Nameless candidates are not scored; every other one is, as often as it is there. */
  lemma {:induction false} NamedAreScored(candidates: seq<Candidate>, score: Candidate -> Scored)
    ensures |Scores(candidates, score)| == |NamedPlaces(candidates)|
    ensures forall s :: s in Scores(candidates, score) <==> exists c :: c in candidates && c.name != "" && score(c) == s
  {
    hide NamedPlaces;
    if candidates == [] {
      NoPlaces();
    } else {
      var front, last := candidates[..|candidates| - 1], candidates[|candidates| - 1];
      NamedAreScored(front, score);
      assert candidates == front + [last];
      OneMorePlace(front, last);
    }
  }

  /** The same candidates in any order, sorted by any sort, give the same verdict. */
  lemma {:induction false} MatchIgnoresOrder(a: seq<Candidate>, b: seq<Candidate>, score: Candidate -> Scored,
    rankedA: seq<Scored>, rankedB: seq<Scored>, cacheInsufficient: bool)
    requires multiset(a) == multiset(b)
    requires IsRankingOf(rankedA, Scores(a, score)) && IsRankingOf(rankedB, Scores(b, score))
    ensures Verdict(rankedA, cacheInsufficient) == Verdict(rankedB, cacheInsufficient)
  {
    hide Scores, Verdict, Ranked;
    ScoresIgnoreOrder(a, b, score);
    VerdictIgnoresOrder(rankedA, rankedB, cacheInsufficient);
  }

  /** Score the named candidates, rank them, and apply the acceptance rule to the first two. */
  method MatchPanel(candidates: seq<Candidate>, score: Candidate -> Scored, cacheInsufficient: bool)
    returns (accepted: Option<Scored>, ranked: seq<Scored>)
    ensures IsRankingOf(ranked, Scores(candidates, score))
    ensures accepted == Verdict(ranked, cacheInsufficient)
  {
    var scores: seq<Scored> := [];
    for i := 0 to |candidates|
      invariant scores == Scores(candidates[..i], score)
    {
      assert candidates[..i + 1][..i] == candidates[..i];
      if candidates[i].name != "" { scores := scores + [score(candidates[i])]; }
    }
    assert candidates[..|candidates|] == candidates;
    SortRanks(scores);
    ranked := SortBy(Descending, scores);
    accepted := None;
    if ranked != [] {
      var second := if |ranked| > 1 then ranked[1].finalScore else 0;
      if Accepts(ranked[0], second, cacheInsufficient) { accepted := Some(ranked[0]); }
    }
  }

  predicate Descending(a: Scored, b: Scored) { a.finalScore >= b.finalScore }

  /** Sorting by descending score is one such ranking. */
  lemma {:induction false} SortRanks(scores: seq<Scored>)
    ensures IsRankingOf(SortBy(Descending, scores), scores)
  {
    hide SortBy;
    SortBySorts(Descending, scores);
    var ranked := SortBy(Descending, scores);
    forall i, j | 0 <= i < j < |ranked| ensures ranked[i].finalScore >= ranked[j].finalScore {
      assert Descending(ranked[i], ranked[j]);
    }
  }
}
