/** Planning an import: before anything changes, the rows are set aside whose cloud IDs do not agree
    with the owners that the library, or the rest of the payload, gives them. */
module LibraryPlanning {
  import opened Options
  import opened Collections
  import opened PlayerLibrary
  import opened LibraryJoin
  import opened LibraryCoalescing
  import opened LibrarySyncing
  import opened LibraryDeferred
  import opened LibraryImport

  datatype Reason = ExistingCloudOwner | MultipleCloudAssignments

  datatype Skipped = Skipped(row: Incoming, reason: Reason)

  datatype Planning = Refused | Planned(accepted: seq<Incoming>, skipped: seq<Skipped>)

  /** The indexes of the library at the time of planning. */
  datatype Known = Known(byName: map<string, nat>, byCloud: map<string, set<nat>>)

  // ---- Which rows conflict ----

  ghost predicate Has(w: Known, cloud: string, k: nat) { cloud in w.byCloud && k in w.byCloud[cloud] }

  ghost predicate Owner(w: Known, k: nat) { exists cloud :: Has(w, cloud, k) }

  /** The row would give its cloud ID to an entity not known under it. */
  ghost predicate Meets(w: Known, row: Incoming, k: nat) {
    row.cloudId.Some? && k in MatchSet(w.byName, w.byCloud, row) && !Has(w, row.cloudId.value, k)
  }

  ghost predicate BlockedAt(w: Known, row: Incoming, k: nat) { Meets(w, row, k) && Owner(w, k) }

  ghost predicate Blocked(w: Known, row: Incoming) { exists k: nat :: BlockedAt(w, row, k) }

  ghost predicate Claims(w: Known, row: Incoming, k: nat) { Meets(w, row, k) && !Owner(w, k) }

  ghost predicate Rivals(w: Known, a: Incoming, b: Incoming, k: nat) {
    Claims(w, a, k) && Claims(w, b, k) && a.cloudId != b.cloudId
  }

  /** Another row claims one of the row's matches under another cloud ID. */
  ghost predicate Contested(w: Known, rows: seq<Incoming>, i: nat)
    requires i < |rows|
  {
    exists j: nat, k: nat :: j < |rows| && Rivals(w, rows[i], rows[j], k)
  }

  ghost predicate Conflicts(w: Known, rows: seq<Incoming>, i: nat)
    requires i < |rows|
  {
    Blocked(w, rows[i]) || Contested(w, rows, i)
  }

  function Kept(rows: seq<Incoming>, rejected: map<nat, Reason>, n: nat): seq<Incoming>
    requires n <= |rows|
  {
    if n == 0 then []
    else Kept(rows, rejected, n - 1) + if n - 1 in rejected then [] else [rows[n - 1]]
  }

  function Dropped(rows: seq<Incoming>, rejected: map<nat, Reason>, n: nat): seq<Skipped>
    requires n <= |rows|
  {
    if n == 0 then []
    else Dropped(rows, rejected, n - 1) + if n - 1 in rejected then [Skipped(rows[n - 1], rejected[n - 1])] else []
  }

  /** Exactly the conflicting rows are rejected, the contested ones as such. */
  ghost predicate RejectsConflicts(w: Known, rows: seq<Incoming>, rejected: map<nat, Reason>) {
    && (forall i: nat :: i in rejected <==> i < |rows| && Conflicts(w, rows, i))
    && (forall i: nat | i in rejected && i < |rows| ::
      rejected[i] == if Contested(w, rows, i) then MultipleCloudAssignments else ExistingCloudOwner)
  }

  // ---- The table of planned cloud IDs ----

  /** For each entity and cloud ID, the rows that want to give one to the other. */
  type Plans = map<nat, map<string, seq<nat>>>

  function PlansOf(planned: Plans, k: nat): map<string, seq<nat>> { if k in planned then planned[k] else map[] }

  function RowsOf(planned: Plans, k: nat, cloud: string): seq<nat> {
    if cloud in PlansOf(planned, k) then PlansOf(planned, k)[cloud] else []
  }

  function Put(planned: Plans, k: nat, cloud: string, i: nat): Plans {
    planned[k := PlansOf(planned, k)[cloud := RowsOf(planned, k, cloud) + [i]]]
  }

  ghost predicate NoEmptyPlan(planned: Plans) {
    forall k, cloud | k in planned && cloud in planned[k] :: planned[k][cloud] != []
  }

  lemma {:induction false} PutAdds(planned: Plans, k: nat, cloud: string, i: nat)
    ensures forall j: nat, c ::
      RowsOf(Put(planned, k, cloud, i), j, c) == RowsOf(planned, j, c) + if j == k && c == cloud then [i] else []
    ensures NoEmptyPlan(planned) ==> NoEmptyPlan(Put(planned, k, cloud, i))
  {
  }

  ghost predicate Wants(w: Known, rows: seq<Incoming>, r: nat, k: nat, cloud: string) {
    r < |rows| && Claims(w, rows[r], k) && rows[r].cloudId == Some(cloud)
  }

  /** The rows before i, and row i as far as its matches have been seen. */
  ghost predicate PlansRows(w: Known, rows: seq<Incoming>, i: nat, seen: set<nat>, planned: Plans) {
    forall k: nat, cloud: string, r: nat ::
      r in RowsOf(planned, k, cloud) <==> Wants(w, rows, r, k, cloud) && (r < i || (r == i && k in seen))
  }

  /** Of the rows before i, and of row i as far as seen, those blocked are rejected. */
  ghost predicate RejectsBlocked(w: Known, rows: seq<Incoming>, i: nat, seen: set<nat>, rejected: map<nat, Reason>) {
    && (forall r: nat :: r in rejected <==>
      r < |rows| && ((r < i && Blocked(w, rows[r])) || (r == i && exists k: nat :: k in seen && BlockedAt(w, rows[r], k))))
    && (forall r: nat | r in rejected :: rejected[r] == ExistingCloudOwner)
  }

  method CloudOwners(byCloud: map<string, set<nat>>, ghost w: Known) returns (owners: set<nat>)
    requires w.byCloud == byCloud
    ensures forall k: nat :: k in owners <==> Owner(w, k)
  {
    owners := {};
    var left := byCloud.Keys;
    while left != {}
      invariant left <= byCloud.Keys
      invariant forall k: nat :: k in owners <==> exists c :: c !in left && Has(w, c, k)
      decreases left
    {
      var cloud :| cloud in left;
      owners := owners + byCloud[cloud];
      ghost var rest := left - {cloud};
      assert forall k: nat | k in byCloud[cloud] :: Has(w, cloud, k);
      assert forall c :: c !in rest <==> c !in left || c == cloud;
      left := left - {cloud};
    }
  }

  // ---- The first pass: owners, and plans ----

  /** Whether a row may go on after one of its matches. */
  ghost predicate Passes(w: Known, rows: seq<Incoming>, i: nat, seen: set<nat>, planned: Plans, rejected: map<nat, Reason>) {
    PlansRows(w, rows, i, seen, planned) && RejectsBlocked(w, rows, i, seen, rejected) && NoEmptyPlan(planned)
  }

  lemma {:induction false} SeesOne(w: Known, rows: seq<Incoming>, i: nat, seen: set<nat>, planned: Plans,
    rejected: map<nat, Reason>, k: nat)
    requires i < |rows| && k !in seen && Passes(w, rows, i, seen, planned, rejected)
    ensures BlockedAt(w, rows[i], k) ==> Passes(w, rows, i, seen + {k}, planned, rejected[i := ExistingCloudOwner])
    ensures Claims(w, rows[i], k) ==> Passes(w, rows, i, seen + {k}, Put(planned, k, rows[i].cloudId.value, i), rejected)
    ensures !Meets(w, rows[i], k) ==> Passes(w, rows, i, seen + {k}, planned, rejected)
  {
    hide Owner, MatchSet, Has;
    if Claims(w, rows[i], k) { SeesClaim(w, rows, i, seen, planned, rejected, k); }
    assert BlockedAt(w, rows[i], k) ==> !Claims(w, rows[i], k);
  }

  lemma {:induction false} SeesClaim(w: Known, rows: seq<Incoming>, i: nat, seen: set<nat>, planned: Plans,
    rejected: map<nat, Reason>, k: nat)
    requires i < |rows| && k !in seen && Passes(w, rows, i, seen, planned, rejected) && Claims(w, rows[i], k)
    requires rows[i].cloudId.Some?
    ensures Passes(w, rows, i, seen + {k}, Put(planned, k, rows[i].cloudId.value, i), rejected)
  {
    hide Claims, BlockedAt, Put, RowsOf, NoEmptyPlan;
    NotBoth(w, rows[i], k);
    var cloud := rows[i].cloudId.value;
    PutAdds(planned, k, cloud, i);
    forall j: nat, c, r: nat
      ensures r in RowsOf(Put(planned, k, cloud, i), j, c) <==>
        Wants(w, rows, r, j, c) && (r < i || (r == i && j in seen + {k}))
    {
      assert r in RowsOf(Put(planned, k, cloud, i), j, c) <==>
        r in RowsOf(planned, j, c) || (j == k && c == cloud && r == i);
    }
  }

  lemma {:induction false} NotBoth(w: Known, row: Incoming, k: nat)
    ensures !(Claims(w, row, k) && BlockedAt(w, row, k))
  {
  }

  lemma {:induction false} RowSeen(w: Known, rows: seq<Incoming>, i: nat, planned: Plans, rejected: map<nat, Reason>)
    requires i < |rows|
    requires Passes(w, rows, i, if rows[i].cloudId.None? then {} else MatchSet(w.byName, w.byCloud, rows[i]), planned, rejected)
    ensures Passes(w, rows, i + 1, {}, planned, rejected)
  {
    hide MatchSet, Has, Owner;
  }

  lemma {:induction false} NothingSeen(w: Known, rows: seq<Incoming>)
    ensures Passes(w, rows, 0, {}, map[], map[])
  {
    var none: Plans := map[];
    assert forall k: nat, cloud :: RowsOf(none, k, cloud) == [];
  }

  /** Enter one row's claims, or find that some match has another owner. */
  method PlanRow(entities: seq<Entity>, w: Known, owners: set<nat>, rows: seq<Incoming>, i: nat, skip: bool,
    planned: Plans, rejected: map<nat, Reason>) returns (ok: bool, plans: Plans, rejects: map<nat, Reason>)
    requires Indexed(entities, w.byName) && CloudIndexed(entities, w.byCloud) && i < |rows|
    requires forall k: nat :: k in owners <==> Owner(w, k)
    requires Passes(w, rows, i, {}, planned, rejected)
    ensures ok ==> Passes(w, rows, i + 1, {}, plans, rejects)
    ensures ok <==> skip || !Blocked(w, rows[i])
  {
    hide Indexed, CloudIndexed, Passes, Owner, MatchSet, Put;
    plans, rejects := planned, rejected;
    if rows[i].cloudId.None? {
      RowSeen(w, rows, i, plans, rejects);
      return true, plans, rejects;
    }
    var cloud := rows[i].cloudId.value;
    var matched := Matches(entities, w.byName, w.byCloud, rows[i]);
    var left := matched;
    assert matched - left == {};
    while left != {}
      invariant left <= matched && Passes(w, rows, i, matched - left, plans, rejects)
      invariant skip || forall k: nat | k in matched - left :: !BlockedAt(w, rows[i], k)
      decreases left
    {
      var k: nat :| k in left;
      SeesOne(w, rows, i, matched - left, plans, rejects, k);
      assert matched - (left - {k}) == (matched - left) + {k};
      left := left - {k};
      var known := cloud in w.byCloud && k in w.byCloud[cloud];
      assert known <==> Has(w, cloud, k);
      if k in owners && !known {
        assert BlockedAt(w, rows[i], k);
        if !skip { return false, plans, rejects; }
        rejects := rejects[i := ExistingCloudOwner];
        continue;
      }
      if known { continue; }
      assert Claims(w, rows[i], k);
      plans := Put(plans, k, cloud, i);
    }
    assert matched - left == matched;
    RowSeen(w, rows, i, plans, rejects);
    return true, plans, rejects;
  }

  // ---- The second pass: plans against each other ----

  /** Some entity is planned for under two cloud IDs. */
  ghost predicate Crowded(planned: Plans, k: nat) { k in planned && |planned[k]| > 1 }

  lemma {:induction false} TwoKeys(m: map<string, seq<nat>>, c: string)
    requires c in m
    ensures |m| > 1 <==> exists d :: d in m && d != c
  {
    var rest := m.Keys - {c};
    assert |m.Keys| == |m|;
    assert |rest| == |m| - 1;
    if |m| > 1 { var d :| d in rest; }
    if d :| d in m && d != c { assert {c, d} <= m.Keys; SubsetSize({c, d}, m.Keys); }
  }

  /** A planned row is in a crowded plan exactly when it has a rival there. */
  lemma {:induction false} CrowdedMeansRivals(w: Known, rows: seq<Incoming>, planned: Plans, i: nat, k: nat)
    requires PlansRows(w, rows, |rows|, {}, planned) && NoEmptyPlan(planned) && i < |rows| && Claims(w, rows[i], k)
    ensures k in planned && rows[i].cloudId.Some? && rows[i].cloudId.value in planned[k]
    ensures i in planned[k][rows[i].cloudId.value]
    ensures Crowded(planned, k) <==> exists j: nat :: j < |rows| && Rivals(w, rows[i], rows[j], k)
  {
    hide Owner, MatchSet, Has;
    var cloud := rows[i].cloudId.value;
    assert Wants(w, rows, i, k, cloud);
    assert i in RowsOf(planned, k, cloud);
    TwoKeys(planned[k], cloud);
    if d :| d in planned[k] && d != cloud {
      var j := planned[k][d][0];
      assert j in RowsOf(planned, k, d);
      assert Rivals(w, rows[i], rows[j], k);
    }
    if j: nat :| j < |rows| && Rivals(w, rows[i], rows[j], k) {
      assert Wants(w, rows, j, k, rows[j].cloudId.value);
      assert j in RowsOf(planned, k, rows[j].cloudId.value);
    }
  }

  /** The rows of crowded plans that have been seen are rejected as contested, over what was before. */
  ghost predicate RejectsCrowded(planned: Plans, seen: set<nat>, before: map<nat, Reason>, rejected: map<nat, Reason>) {
    && (forall i: nat :: i in rejected <==> i in before || InCrowd(planned, seen, i))
    && (forall i: nat | i in rejected ::
      rejected[i] == if InCrowd(planned, seen, i) then MultipleCloudAssignments else ExistingCloudOwner)
  }

  ghost predicate InCrowd(planned: Plans, seen: set<nat>, i: nat) {
    exists k: nat, c :: k in seen && Crowded(planned, k) && i in RowsOf(planned, k, c)
  }

  lemma {:induction false} CrowdIsContested(w: Known, rows: seq<Incoming>, planned: Plans, i: nat)
    requires PlansRows(w, rows, |rows|, {}, planned) && NoEmptyPlan(planned)
    ensures InCrowd(planned, planned.Keys, i) <==> i < |rows| && Contested(w, rows, i)
  {
    hide Owner, MatchSet, Has, NoEmptyPlan, Crowded, Claims;
    if k: nat, c :| k in planned.Keys && Crowded(planned, k) && i in RowsOf(planned, k, c) {
      CrowdedMeansRivals(w, rows, planned, i, k);
    }
    if i < |rows| && Contested(w, rows, i) {
      var j: nat, k: nat :| j < |rows| && Rivals(w, rows[i], rows[j], k);
      CrowdedMeansRivals(w, rows, planned, i, k);
      assert i in RowsOf(planned, k, rows[i].cloudId.value);
    }
  }

  lemma {:induction false} CrowdGrows(planned: Plans, seen: set<nat>, k: nat, i: nat)
    ensures Crowded(planned, k) ==>
      (InCrowd(planned, seen + {k}, i) <==> InCrowd(planned, seen, i) || exists c :: i in RowsOf(planned, k, c))
    ensures !Crowded(planned, k) ==> (InCrowd(planned, seen + {k}, i) <==> InCrowd(planned, seen, i))
  {
    hide Crowded, RowsOf;
  }

  method RejectAll(rejected: map<nat, Reason>, rows: seq<nat>) returns (rejects: map<nat, Reason>)
    ensures forall i: nat :: i in rejects <==> i in rejected || i in rows
    ensures forall i: nat | i in rejects :: rejects[i] == if i in rows then MultipleCloudAssignments else rejected[i]
  {
    rejects := rejected;
    for n := 0 to |rows|
      invariant forall i: nat :: i in rejects <==> i in rejected || i in rows[..n]
      invariant forall i: nat | i in rejects :: rejects[i] == if i in rows[..n] then MultipleCloudAssignments else rejected[i]
    {
      assert rows[..n + 1] == rows[..n] + [rows[n]];
      rejects := rejects[rows[n] := MultipleCloudAssignments];
    }
    assert rows[..|rows|] == rows;
  }

  /** Reject every row that wants to give some cloud ID to k. */
  method RejectPlan(planned: Plans, k: nat, rejected: map<nat, Reason>) returns (rejects: map<nat, Reason>)
    requires k in planned
    ensures forall i: nat :: i in rejects <==> i in rejected || exists c :: i in RowsOf(planned, k, c)
    ensures forall i: nat | i in rejects ::
      rejects[i] == if exists c :: i in RowsOf(planned, k, c) then MultipleCloudAssignments else rejected[i]
  {
    rejects := rejected;
    var left := planned[k].Keys;
    while left != {}
      invariant left <= planned[k].Keys
      invariant forall i: nat :: i in rejects <==> i in rejected || exists c :: c !in left && i in RowsOf(planned, k, c)
      invariant forall i: nat | i in rejects ::
        rejects[i] == if exists c :: c !in left && i in RowsOf(planned, k, c) then MultipleCloudAssignments else rejected[i]
      decreases left
    {
      var c :| c in left;
      ghost var rest := left - {c};
      assert planned[k][c] == RowsOf(planned, k, c);
      assert forall d :: d !in rest <==> d !in left || d == c;
      rejects := RejectAll(rejects, planned[k][c]);
      left := left - {c};
    }
  }

  method RejectCrowds(planned: Plans, before: map<nat, Reason>, skip: bool) returns (ok: bool, rejects: map<nat, Reason>)
    requires NoEmptyPlan(planned) && forall i: nat | i in before :: before[i] == ExistingCloudOwner
    ensures ok ==> RejectsCrowded(planned, planned.Keys, before, rejects)
    ensures ok <==> skip || forall i: nat :: !InCrowd(planned, planned.Keys, i)
  {
    hide NoEmptyPlan, InCrowd, RowsOf;
    rejects := before;
    var left := planned.Keys;
    assert planned.Keys - left == {};
    assert forall i: nat :: !InCrowd(planned, {}, i) by { NobodySeen(planned); }
    while left != {}
      invariant left <= planned.Keys && RejectsCrowded(planned, planned.Keys - left, before, rejects)
      invariant skip || forall i: nat :: !InCrowd(planned, planned.Keys - left, i)
      decreases left
    {
      var k: nat :| k in left;
      var seen := planned.Keys - left;
      forall i: nat
        ensures Crowded(planned, k) ==>
          (InCrowd(planned, seen + {k}, i) <==> InCrowd(planned, seen, i) || exists c :: i in RowsOf(planned, k, c))
        ensures !Crowded(planned, k) ==> (InCrowd(planned, seen + {k}, i) <==> InCrowd(planned, seen, i))
      {
        CrowdGrows(planned, seen, k, i);
      }
      left := left - {k};
      assert planned.Keys - left == seen + {k};
      if |planned[k]| > 1 {
        if !skip {
          CrowdHasRow(planned, k);
          return false, rejects;
        }
        rejects := RejectPlan(planned, k, rejects);
      }
    }
    assert planned.Keys - left == planned.Keys;
    return true, rejects;
  }

  lemma {:induction false} NobodySeen(planned: Plans)
    ensures forall i: nat :: !InCrowd(planned, {}, i)
  {
  }

  lemma {:induction false} CrowdHasRow(planned: Plans, k: nat)
    requires NoEmptyPlan(planned) && Crowded(planned, k)
    ensures exists i: nat :: InCrowd(planned, planned.Keys, i)
  {
    assert |planned[k].Keys| == |planned[k]|;
    var c :| c in planned[k].Keys;
    assert planned[k][c][0] in RowsOf(planned, k, c);
    assert InCrowd(planned, planned.Keys, planned[k][c][0]);
  }

  // ---- The whole plan ----

  /** Without leave to skip, any conflict refuses the payload; with it, exactly the conflicting rows
      are skipped, each with its reason, and the others accepted in their order. */
  method Plan(entities: seq<Entity>, w: Known, rows: seq<Incoming>, skip: bool)
    returns (p: Planning, ghost rejected: map<nat, Reason>)
    requires Indexed(entities, w.byName) && CloudIndexed(entities, w.byCloud)
    ensures p.Refused? <==> !skip && exists i: nat :: i < |rows| && Conflicts(w, rows, i)
    ensures p.Planned? ==> RejectsConflicts(w, rows, rejected)
    ensures p.Planned? ==> p == Planned(Kept(rows, rejected, |rows|), Dropped(rows, rejected, |rows|))
  {
    hide Indexed, CloudIndexed, Blocked, Contested, NoEmptyPlan, PlansRows, RejectsBlocked, InCrowd, RejectsCrowded;
    var owners := CloudOwners(w.byCloud, w);
    var planned: Plans, rejects: map<nat, Reason> := map[], map[];
    NothingSeen(w, rows);
    for i := 0 to |rows|
      invariant Passes(w, rows, i, {}, planned, rejects)
      invariant skip || forall r: nat | r < i :: !Blocked(w, rows[r])
    {
      var ok;
      ok, planned, rejects := PlanRow(entities, w, owners, rows, i, skip, planned, rejects);
      if !ok {
        assert Conflicts(w, rows, i);
        return Refused, map[];
      }
    }
    ghost var before := rejects;
    BlockedAreRejected(w, rows, before);
    var ok;
    ok, rejects := RejectCrowds(planned, rejects, skip);
    forall i: nat ensures InCrowd(planned, planned.Keys, i) <==> i < |rows| && Contested(w, rows, i) {
      CrowdIsContested(w, rows, planned, i);
    }
    if !ok {
      ghost var i: nat :| InCrowd(planned, planned.Keys, i);
      assert Conflicts(w, rows, i);
      return Refused, map[];
    }
    BothPasses(w, rows, planned, before, rejects);
    rejected := rejects;
    var accepted: seq<Incoming>, skipped: seq<Skipped> := [], [];
    for i := 0 to |rows|
      invariant accepted == Kept(rows, rejects, i) && skipped == Dropped(rows, rejects, i)
    {
      if i in rejects { skipped := skipped + [Skipped(rows[i], rejects[i])]; } else { accepted := accepted + [rows[i]]; }
    }
    p := Planned(accepted, skipped);
    if !skip { assert forall i: nat | i < |rows| :: !Conflicts(w, rows, i); }
  }

  lemma {:induction false} BlockedAreRejected(w: Known, rows: seq<Incoming>, rejected: map<nat, Reason>)
    requires RejectsBlocked(w, rows, |rows|, {}, rejected)
    ensures forall i: nat :: i in rejected <==> i < |rows| && Blocked(w, rows[i])
    ensures forall i: nat | i in rejected :: rejected[i] == ExistingCloudOwner
  {
    hide Blocked, BlockedAt;
  }

  lemma {:induction false} BothPasses(w: Known, rows: seq<Incoming>, planned: Plans, before: map<nat, Reason>,
    rejected: map<nat, Reason>)
    requires forall i: nat :: i in before <==> i < |rows| && Blocked(w, rows[i])
    requires forall i: nat :: InCrowd(planned, planned.Keys, i) <==> i < |rows| && Contested(w, rows, i)
    requires RejectsCrowded(planned, planned.Keys, before, rejected)
    ensures RejectsConflicts(w, rows, rejected)
  {
    hide Blocked, Contested, InCrowd;
  }

  // ---- What the accepted rows have in common ----

  /** No name and no cloud ID is in two rows of a payload. */
  ghost predicate Separate(rows: seq<Incoming>) {
    forall i: nat, j: nat | i < j < |rows| :: Apart(rows[i], rows[j])
  }

  ghost predicate Apart(a: Incoming, b: Incoming) {
    (forall n | n in a.names :: n !in b.names) && (a.cloudId.Some? ==> a.cloudId != b.cloudId)
  }

  ghost predicate Agreed(w: Known, rows: seq<Incoming>) { forall i: nat | i < |rows| :: !Conflicts(w, rows, i) }

  /** Where the q-th accepted row stood, and after which the p-th. */
  lemma {:induction false} KeptWhere(rows: seq<Incoming>, rejected: map<nat, Reason>, n: nat, p: nat, q: nat) returns (i: nat, j: nat)
    requires n <= |rows| && p <= q < |Kept(rows, rejected, n)|
    ensures i <= j < n && (p < q ==> i < j) && i !in rejected && j !in rejected
    ensures Kept(rows, rejected, n)[p] == rows[i] && Kept(rows, rejected, n)[q] == rows[j]
  {
    var front := Kept(rows, rejected, n - 1);
    if q < |front| {
      i, j := KeptWhere(rows, rejected, n - 1, p, q);
    } else {
      j := n - 1;
      i := j;
      if p < q {
        var at, same := KeptWhere(rows, rejected, n - 1, p, p);
        i := at;
      }
    }
  }

  /** What is accepted is free of conflicts, and still separate. */
  lemma {:induction false} AcceptedAgree(w: Known, rows: seq<Incoming>, rejected: map<nat, Reason>)
    requires RejectsConflicts(w, rows, rejected) && Separate(rows)
    ensures Agreed(w, Kept(rows, rejected, |rows|)) && Separate(Kept(rows, rejected, |rows|))
  {
    hide Blocked, Rivals, Apart;
    var kept := Kept(rows, rejected, |rows|);
    forall p: nat | p < |kept| ensures !Conflicts(w, kept, p) {
      var i, i' := KeptWhere(rows, rejected, |rows|, p, p);
      assert !Conflicts(w, rows, i);
      forall q: nat, k: nat | q < |kept| ensures !Rivals(w, kept[p], kept[q], k) {
        var j, j' := KeptWhere(rows, rejected, |rows|, q, q);
      }
    }
    forall p: nat, q: nat | p < q < |kept| ensures Apart(kept[p], kept[q]) {
      var i, j := KeptWhere(rows, rejected, |rows|, p, q);
    }
  }

  // ---- What is done is what was planned ----

  ghost predicate StartsAt(w: Known, stages: seq<Stage>, rows: seq<Incoming>) {
    StagesDone(stages, rows) && stages[0].byName == w.byName && stages[0].byCloud == w.byCloud
  }

  ghost predicate SameFor(w: Known, stage: Stage, row: Incoming) {
    && (forall n | n in row.names :: n in stage.byName <==> n in w.byName)
    && (forall n | n in row.names && n in w.byName :: stage.byName[n] == w.byName[n])
    && (row.cloudId.Some? ==> (row.cloudId.value in stage.byCloud <==> row.cloudId.value in w.byCloud))
    && (row.cloudId.Some? && row.cloudId.value in w.byCloud ==>
      stage.byCloud[row.cloudId.value] == w.byCloud[row.cloudId.value])
  }

  lemma {:induction false} RowLeavesOthers(a: Stage, b: Stage, done: Incoming, row: Incoming, w: Known)
    requires StageDone(a, b, done) && Apart(done, row) && SameFor(w, a, row)
    ensures SameFor(w, b, row)
  {
    hide MatchSet, Evidenced, Unknown;
    if row.cloudId.Some? { CloudsLeaveOthers(a, b, done, row); }
  }

  lemma {:induction false} CloudsLeaveOthers(a: Stage, b: Stage, done: Incoming, row: Incoming)
    requires StageDone(a, b, done) && Apart(done, row) && row.cloudId.Some?
    ensures row.cloudId.value in b.byCloud <==> row.cloudId.value in a.byCloud
    ensures row.cloudId.value in a.byCloud ==> b.byCloud[row.cloudId.value] == a.byCloud[row.cloudId.value]
  {
    hide Evidenced, Unknown, MatchSet;
    var matched := MatchSet(a.byName, a.byCloud, done);
    if done.cloudId.Some? && |matched| == 1 {
      var k: nat :| k in matched;
    }
  }

  lemma {:induction false} OthersLeaveRow(w: Known, stages: seq<Stage>, rows: seq<Incoming>, m: nat, i: nat)
    requires StartsAt(w, stages, rows) && Separate(rows) && m <= i < |rows|
    ensures SameFor(w, stages[m], rows[i])
  {
    hide StageDone, Apart;
    if m > 0 {
      OthersLeaveRow(w, stages, rows, m - 1, i);
      RowLeavesOthers(stages[m - 1], stages[m], rows[m - 1], rows[i], w);
    }
  }

  /** When its turn comes, a row matches exactly the entities it matched when the import was planned. */
  lemma {:induction false} MatchesAsPlanned(w: Known, stages: seq<Stage>, rows: seq<Incoming>, i: nat)
    requires StartsAt(w, stages, rows) && Separate(rows) && i < |rows|
    ensures MatchSet(stages[i].byName, stages[i].byCloud, rows[i]) == MatchSet(w.byName, w.byCloud, rows[i])
  {
    hide StageDone, Apart;
    OthersLeaveRow(w, stages, rows, i, i);
  }

  // ---- Cloud IDs over the whole import ----

  /** Every entity with a cloud ID is known as an owner. */
  ghost predicate OwnersKnown(w: Known, entities: seq<Entity>) {
    forall k: nat | k < |entities| && entities[k].cloudId.Some? :: Owner(w, k)
  }

  /** The row is the one that gives k its cloud ID. */
  ghost predicate Gives(w: Known, row: Incoming, k: nat) {
    row.cloudId.Some? && MatchSet(w.byName, w.byCloud, row) == {k}
  }

  lemma {:induction false} StageOfEntity(a: Stage, b: Stage, row: Incoming, k: nat)
    requires StageDone(a, b, row) && k < |a.entities|
    ensures k < |b.entities|
    ensures b.entities[k].cloudId ==
      if MatchSet(a.byName, a.byCloud, row) == {k} && a.entities[k].cloudId.None? then row.cloudId else a.entities[k].cloudId
  {
    hide CloudsDone, Unknown, SetOf;
    var matched := MatchSet(a.byName, a.byCloud, row);
    if k in matched {
      assert Evidenced(a.entities[k], b.entities[k], |matched|, row);
      if |matched| == 1 { forall j: nat | j in matched ensures j == k { OnlyMatch(matched, k, j); } }
    }
  }

  lemma {:induction false} EntitiesStay(stages: seq<Stage>, rows: seq<Incoming>, k: nat, m: nat)
    requires StagesDone(stages, rows) && k < |stages[0].entities| && m <= |rows|
    ensures k < |stages[m].entities|
  {
    hide StageDone, MatchSet;
    if m > 0 {
      EntitiesStay(stages, rows, k, m - 1);
      assert StageDone(stages[m - 1], stages[m], rows[m - 1]);
      StageOfEntity(stages[m - 1], stages[m], rows[m - 1], k);
    }
  }

  /** An entity's cloud ID changes only from none, and only to that of a row that matches it alone. */
  lemma {:induction false} CloudIdsComeFromRows(w: Known, stages: seq<Stage>, rows: seq<Incoming>, k: nat, m: nat)
    requires StartsAt(w, stages, rows) && Separate(rows) && k < |stages[0].entities| && m <= |rows|
    ensures k < |stages[m].entities|
    ensures stages[m].entities[k].cloudId == stages[0].entities[k].cloudId || (stages[0].entities[k].cloudId.None? &&
      exists i :: 0 <= i < m && Gives(w, rows[i], k) && stages[m].entities[k].cloudId == rows[i].cloudId)
  {
    hide StageDone, MatchSet, Separate;
    if m > 0 {
      CloudIdsComeFromRows(w, stages, rows, k, m - 1);
      assert StageDone(stages[m - 1], stages[m], rows[m - 1]);
      StageOfEntity(stages[m - 1], stages[m], rows[m - 1], k);
      MatchesAsPlanned(w, stages, rows, m - 1);
    }
  }

  lemma {:induction false} CloudIdStays(stages: seq<Stage>, rows: seq<Incoming>, k: nat, i: nat, m: nat)
    requires StagesDone(stages, rows) && i <= m <= |rows| && k < |stages[i].entities| && stages[i].entities[k].cloudId.Some?
    ensures k < |stages[m].entities| && stages[m].entities[k].cloudId == stages[i].entities[k].cloudId
  {
    hide StageDone, MatchSet;
    if i < m {
      CloudIdStays(stages, rows, k, i, m - 1);
      assert StageDone(stages[m - 1], stages[m], rows[m - 1]);
      StageOfEntity(stages[m - 1], stages[m], rows[m - 1], k);
    }
  }

  lemma {:induction false} NobodyElseGives(w: Known, rows: seq<Incoming>, i: nat, j: nat, k: nat)
    requires Agreed(w, rows) && Separate(rows) && i < |rows| && j < |rows| && i != j
    requires Claims(w, rows[i], k)
    ensures !Gives(w, rows[j], k)
  {
    hide MatchSet;
    assert !Conflicts(w, rows, i);
    assert !Rivals(w, rows[i], rows[j], k);
    assert i < j ==> Apart(rows[i], rows[j]);
    assert j < i ==> Apart(rows[j], rows[i]);
    GivingIsClaiming(w, rows[j], k);
  }

  lemma {:induction false} GivingIsClaiming(w: Known, row: Incoming, k: nat)
    requires !Owner(w, k)
    ensures Gives(w, row, k) ==> Claims(w, row, k)
  {
    hide MatchSet;
  }

  /** Every accepted row that matches one entity, which no cloud ID has yet, gives it the row's. */
  lemma {:induction false} CloudIdLands(w: Known, stages: seq<Stage>, rows: seq<Incoming>, i: nat, k: nat)
    requires StartsAt(w, stages, rows) && Separate(rows) && Agreed(w, rows) && OwnersKnown(w, stages[0].entities)
    requires i < |rows| && k < |stages[0].entities| && Gives(w, rows[i], k) && !Owner(w, k)
    ensures k < |stages[|rows|].entities| && stages[|rows|].entities[k].cloudId == rows[i].cloudId
  {
    hide StageDone, MatchSet, Separate, Agreed;
    assert Claims(w, rows[i], k);
    CloudIdsComeFromRows(w, stages, rows, k, i);
    forall j: nat | j < i ensures !Gives(w, rows[j], k) { NobodyElseGives(w, rows, i, j, k); }
    assert StageDone(stages[i], stages[i + 1], rows[i]);
    StageOfEntity(stages[i], stages[i + 1], rows[i], k);
    MatchesAsPlanned(w, stages, rows, i);
    CloudIdStays(stages, rows, k, i + 1, |rows|);
  }

  // ---- A payload ----

  datatype Outcome = Rejected | Clashing | Imported(library: Library, skipped: seq<Skipped>)

  /** Plan first; without leave to skip, a conflict rejects the payload and nothing changes. A payload
      of which every row was skipped changes nothing either, and runs no automatic pass. */
  method ImportPayload(s: Library, automatic: set<string>, next: nat, w: Known, rows: seq<Incoming>, skip: bool,
    analyse: seq<Entity> -> seq<Candidate>) returns (result: Outcome, ghost rejected: map<nat, Reason>, ghost course: Course)
    requires Indexed(s.entities, w.byName) && CloudIndexed(s.entities, w.byCloud) && Numbered(s.entities, next)
    requires DistinctIds(s.groups) && forall row | row in rows :: row.names != []
    requires forall entities | Unique(entities) :: AreCandidates(entities, analyse(entities))
    ensures result.Rejected? <==> !skip && exists i: nat :: i < |rows| && Conflicts(w, rows, i)
    ensures !result.Rejected? ==> RejectsConflicts(w, rows, rejected)
    ensures !result.Rejected? ==> StartsAt(w, course.stages, Kept(rows, rejected, |rows|)) && course.stages[0].entities == s.entities
    ensures result.Clashing? <==> !result.Rejected? && Clashes(course.joined, course.late)
    ensures result.Imported? ==> result.skipped == Dropped(rows, rejected, |rows|)
    ensures result.Imported? && Kept(rows, rejected, |rows|) == [] && rows != [] ==> result.library == s
    ensures result.Imported? && (Kept(rows, rejected, |rows|) != [] || rows == []) ==>
      Attached(course.joined, course.late, course.given, result.library) &&
      Went(s, automatic, Stage(s.entities, w.byName, w.byCloud, next), Kept(rows, rejected, |rows|), analyse, course)
    ensures result.Imported? ==> forall n :: Keeps(s.entities, result.library.entities, n)
    ensures result.Imported? ==> forall row | row in Kept(rows, rejected, |rows|) :: Offers(result.library.entities, row)
  {
    hide Indexed, CloudIndexed, Numbered, Conflicts, AreCandidates, StageDone, Keeps, Offers, Coalesced, Find, Agreed, Separate,
      Attached, Clashes, DistinctIds, Synced, Remembered, Grouped, SameHomes, Unique;
    var p, conflicting := Plan(s.entities, w, rows, skip);
    rejected, course := conflicting, Course([Stage(s.entities, w.byName, w.byCloud, next)], s, s, [], map[]);
    NothingClashes(s);
    if p.Refused? { return Rejected, rejected, course; }
    KeptAndDropped(rows, rejected, |rows|);
    if p.accepted == [] && p.skipped != [] {
      KeepsAll(s.entities);
      return Imported(s, p.skipped), rejected, course;
    }
    var t, done := Import(s, automatic, next, w.byName, w.byCloud, p.accepted, analyse);
    course := done;
    if t.None? { return Clashing, rejected, course; }
    return Imported(t.value, p.skipped), rejected, course;
  }

  lemma {:induction false} NothingClashes(s: Library)
    ensures !Clashes(s, [])
  {
  }

  lemma {:induction false} KeptAndDropped(rows: seq<Incoming>, rejected: map<nat, Reason>, n: nat)
    requires n <= |rows|
    ensures |Kept(rows, rejected, n)| + |Dropped(rows, rejected, n)| == n
    ensures forall row | row in Kept(rows, rejected, n) :: row in rows
  {
    if n > 0 { KeptAndDropped(rows, rejected, n - 1); }
  }

  lemma {:induction false} KeepsAll(entities: seq<Entity>)
    ensures forall n :: Keeps(entities, entities, n)
  {
    hide Find;
  }

  // ---- A rejected row that rejects another ----

  /** Of the first n rows those that no other owner blocks. */
  ghost function Unblocked(w: Known, rows: seq<Incoming>, n: nat): seq<Incoming>
    requires n <= |rows|
  {
    if n == 0 then []
    else Unblocked(w, rows, n - 1) + if Blocked(w, rows[n - 1]) then [] else [rows[n - 1]]
  }

  lemma {:induction false} UnblockedAre(w: Known, rows: seq<Incoming>, n: nat, row: Incoming)
    requires n <= |rows|
    ensures row in Unblocked(w, rows, n) <==> exists r: nat :: r < n && rows[r] == row && !Blocked(w, rows[r])
  {
    hide Blocked;
    if n > 0 { UnblockedAre(w, rows, n - 1, row); }
  }

  lemma {:induction false} UnblockedAt(w: Known, rows: seq<Incoming>, i: nat, n: nat)
    requires i < n <= |rows| && !Blocked(w, rows[i])
    ensures |Unblocked(w, rows, i)| < |Unblocked(w, rows, n)| && Unblocked(w, rows, n)[|Unblocked(w, rows, i)|] == rows[i]
  {
    hide Blocked;
    if i < n - 1 { UnblockedAt(w, rows, i, n - 1); }
  }

  /** A row that no other owner blocks is rejected because of blocked rows alone, so that without them in
      the payload it would be accepted, exactly if it has rivals and all of them are blocked. */
  lemma {:induction false} RejectedByRejected(w: Known, rows: seq<Incoming>, i: nat)
    requires i < |rows| && !Blocked(w, rows[i])
    ensures |Unblocked(w, rows, i)| < |Unblocked(w, rows, |rows|)| && Unblocked(w, rows, |rows|)[|Unblocked(w, rows, i)|] == rows[i]
    ensures Conflicts(w, rows, i) && !Conflicts(w, Unblocked(w, rows, |rows|), |Unblocked(w, rows, i)|) <==>
      Contested(w, rows, i) && forall r: nat, k: nat | r < |rows| && Rivals(w, rows[i], rows[r], k) :: Blocked(w, rows[r])
  {
    hide Blocked, Rivals, Unblocked;
    UnblockedAt(w, rows, i, |rows|);
    var rest, j := Unblocked(w, rows, |rows|), |Unblocked(w, rows, i)|;
    forall r: nat | r < |rows| && !Blocked(w, rows[r]) ensures rows[r] in rest { UnblockedAre(w, rows, |rows|, rows[r]); }
    if r: nat, k: nat :| r < |rows| && Rivals(w, rows[i], rows[r], k) && !Blocked(w, rows[r]) {
      var q: nat :| q < |rest| && rest[q] == rows[r];
      assert Rivals(w, rest[j], rest[q], k);
    }
    if Contested(w, rest, j) {
      var q: nat, k: nat :| q < |rest| && Rivals(w, rest[j], rest[q], k);
      UnblockedAre(w, rows, |rows|, rest[q]);
    }
  }

  const LIBRARY := Known(map["m" := 0, "n" := 1, "o" := 1], map["x" := {0}])
  const FIRST := Incoming(["m", "n"], [], Some("y"))
  const SECOND := Incoming(["o"], [], Some("z"))

  /** Entity 0 has a cloud ID and entity 1 has none. The first row names both: it is rejected because of
      entity 0, but its claim to entity 1 counts all the same, so the second row is rejected too, which
      alone would have been accepted. */
  lemma {:induction false} RejectedRowRejects()
    ensures Separate([FIRST, SECOND])
    ensures Blocked(LIBRARY, FIRST) && Contested(LIBRARY, [FIRST, SECOND], 1)
    ensures !Conflicts(LIBRARY, [SECOND], 0)
  {
    assert Has(LIBRARY, "x", 0);
    assert LIBRARY.byName["n"] == 1 && LIBRARY.byName["o"] == 1 && LIBRARY.byName["m"] == 0;
    assert 0 in MatchSet(LIBRARY.byName, LIBRARY.byCloud, FIRST) && 1 in MatchSet(LIBRARY.byName, LIBRARY.byCloud, FIRST) by {
      assert FIRST.names[0] == "m" && FIRST.names[1] == "n";
    }
    assert 1 in MatchSet(LIBRARY.byName, LIBRARY.byCloud, SECOND) by { assert SECOND.names[0] == "o"; }
    assert BlockedAt(LIBRARY, FIRST, 0);
    var both := [FIRST, SECOND];
    assert Rivals(LIBRARY, both[1], both[0], 1);
    assert MatchSet(LIBRARY.byName, LIBRARY.byCloud, SECOND) == {1};
  }
}
