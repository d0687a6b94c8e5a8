/** What the automatic pass and one imported row come to, told by who owns which name before and after. */
module LibraryMeaning {
  import opened Options
  import opened Ordering
  import opened Collections
  import opened PlayerLibrary
  import opened LibraryJoin
  import opened LibraryMerging
  import opened LibraryCoalescing
  import opened LibraryDeferred
  import opened LibraryImport

  // ---- The automatic pass ----

  /** Whoever owns a name of the candidate has no other names than the candidate's. */
  ghost predicate Covered(entities: seq<Entity>, c: Candidate) {
    forall n, m | n in c.names && Find(entities, n).Some? && m in Find(entities, n).value.names :: m in c.names
  }

  /** The candidate's names belong to several entities. */
  ghost predicate Several(entities: seq<Entity>, c: Candidate) {
    exists n, m :: n in c.names && m in c.names && Find(entities, n) != Find(entities, m)
  }

  /** An owner of one of the candidate's names. */
  ghost predicate Owner(entities: seq<Entity>, c: Candidate, e: Entity) { exists n :: n in c.names && Find(entities, n) == Some(e) }

  ghost function OwnerIds(entities: seq<Entity>, c: Candidate): set<nat> {
    set n | n in c.names && Find(entities, n).Some? :: Find(entities, n).value.entityId
  }

  lemma {:induction false} OwnersAre(entities: seq<Entity>, c: Candidate)
    requires forall n | n in c.names :: Find(entities, n).Some?
    ensures OwnersOf(entities, c.names, OwnerIds(entities, c))
  {
    hide Find;
    forall id | id in OwnerIds(entities, c) ensures exists n :: n in c.names && Owns(entities, id, n) {
      var n :| n in c.names && Find(entities, n).Some? && Find(entities, n).value.entityId == id;
      assert Owns(entities, id, n);
    }
  }

  lemma {:induction false} TwoOwners(entities: seq<Entity>, c: Candidate)
    requires Unique(entities) && forall n | n in c.names :: Find(entities, n).Some?
    ensures |OwnerIds(entities, c)| >= 2 <==> Several(entities, c)
  {
    hide Find, Unique;
    var ids := OwnerIds(entities, c);
    if Several(entities, c) {
      var n, m :| n in c.names && m in c.names && Find(entities, n) != Find(entities, m);
      FindFinds(entities, n);
      FindFinds(entities, m);
      SameIdIsSame(entities, Find(entities, n).value, Find(entities, m).value);
      var a, b := Find(entities, n).value.entityId, Find(entities, m).value.entityId;
      SubsetSize({a, b}, ids);
    }
    if |ids| >= 2 {
      var a :| a in ids;
      var rest := ids - {a};
      assert |rest| >= 1;
      var b :| b in rest;
      var n :| n in c.names && Find(entities, n).value.entityId == a;
      var m :| m in c.names && Find(entities, m).value.entityId == b;
    }
  }

  lemma {:induction false} SameIdIsSame(entities: seq<Entity>, e: Entity, f: Entity)
    requires Unique(entities) && e in entities && f in entities
    ensures e.entityId == f.entityId ==> e == f
  {
  }

  lemma {:induction false} WithinIsCovered(entities: seq<Entity>, c: Candidate)
    requires Unique(entities) && forall n | n in c.names :: Find(entities, n).Some?
    ensures MembersWithin(entities, OwnerIds(entities, c), c.names) <==> Covered(entities, c)
  {
    hide Find, Unique;
    forall e | e in entities && e.entityId in OwnerIds(entities, c) ensures exists n :: n in c.names && Find(entities, n) == Some(e) {
      var n :| n in c.names && Find(entities, n).Some? && Find(entities, n).value.entityId == e.entityId;
      FindFinds(entities, n);
      SameIdIsSame(entities, e, Find(entities, n).value);
    }
    forall n | n in c.names ensures Find(entities, n).value in entities { FindFinds(entities, n); }
    if MembersWithin(entities, OwnerIds(entities, c), c.names) {
      forall n, m | n in c.names && m in Find(entities, n).value.names ensures m in c.names {
        var e := Find(entities, n).value;
        assert e.entityId in OwnerIds(entities, c) && m in SetOf(e.names);
      }
    }
  }

  lemma {:induction false} JoinedIff(entities: seq<Entity>, c: Candidate)
    requires Unique(entities) && forall n | n in c.names :: Find(entities, n).Some?
    ensures Joinable(entities, c) <==> Covered(entities, c) && Several(entities, c)
  {
    hide Find, Unique, Joinable, Covered, Several, MembersWithin, OwnersOf;
    OwnersAre(entities, c);
    TwoOwners(entities, c);
    WithinIsCovered(entities, c);
    JoinableIs(entities, c, OwnerIds(entities, c));
  }

  lemma {:induction false} OwnerIsMember(entities: seq<Entity>, c: Candidate, e: Entity)
    requires Unique(entities)
    ensures Owner(entities, c, e) <==> IsMember(entities, SetOf(c.names), e)
  {
    hide Find, Unique;
    if Owner(entities, c, e) {
      var n :| n in c.names && Find(entities, n) == Some(e);
      FindFinds(entities, n);
      assert n in SetOf(c.names);
    }
    if IsMember(entities, SetOf(c.names), e) {
      var n :| n in e.names && n in SetOf(c.names);
      FindIs(entities, e, n);
    }
  }

  lemma {:induction false} UnionIs(entities: seq<Entity>, names: seq<string>, e: Entity)
    requires IsUnion(entities, names, e)
    ensures e.names == names
    ensures forall x :: x in e.gameIds <==> exists f :: IsMember(entities, SetOf(names), f) && x in f.gameIds
    ensures exists f :: IsMember(entities, SetOf(names), f) && f.entityId == e.entityId
    ensures forall f | IsMember(entities, SetOf(names), f) :: e.entityId <= f.entityId
    ensures e.cloudId.None? ==> forall f | IsMember(entities, SetOf(names), f) :: f.cloudId.None?
    ensures e.cloudId.Some? ==> exists f ::
      (IsMember(entities, SetOf(names), f) && f.cloudId == e.cloudId &&
      forall h | IsMember(entities, SetOf(names), h) && h.cloudId.Some? :: f.entityId <= h.entityId)
  {
    hide IsMember;
    if e.cloudId.Some? {
      var f :| IsMember(entities, SetOf(names), f) && FirstWithCloud(entities, SetOf(names), f) && f.cloudId == e.cloudId;
    }
  }

  /** A candidate whose names belong to several entities, and to them all their names, becomes one entity: with its
      names, the game IDs of all of them, the lowest of their IDs, and the cloud ID of the lowest that has one. */
  lemma {:induction false} CoveredAreJoined(before: seq<Entity>, after: seq<Entity>, candidates: seq<Candidate>, c: Candidate)
    returns (e: Entity)
    requires Unique(before) && AreCandidates(before, candidates) && Coalesced(before, after, candidates)
    requires c in candidates && Covered(before, c) && Several(before, c)
    ensures forall n | n in c.names :: Find(after, n).Some? && Find(after, n).value.names == c.names
    ensures c.names != [] && Find(after, c.names[0]) == Some(e)
    ensures forall x :: x in e.gameIds <==> exists f :: Owner(before, c, f) && x in f.gameIds
    ensures (exists f :: Owner(before, c, f) && f.entityId == e.entityId) && forall f | Owner(before, c, f) :: e.entityId <= f.entityId
    ensures e.cloudId.None? ==> forall f | Owner(before, c, f) :: f.cloudId.None?
    ensures e.cloudId.Some? ==> exists f ::
      (Owner(before, c, f) && f.cloudId == e.cloudId && forall h | Owner(before, c, h) && h.cloudId.Some? :: f.entityId <= h.entityId)
  {
    hide Find, Unique, Joinable, Covered, Several, Owner, IsMember;
    JoinedIff(before, c);
    assert c.names[0] in c.names;
    e := Find(after, c.names[0]).value;
    forall f ensures Owner(before, c, f) <==> IsMember(before, SetOf(c.names), f) { OwnerIsMember(before, c, f); }
    UnionIs(before, c.names, e);
  }

  /** All other names stay where they are. */
  lemma {:induction false} OthersAreLeft(before: seq<Entity>, after: seq<Entity>, candidates: seq<Candidate>, n: string)
    requires Unique(before) && AreCandidates(before, candidates) && Coalesced(before, after, candidates)
    requires forall c | c in candidates && n in c.names :: !(Covered(before, c) && Several(before, c))
    ensures Find(after, n) == Find(before, n)
  {
    hide Find, Unique, Joinable, Covered, Several;
    forall c | c in candidates && n in c.names ensures !Joinable(before, c) { JoinedIff(before, c); }
  }

  // ---- One imported row ----

  /** The entity has one of the row's names, or is known under its cloud ID. */
  ghost predicate Matched(byName: map<string, nat>, byCloud: map<string, set<nat>>, item: Incoming, k: nat) {
    || (exists n :: n in item.names && n in byName && byName[n] == k)
    || (item.cloudId.Some? && item.cloudId.value in byCloud && k in byCloud[item.cloudId.value])
  }

  lemma {:induction false} MatchedIs(byName: map<string, nat>, byCloud: map<string, set<nat>>, item: Incoming, k: nat)
    ensures k in MatchSet(byName, byCloud, item) <==> Matched(byName, byCloud, item, k)
  {
  }

  /** Every match, by name or by cloud ID, has the row's game IDs and its own, and no others; and it keeps its
      cloud ID unless it has none and is the only match. */
  lemma {:induction false} RowGives(entities: seq<Entity>, byName: map<string, nat>, byCloud: map<string, set<nat>>, next: nat,
    item: Incoming, after: seq<Entity>, later: nat, k: nat)
    requires RowDone(entities, byName, MatchSet(byName, byCloud, item), next, item, after, later) && k < |entities|
    ensures k < |after| && after[k].entityId == entities[k].entityId
    ensures Matched(byName, byCloud, item, k) ==>
      forall x :: x in after[k].gameIds <==> x in entities[k].gameIds || x in item.gameIds
    ensures !Matched(byName, byCloud, item, k) ==> after[k] == entities[k]
    ensures entities[k].cloudId.Some? ==> after[k].cloudId == entities[k].cloudId
    ensures (exists j: nat :: j != k && Matched(byName, byCloud, item, j)) ==> after[k].cloudId == entities[k].cloudId
    ensures Matched(byName, byCloud, item, k) && entities[k].cloudId.None? && (forall j: nat | Matched(byName, byCloud, item, j) :: j == k) ==>
      after[k].cloudId == item.cloudId
  {
    hide Unknown, Matched, MatchSet;
    var matched := MatchSet(byName, byCloud, item);
    forall j: nat ensures j in matched <==> Matched(byName, byCloud, item, j) { MatchedIs(byName, byCloud, item, j); }
    if k in matched {
      assert Evidenced(entities[k], after[k], |matched|, item);
      forall x ensures x in after[k].gameIds <==> x in entities[k].gameIds || x in item.gameIds {
        assert x in SetOf(after[k].gameIds) <==> x in SetOf(entities[k].gameIds) + SetOf(item.gameIds);
      }
      if j: nat :| j != k && j in matched { SubsetSize({j, k}, matched); }
      if forall j: nat | j in matched :: j == k { assert matched == {k}; }
    }
  }

  /** A new name of the row goes to its only match. */
  lemma {:induction false} NewNamesJoin(entities: seq<Entity>, byName: map<string, nat>, byCloud: map<string, set<nat>>, next: nat,
    item: Incoming, after: seq<Entity>, later: nat, n: string, k: nat)
    requires RowDone(entities, byName, MatchSet(byName, byCloud, item), next, item, after, later)
    requires n in item.names && n !in byName
    requires Matched(byName, byCloud, item, k) && forall j: nat | Matched(byName, byCloud, item, j) :: j == k
    ensures k < |after| && n in after[k].names && |after| == |entities|
  {
    hide Matched, MatchSet, Evidenced, Unknown;
    var matched := MatchSet(byName, byCloud, item);
    forall j: nat ensures j in matched <==> Matched(byName, byCloud, item, j) { MatchedIs(byName, byCloud, item, j); }
    UnknownAre(item.names, byName);
    assert matched == {k};
    assert |after[|entities|..]| == 0;
  }

  /** With several matches it goes to an entity of its own, without a cloud ID. */
  lemma {:induction false} NewNamesStand(entities: seq<Entity>, byName: map<string, nat>, byCloud: map<string, set<nat>>, next: nat,
    item: Incoming, after: seq<Entity>, later: nat, n: string, j: nat, k: nat)
    requires RowDone(entities, byName, MatchSet(byName, byCloud, item), next, item, after, later)
    requires n in item.names && n !in byName && j != k
    requires Matched(byName, byCloud, item, j) && Matched(byName, byCloud, item, k)
    ensures |after| == |entities| + 1 && n in after[|entities|].names
    ensures after[|entities|].entityId == next && after[|entities|].cloudId.None? && after[|entities|].gameIds == item.gameIds
  {
    hide Matched, Evidenced, Unknown, MatchSet;
    var matched, added := MatchSet(byName, byCloud, item), Unknown(item.names, byName);
    MatchedIs(byName, byCloud, item, j);
    MatchedIs(byName, byCloud, item, k);
    SubsetSize({j, k}, matched);
    UnknownAre(item.names, byName);
    assert n in added;
    RowAppends(entities, byName, matched, next, item, after, later);
  }

  lemma {:induction false} RowAppends(entities: seq<Entity>, byName: map<string, nat>, matched: set<nat>, next: nat,
    item: Incoming, after: seq<Entity>, later: nat)
    requires RowDone(entities, byName, matched, next, item, after, later) && |matched| > 1 && Unknown(item.names, byName) != []
    ensures |after| == |entities| + 1 && after[|entities|] == Entity(next, None, Unknown(item.names, byName), item.gameIds)
  {
    hide Evidenced, Unknown;
    var more := [Entity(next, None, Unknown(item.names, byName), item.gameIds)];
    assert after[|entities|..] == more;
    assert |after[|entities|..]| == 1 && after[|entities|..][0] == after[|entities|];
  }

  /** Without a match all the row's names make an entity with its cloud ID. */
  lemma {:induction false} UnmatchedRowIsNew(entities: seq<Entity>, byName: map<string, nat>, byCloud: map<string, set<nat>>, next: nat,
    item: Incoming, after: seq<Entity>, later: nat)
    requires RowDone(entities, byName, MatchSet(byName, byCloud, item), next, item, after, later)
    requires forall k: nat :: !Matched(byName, byCloud, item, k)
    ensures after == entities + [Entity(next, item.cloudId, item.names, item.gameIds)]
  {
    hide Matched, MatchSet, Evidenced, Unknown;
    var matched := MatchSet(byName, byCloud, item);
    forall j: nat ensures j !in matched { MatchedIs(byName, byCloud, item, j); }
    assert matched == {};
    assert after == after[..|entities|] + after[|entities|..] && after[..|entities|] == entities;
  }
}
