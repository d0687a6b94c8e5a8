/** The automatic pass: each exact group of names whose entities it covers entirely is joined. */
module LibraryCoalescing {
  import opened Options
  import opened Ordering
  import opened Collections
  import opened PlayerLibrary
  import opened LibraryJoin
  import opened LibraryMerge
  import opened LibraryMerging
  import opened LibraryMemory

  datatype Candidate = Candidate(groupId: string, names: seq<string>)

  /** What identity analysis supplies: names of the library, no name twice. */
  ghost predicate AreCandidates(entities: seq<Entity>, candidates: seq<Candidate>) {
    && (forall c | c in candidates :: c.names != [] && NoRepeats(c.names))
    && (forall c, n | c in candidates && n in c.names :: Find(entities, n).Some?)
    && (forall i, j, n | 0 <= i < j < |candidates| && n in candidates[i].names :: n !in candidates[j].names)
  }

  predicate IdLe(a: Entity, b: Entity) { a.entityId <= b.entityId }

  // ---- Order does not matter ----

  ghost predicate Reordered(s: Library, t: Library) {
    && (forall e :: e in s.entities <==> e in t.entities) && NoRepeats(t.entities)
    && (forall g :: g in s.groups <==> g in t.groups) && NoRepeats(t.groups)
  }

  lemma {:induction false} ReorderedFinds(s: Library, t: Library, n: string)
    requires Unique(s.entities) && Reordered(s, t)
    ensures Unique(t.entities) && Find(t.entities, n) == Find(s.entities, n)
  {
    hide Find;
    FindFinds(s.entities, n);
    FindFinds(t.entities, n);
    if Find(s.entities, n).Some? { FindIs(t.entities, Find(s.entities, n).value, n); }
  }

  lemma {:induction false} ReorderedHome(s: Library, t: Library, n: string)
    requires Unique(s.entities) && Disjoint(s.groups) && Reordered(s, t)
    ensures Home(t, n) == Home(s, n)
  {
    hide Find, GroupWith, Unique;
    ReorderedFinds(s, t, n);
    GroupWithFinds(s.groups, n);
    GroupWithFinds(t.groups, n);
    if GroupWith(s.groups, n).Some? { GroupIs(t.groups, GroupWith(s.groups, n).value, n); }
  }

  lemma {:induction false} ReorderedGrouped(s: Library, t: Library)
    requires Grouped(s) && Reordered(s, t)
    ensures Grouped(t) && SameHomes(s, t)
  {
    hide Find, GroupWith, Home, Unique;
    forall n ensures Find(t.entities, n) == Find(s.entities, n) && Home(t, n) == Home(s, n) && Unique(t.entities) {
      ReorderedFinds(s, t, n);
      ReorderedHome(s, t, n);
    }
    ReorderedFinds(s, t, "");
    forall k, n | k in t.groups ensures Truthful(t, k, n) { assert Truthful(s, k, n); }
  }

  lemma {:induction false} ReorderedInOrder(s: Library, t: Library)
    requires InOrder(s) && Reordered(s, t)
    ensures InOrder(t) && SameHomes(s, t)
  {
    hide Find, GroupWith, Home, Unique, GroupsFit;
    forall n ensures Find(t.entities, n) == Find(s.entities, n) { ReorderedFinds(s, t, n); }
    ReorderedGrouped(s, t);
    ReorderedEntitiesFit(s, t);
  }

  lemma {:induction false} ReorderedKnown(s: Library, t: Library, names: set<string>, known: set<string>)
    requires Unique(s.entities) && Reordered(s, t) && FitsOn(s, names, known)
    ensures FitsOn(t, names, known) && KeepsHomes(s, t, known)
  {
    hide Find, GroupWith, Unique, Truthful, Touched;
    forall n | n in known ensures Home(t, n) == Home(s, n) && Find(s.entities, n).Some? {
      KnownHasHome(s, names, known, n);
      ReorderedFinds(s, t, n);
      GroupWithFinds(s.groups, n);
      GroupWithFinds(t.groups, n);
    }
    forall g | g in t.groups && Touched(g.names, names) ensures InOneEntity(t.entities, g) {
      var e :| e in s.entities && forall n | n in g.names :: n in e.names;
      assert e in t.entities;
    }
    forall g, n | g in t.groups && Touched(g.names, names) && n in known ensures Truthful(t, g, n) { StillTrue(s, t, g, n); }
  }

  lemma {:induction false} ReorderedEntitiesFit(s: Library, t: Library)
    requires EntitiesFit(s) && Reordered(s, t) && SameHomes(s, t)
    ensures EntitiesFit(t)
  {
    hide Home;
    forall e | e in t.entities
      ensures (exists n :: NamesIt(t, e, n)) && forall id :: id in e.gameIds <==> Within(t, e, id)
    {
      var n :| NamesIt(s, e, n);
      assert Home(s, n) == Home(t, n);
      assert NamesIt(t, e, n);
      forall id ensures id in e.gameIds <==> Within(t, e, id) { WithinSame(s, t, e, id); }
    }
  }

  lemma {:induction false} WithinSame(s: Library, t: Library, e: Entity, id: nat)
    requires SameHomes(s, t)
    ensures Within(t, e, id) <==> Within(s, e, id)
  {
    hide Home;
    if n :| n in e.names && Home(s, n).Some? && id in Home(s, n).value.gameIds { assert Home(t, n) == Home(s, n); }
    if n :| n in e.names && Home(t, n).Some? && id in Home(t, n).value.gameIds { assert Home(t, n) == Home(s, n); }
  }

  // ---- One candidate ----

  ghost predicate MembersWithin(entities: seq<Entity>, members: set<nat>, names: seq<string>) {
    forall e | e in entities && e.entityId in members :: SetOf(e.names) <= SetOf(names)
  }

  /** Every member is still there, and all its names are in the candidate. */
  method IsComplete(entities: seq<Entity>, members: set<nat>, names: seq<string>, removed: set<nat>)
    returns (complete: bool)
    requires Unique(entities) && forall id | id in members :: EntityAt(entities, id).Some?
    ensures complete <==> members !! removed && MembersWithin(entities, members, names)
  {
    hide EntityAt;
    var left := members;
    while left != {}
      invariant left <= members && (members - left) !! removed
      invariant MembersWithin(entities, members - left, names)
      decreases left
    {
      var id: nat :| id in left;
      EntityAtFinds(entities, id);
      var e := EntityAt(entities, id).value;
      if id in removed { return false; }
      if exists n :: n in e.names && n !in names {
        var n :| n in e.names && n !in names;
        assert n in SetOf(e.names) && n !in SetOf(names);
        return false;
      }
      left := left - {id};
    }
    assert members - left == members;
    return true;
  }

  /** The cloud ID of the first member that has one. */
  method FirstCloudId(entities: seq<Entity>, members: set<nat>) returns (cloud: Option<string>)
    requires forall id | id in members :: EntityAt(entities, id).Some?
    ensures cloud.Some? ==> exists id: nat :: IsFirstCloud(entities, members, id) && EntityAt(entities, id).value.cloudId == cloud
    ensures cloud.None? ==> forall id: nat | id in members :: EntityAt(entities, id).value.cloudId.None?
  {
    hide EntityAt;
    cloud := None;
    var left := members;
    ghost var done: set<nat> := {};
    while left != {}
      invariant done + left == members && cloud.None?
      invariant forall x: nat, y: nat | x in done && y in left :: x < y
      invariant forall x: nat | x in done :: EntityAt(entities, x).value.cloudId.None?
      decreases left
    {
      LowestExists(left);
      var id: nat :| IsLowest(left, id);
      assert forall y: nat | y in left :: id <= y;
      left := left - {id};
      done := done + {id};
      cloud := EntityAt(entities, id).value.cloudId;
      if cloud.Some? {
        assert IsFirstCloud(entities, members, id);
        return;
      }
    }
  }

  /** The cloud ID of the first entity, by ID, that has one; none if no entity has. */
  ghost predicate TakesFirstCloud(entities: seq<Entity>, merging: set<string>, cloud: Option<string>) {
    && (cloud.Some? ==> exists e :: IsMember(entities, merging, e) && FirstWithCloud(entities, merging, e) && e.cloudId == cloud)
    && (cloud.None? ==> forall e | IsMember(entities, merging, e) :: e.cloudId.None?)
  }

  ghost predicate FirstWithCloud(entities: seq<Entity>, merging: set<string>, e: Entity) {
    forall f | IsMember(entities, merging, f) && f.entityId < e.entityId :: f.cloudId.None?
  }

  lemma {:induction false} CloudIsFirst(entities: seq<Entity>, members: set<nat>, merging: set<string>, cloud: Option<string>)
    requires forall e | e in entities :: e.entityId in members <==> Touched(e.names, merging)
    requires Unique(entities) && forall id | id in members :: EntityAt(entities, id).Some?
    requires cloud.Some? ==> exists id: nat :: IsFirstCloud(entities, members, id) && EntityAt(entities, id).value.cloudId == cloud
    requires cloud.None? ==> forall id: nat | id in members :: EntityAt(entities, id).value.cloudId.None?
    ensures TakesFirstCloud(entities, merging, cloud)
  {
    hide EntityAt, Touched, Unique;
    forall e | IsMember(entities, merging, e) ensures e.entityId in members && EntityAt(entities, e.entityId) == Some(e) {
      MemberAt(entities, e);
    }
    if cloud.Some? {
      var id: nat :| IsFirstCloud(entities, members, id) && EntityAt(entities, id).value.cloudId == cloud;
      EntityAtFinds(entities, id);
      var e := EntityAt(entities, id).value;
      assert IsMember(entities, merging, e) && FirstWithCloud(entities, merging, e);
    }
  }

  lemma {:induction false} MemberAt(entities: seq<Entity>, e: Entity)
    requires Unique(entities) && e in entities
    ensures EntityAt(entities, e.entityId) == Some(e)
  {
    hide EntityAt;
    EntityAtFinds(entities, e.entityId);
  }

  ghost predicate IsFirstCloud(entities: seq<Entity>, members: set<nat>, id: nat) {
    id in members && forall k: nat | k in members && k < id ::
      EntityAt(entities, k).Some? && EntityAt(entities, k).value.cloudId.None?
  }

  lemma {:induction false} CandidateCloses(entities: seq<Entity>, names: seq<string>, members: set<nat>)
    requires Unique(entities) && OwnersOf(entities, names, members)
    requires MembersWithin(entities, members, names)
    ensures Closed(entities, SetOf(names))
    ensures forall e | e in entities :: e.entityId in members <==> Touched(e.names, SetOf(names))
  {
    hide Find;
    forall n | n in SetOf(names) ensures SetOf(Find(entities, n).value.names) <= SetOf(names) { FindFinds(entities, n); }
    forall e | e in entities ensures e.entityId in members <==> Touched(e.names, SetOf(names)) {
      if e.entityId in members {
        assert e.names[0] in SetOf(e.names);
        assert e.names[0] in SetOf(names);
      }
      if Touched(e.names, SetOf(names)) {
        var n :| n in e.names && n in SetOf(names);
        FindIs(entities, e, n);
      }
    }
  }

  /** The entity a candidate becomes: its names, the lowest ID, the first cloud ID and all game IDs. */
  ghost predicate IsUnion(entities: seq<Entity>, names: seq<string>, e: Entity) {
    e.names == names && Unites(entities, SetOf(names), e) && TakesFirstCloud(entities, SetOf(names), e.cloudId)
  }

  /** Join one candidate's entities, as the library was before the pass. */
  method JoinCandidate(s: Library, c: Candidate, members: set<nat>) returns (merged: Entity, g: Group)
    requires Unique(s.entities) && OwnersOf(s.entities, c.names, members) && members != {}
    requires MembersWithin(s.entities, members, c.names)
    ensures merged.names == c.names && g.names == c.names && g.groupId == c.groupId
    ensures IsUnion(s.entities, c.names, merged)
    ensures Gathers(s, c.names, g)
  {
    hide Find, EntityAt, Apart, SavedBefore, SavedOrigins, Aliases, Unique, TakesFirstCloud, IsFirstCloud, Touched;
    MembersExist(s.entities, c.names, members);
    CandidateCloses(s.entities, c.names, members);
    var all, games := CollectMembers(s.entities, members, c.names);
    var cloud := FirstCloudId(s.entities, members);
    LowestExists(members);
    var lowest: nat :| IsLowest(members, lowest);
    EntityAtFinds(s.entities, lowest);
    merged := Entity(lowest, cloud, c.names, games);
    CandidateUnites(s.entities, members, SetOf(c.names), merged, EntityAt(s.entities, lowest).value);
    CloudIsFirst(s.entities, members, SetOf(c.names), cloud);
    var merging := set n | n in c.names;
    assert merging == SetOf(c.names);
    var kept, before, origins, aliases := GatherGroups(s.groups, merging);
    var savedBefore, savedOrigins := before, origins;
    before, origins := SaveRest(s.entities, c.names, {}, before, origins);
    g := Group(c.groupId, c.names, Some(before), Some(origins));
  }

  lemma {:induction false} CandidateUnites(entities: seq<Entity>, members: set<nat>, merging: set<string>, merged: Entity,
    first: Entity)
    requires forall e | e in entities :: e.entityId in members <==> Touched(e.names, merging)
    requires IsLowest(members, merged.entityId) && first in entities && first.entityId == merged.entityId
    requires forall x :: x in merged.gameIds <==>
      exists e :: e in entities && e.entityId in members && x in e.gameIds
    ensures Unites(entities, merging, merged)
  {
    hide Touched;
    assert IsMember(entities, merging, first);
    forall x ensures x in merged.gameIds <==> exists e :: IsMember(entities, merging, e) && x in e.gameIds {
      if x in merged.gameIds {
        var e :| e in entities && e.entityId in members && x in e.gameIds;
        assert IsMember(entities, merging, e);
      }
    }
  }

  /** What the groups that share names with the candidate had saved stays saved, and the rest of its
      names is saved as it is. */
  ghost predicate Gathers(s: Library, names: seq<string>, g: Group) {
    && Closed(s.entities, SetOf(names)) && g.before.Some? && g.origins.Some?
    && (forall n :: n in g.Before() <==> n in SavedBefore(s.groups, SetOf(names)) || n in names)
    && (forall n :: n in g.Origins() <==> n in SavedOrigins(s.groups, SetOf(names)) || n in names)
    && (forall n | n in SavedBefore(s.groups, SetOf(names)) :: g.Before()[n] == SavedBefore(s.groups, SetOf(names))[n])
    && (forall n | n in SavedOrigins(s.groups, SetOf(names)) :: g.Origins()[n] == SavedOrigins(s.groups, SetOf(names))[n])
    && (forall n | n in names && n !in SavedBefore(s.groups, SetOf(names)) ::
      Find(s.entities, n).Some? && g.Before()[n] == Find(s.entities, n).value.gameIds)
    && (forall n | n in names && n !in SavedOrigins(s.groups, SetOf(names)) ::
      Find(s.entities, n).Some? && g.Origins()[n] == OriginOf(Find(s.entities, n).value))
  }

  /** A name that comes from somewhere is saved as such, if what was saved of it was true. */
  lemma {:induction false} GathersHome(s: Library, names: seq<string>, g: Group, n: string)
    requires Gathers(s, names, g) && Home(s, n).Some? && Find(s.entities, n).Some?
    requires forall k | k in s.groups && Touched(k.names, SetOf(names)) :: Truthful(s, k, n)
    ensures n in names ==> Saves(g, n) && Home(s, n) == Some(SavedPart(g, n))
    ensures Truthful(s, g, n)
  {
    hide Find, GroupWith, SavedBefore, SavedOrigins, Touched, Closed, Truthful;
    assert n in SetOf(names) <==> n in names;
    GroupWithFinds(s.groups, n);
    SavedIsTrue(s, s.groups, SetOf(names), n);
    if n in names && GroupWith(s.groups, n).Some? { SavedHas(s.groups, SetOf(names), GroupWith(s.groups, n).value, n); }
    TruthIs(s, g, n);
  }

  lemma {:induction false} TruthIs(s: Library, g: Group, n: string)
    ensures Truthful(s, g, n) <==>
      ((n in g.Before() || n in g.Origins()) && Find(s.entities, n).Some? ==> Saves(g, n) && Home(s, n) == Some(SavedPart(g, n)))
  {
    hide Find, Home;
  }

  lemma {:induction false} GathersHomes(s: Library, names: seq<string>, g: Group)
    requires Grouped(s) && Gathers(s, names, g)
    ensures SavesHomes(s, names, g)
  {
    hide Find, GroupWith, Gathers, Unique, Touched, Truthful, Home;
    forall n
      ensures (n in names ==> Saves(g, n) && Home(s, n) == Some(SavedPart(g, n))) && Truthful(s, g, n)
    {
      if Find(s.entities, n).Some? {
        GroupedHasHome(s, n);
        GathersHome(s, names, g, n);
      } else {
        TruthIs(s, g, n);
        if n in names { GathersOnly(s, names, g, n); }
      }
    }
  }

  lemma {:induction false} GathersOnly(s: Library, names: seq<string>, g: Group, n: string)
    requires Gathers(s, names, g) && n in names
    ensures Find(s.entities, n).Some?
  {
    hide Find, SavedBefore, SavedOrigins;
    assert n in SetOf(names);
  }

  lemma {:induction false} GroupedHasHome(s: Library, n: string)
    requires Grouped(s) && Find(s.entities, n).Some?
    ensures Home(s, n).Some?
  {
    hide Find, GroupWith, Unique, Truthful;
    GroupWithFinds(s.groups, n);
  }

  lemma {:induction false} GathersKnown(s: Library, names: seq<string>, g: Group, some: set<string>, known: set<string>)
    requires FitsOn(s, some, known) && Gathers(s, names, g) && SetOf(names) <= some
    ensures SavesKnown(s, names, known, g)
  {
    hide Find, GroupWith, Gathers, Home, Touched, Truthful, InOneEntity;
    forall k | k in s.groups && Touched(k.names, SetOf(names)) ensures Touched(k.names, some) {
      TouchedMore(k.names, SetOf(names), some);
    }
    forall n | n in known
      ensures (n in names ==> Saves(g, n) && Home(s, n) == Some(SavedPart(g, n))) && Truthful(s, g, n)
    {
      KnownHasHome(s, some, known, n);
      GathersHome(s, names, g, n);
    }
  }

  // ---- The pass ----

  /** The library as it would be if the joins were made one after the other, and what the pass holds. */
  ghost predicate Pass(s: Library, cur: Library, removed: set<nat>, joinedEntities: seq<Entity>, newGroups: seq<Group>,
    joined: set<string>)
  {
    && (forall e :: e in cur.entities <==> (e in s.entities && e.entityId !in removed) || e in joinedEntities)
    && (forall k :: k in cur.groups <==> (k in s.groups && !Touched(k.names, joined)) || k in newGroups)
    && (forall e | e in s.entities :: e.entityId in removed <==> Touched(e.names, joined))
    && (forall e | e in joinedEntities :: e.names != [] && SetOf(e.names) <= joined)
    && (forall k | k in newGroups :: k.names != [] && SetOf(k.names) <= joined)
    && NoRepeats(cur.entities) && NoRepeats(cur.groups) && NoRepeats(joinedEntities) && NoRepeats(newGroups)
  }

  lemma {:induction false} ApartFrom(names: seq<string>, joined: set<string>, merging: set<string>)
    requires SetOf(names) <= joined && joined !! merging
    ensures !Touched(names, merging)
  {
    assert forall n | n in names :: n in SetOf(names);
  }

  lemma {:induction false} TouchedEither(names: seq<string>, a: set<string>, b: set<string>)
    ensures Touched(names, a + b) <==> Touched(names, a) || Touched(names, b)
  {
  }

  function JoinedInto(cur: Library, merged: Entity, g: Group, merging: set<string>): Library {
    Library(Outside(cur.entities, merging) + [merged], Apart(cur.groups, merging) + [g])
  }

  lemma {:induction false} PassContinues(s: Library, cur: Library, removed: set<nat>, joinedEntities: seq<Entity>,
    newGroups: seq<Group>, joined: set<string>, members: set<nat>, merged: Entity, g: Group)
    requires Pass(s, cur, removed, joinedEntities, newGroups, joined)
    requires merged.names != [] && g.names == merged.names && joined !! SetOf(merged.names)
    requires forall e | e in s.entities :: e.entityId in members <==> Touched(e.names, SetOf(merged.names))
    ensures Pass(s, JoinedInto(cur, merged, g, SetOf(merged.names)), removed + members, joinedEntities + [merged],
      newGroups + [g], joined + SetOf(merged.names))
  {
    hide Touched, Outside, Apart;
    var merging := SetOf(merged.names);
    var next := JoinedInto(cur, merged, g, merging);
    OutsideAre(cur.entities, merging);
    ApartAre(cur.groups, merging);
    assert merged.names[0] in merging;
    forall names: seq<string> ensures Touched(names, joined + merging) <==> Touched(names, joined) || Touched(names, merging) {
      TouchedEither(names, joined, merging);
    }
    forall names: seq<string> | SetOf(names) <= joined ensures !Touched(names, merging) && names != merged.names {
      ApartFrom(names, joined, merging);
    }
    forall names: seq<string> | names == merged.names ensures Touched(names, merging) { OwnNamesTouch(names); }
  }

  lemma {:induction false} OwnNamesTouch(names: seq<string>)
    requires names != []
    ensures Touched(names, SetOf(names))
  {
    assert names[0] in names && names[0] in SetOf(names);
  }

  /** The members are still as they were, so joining them now is joining them then. */
  lemma {:induction false} JoinsNow(s: Library, cur: Library, removed: set<nat>, joinedEntities: seq<Entity>,
    newGroups: seq<Group>, joined: set<string>, members: set<nat>, merged: Entity, g: Group)
    requires Pass(s, cur, removed, joinedEntities, newGroups, joined) && Unique(s.entities) && Unique(cur.entities)
    requires merged.names != [] && g.names == merged.names && joined !! SetOf(merged.names)
    requires forall e | e in s.entities :: e.entityId in members <==> Touched(e.names, SetOf(merged.names))
    requires members !! removed && Closed(s.entities, SetOf(merged.names))
    requires Unites(s.entities, SetOf(merged.names), merged)
    ensures JoinsEntities(cur.entities, JoinedInto(cur, merged, g, SetOf(merged.names)).entities, merged)
    ensures JoinsGroups(cur.groups, JoinedInto(cur, merged, g, SetOf(merged.names)).groups, g)
  {
    hide Touched, Outside, Apart, Find, Unites, Closed;
    var merging := SetOf(merged.names);
    OutsideAre(cur.entities, merging);
    ApartAre(cur.groups, merging);
    OwnNamesTouch(merged.names);
    SameMembers(s, cur, removed, joinedEntities, newGroups, joined, members, merging);
    MembersUnite(s.entities, cur.entities, merging, merged);
    StillClosed(s.entities, cur.entities, merging);
  }

  lemma {:induction false} SameMembers(s: Library, cur: Library, removed: set<nat>, joinedEntities: seq<Entity>,
    newGroups: seq<Group>, joined: set<string>, members: set<nat>, merging: set<string>)
    requires Pass(s, cur, removed, joinedEntities, newGroups, joined) && joined !! merging && members !! removed
    requires forall e | e in s.entities :: e.entityId in members <==> Touched(e.names, merging)
    ensures forall e :: IsMember(s.entities, merging, e) <==> IsMember(cur.entities, merging, e)
  {
    hide Touched;
    forall e | e in joinedEntities ensures !Touched(e.names, merging) { ApartFrom(e.names, joined, merging); }
  }

  lemma {:induction false} MembersUnite(before: seq<Entity>, now: seq<Entity>, merging: set<string>, merged: Entity)
    requires forall e :: IsMember(before, merging, e) <==> IsMember(now, merging, e)
    requires Unites(before, merging, merged)
    ensures Unites(now, merging, merged)
  {
    hide IsMember;
  }

  lemma {:induction false} StillClosed(before: seq<Entity>, now: seq<Entity>, merging: set<string>)
    requires forall e :: IsMember(before, merging, e) <==> IsMember(now, merging, e)
    requires Unique(now) && Closed(before, merging)
    ensures Closed(now, merging)
  {
    hide Find, Unique;
    forall n | n in merging ensures Find(now, n) == Find(before, n) {
      FindFinds(before, n);
      var e := Find(before, n).value;
      assert IsMember(before, merging, e);
      assert IsMember(now, merging, e);
      FindIs(now, e, n);
    }
  }

  lemma {:induction false} ConservesOn(a: seq<Entity>, b: seq<Entity>, c: seq<Entity>)
    requires Conserves(a, b) && Conserves(b, c)
    ensures Conserves(a, c)
  {
    hide Find;
  }

  lemma {:induction false} SavedStill(s: Library, cur: Library, names: seq<string>, g: Group)
    requires SavesHomes(s, names, g) && SameHomes(s, cur) && Conserves(s.entities, cur.entities)
    ensures SavesHomes(cur, names, g)
  {
    hide Home, Find;
    forall n ensures Truthful(cur, g, n) { assert Truthful(s, g, n); }
  }

  lemma {:induction false} SavedKnownStill(s: Library, cur: Library, names: seq<string>, known: set<string>, g: Group)
    requires SavesKnown(s, names, known, g) && KeepsHomes(s, cur, known)
    requires forall n | n in known :: Find(s.entities, n).Some?
    ensures SavesKnown(cur, names, known, g)
  {
    hide Home, Find, Truthful;
    forall n | n in known ensures Truthful(cur, g, n) { StillTrue(s, cur, g, n); }
  }

  /** For whichever names the joins so far left whole entities: what is known of them is not forgotten. */
  ghost predicate KeepsKnown(s: Library, cur: Library, joinedEntities: seq<Entity>) {
    forall names: set<string>, known: set<string> | FitsOn(s, names, known) && AllBeside(joinedEntities, names) ::
      FitsOn(cur, names, known) && KeepsHomes(s, cur, known)
  }

  ghost predicate AllBeside(joinedEntities: seq<Entity>, names: set<string>) {
    forall e | e in joinedEntities :: Beside(e.names, names)
  }

  lemma {:induction false} KnownJoins(s: Library, cur: Library, joinedEntities: seq<Entity>, next: Library, merged: Entity, g: Group)
    requires KeepsKnown(s, cur, joinedEntities) && Unique(cur.entities) && Replaces(cur, next, merged, g)
    requires Gathers(s, merged.names, g)
    ensures KeepsKnown(s, next, joinedEntities + [merged])
  {
    hide FitsOn, Unique, Replaces, Gathers, Beside, Home, Find;
    forall names: set<string>, known: set<string> | FitsOn(s, names, known) && AllBeside(joinedEntities + [merged], names)
      ensures FitsOn(next, names, known) && KeepsHomes(s, next, known)
    {
      forall e | e in joinedEntities ensures Beside(e.names, names) { assert e in joinedEntities + [merged]; }
      assert merged in joinedEntities + [merged];
      forall n | n in known ensures Find(s.entities, n).Some? { KnownHasHome(s, names, known, n); }
      if SetOf(merged.names) <= names {
        GathersKnown(s, merged.names, g, names, known);
        SavedKnownStill(s, cur, merged.names, known, g);
      }
      JoinKeepsKnown(cur, next, merged, g, names, known);
    }
  }

  lemma {:induction false} NothingKeepsKnown(s: Library)
    ensures KeepsKnown(s, s, [])
  {
    hide FitsOn, Home;
  }

  /** Carry the pass over one candidate whose members are all there. */
  lemma {:induction false} PassJoins(s: Library, cur: Library, removed: set<nat>, joinedEntities: seq<Entity>,
    newGroups: seq<Group>, joined: set<string>, members: set<nat>, merged: Entity, g: Group)
    requires Pass(s, cur, removed, joinedEntities, newGroups, joined) && Unique(s.entities) && Unique(cur.entities)
    requires merged.names != [] && g.names == merged.names && joined !! SetOf(merged.names)
    requires OwnersOf(s.entities, merged.names, members) && MembersWithin(s.entities, members, merged.names)
    requires members !! removed && Unites(s.entities, SetOf(merged.names), merged) && Conserves(s.entities, cur.entities)
    requires Grouped(s) ==> Grouped(cur) && SameHomes(s, cur)
    requires InOrder(s) ==> InOrder(cur)
    requires Gathers(s, merged.names, g) && KeepsKnown(s, cur, joinedEntities)
    requires forall n | n !in joined :: Find(cur.entities, n) == Find(s.entities, n)
    ensures forall n | n !in joined + SetOf(merged.names) ::
      Find(JoinedInto(cur, merged, g, SetOf(merged.names)).entities, n) == Find(s.entities, n)
    ensures var next := JoinedInto(cur, merged, g, SetOf(merged.names));
      Pass(s, next, removed + members, joinedEntities + [merged], newGroups + [g], joined + SetOf(merged.names)) &&
      Unique(next.entities) && Conserves(s.entities, next.entities) && KeepsKnown(s, next, joinedEntities + [merged]) &&
      (Grouped(s) ==> Grouped(next) && SameHomes(s, next)) && (InOrder(s) ==> InOrder(next))
  {
    hide Pass, Touched, JoinedInto, Unites, PartsFit, EntitiesFit, Grouped, Unique, OwnersOf, MembersWithin, JoinsEntities, JoinsGroups,
      SavesHomes, Conserves, SetOf, Home, Find, KeepsKnown, Gathers, Replaces;
    var next := JoinedInto(cur, merged, g, SetOf(merged.names));
    CandidateCloses(s.entities, merged.names, members);
    PassContinues(s, cur, removed, joinedEntities, newGroups, joined, members, merged, g);
    JoinsNow(s, cur, removed, joinedEntities, newGroups, joined, members, merged, g);
    UniqueAfter(cur.entities, next.entities, merged);
    JoinConserves(cur.entities, next.entities, merged);
    forall n | n !in joined + SetOf(merged.names) ensures Find(next.entities, n) == Find(s.entities, n) {
      FindAfter(cur.entities, next.entities, merged, n);
      NameInSet(merged.names, n);
    }
    ConservesOn(s.entities, cur.entities, next.entities);
    IntoReplaces(cur, merged, g);
    KnownJoins(s, cur, joinedEntities, next, merged, g);
    if Grouped(s) {
      GathersHomes(s, merged.names, g);
      SavedStill(s, cur, merged.names, g);
      JoinKeepsGroups(cur, next, merged, g);
      if InOrder(s) { JoinRemembers(cur, next, merged, g); }
    }
  }

  lemma {:induction false} NameInSet(names: seq<string>, n: string)
    ensures n in names <==> n in SetOf(names)
  {
  }

  lemma {:induction false} IntoReplaces(cur: Library, merged: Entity, g: Group)
    requires JoinsEntities(cur.entities, JoinedInto(cur, merged, g, SetOf(merged.names)).entities, merged) && g.names == merged.names
    ensures Replaces(cur, JoinedInto(cur, merged, g, SetOf(merged.names)), merged, g)
  {
    hide JoinsEntities, Outside, Apart;
  }

  /** The entities that were not joined. */
  method KeepOthers(entities: seq<Entity>, removed: set<nat>) returns (kept: seq<Entity>)
    ensures forall e :: e in kept <==> e in entities && e.entityId !in removed
    ensures NoRepeats(entities) ==> NoRepeats(kept)
  {
    kept := [];
    for i := 0 to |entities|
      invariant forall e :: e in kept <==> e in entities[..i] && e.entityId !in removed
      invariant NoRepeats(entities) ==> NoRepeats(kept)
    {
      assert entities[..i + 1] == entities[..i] + [entities[i]];
      if entities[i].entityId !in removed { kept := kept + [entities[i]]; }
    }
    assert entities[..|entities|] == entities;
  }

  lemma {:induction false} PassEnds(s: Library, cur: Library, removed: set<nat>, joinedEntities: seq<Entity>,
    newGroups: seq<Group>, joined: set<string>, kept: seq<Entity>, t: Library)
    requires Pass(s, cur, removed, joinedEntities, newGroups, joined) && NoRepeats(s.entities) && NoRepeats(s.groups)
    requires forall e :: e in kept <==> e in s.entities && e.entityId !in removed
    requires NoRepeats(kept)
    requires t.entities == SortBy(IdLe, kept + joinedEntities)
    requires t.groups == newGroups + Apart(s.groups, joined)
    ensures Reordered(cur, t)
  {
    hide Apart, Touched, NoRepeats;
    ApartAre(s.groups, joined);
    forall e, f | e in kept && f in joinedEntities ensures e != f { KeptApart(s, removed, joined, e, f); }
    ConcatOnce(kept, joinedEntities);
    SortKeepsNoRepeats(kept + joinedEntities);
    forall k, g | k in newGroups && g in Apart(s.groups, joined) ensures k != g { NewApart(joined, k, g); }
    ConcatOnce(newGroups, Apart(s.groups, joined));
  }

  lemma {:induction false} ConcatOnce<T>(a: seq<T>, b: seq<T>)
    requires NoRepeats(a) && NoRepeats(b) && forall x, y | x in a && y in b :: x != y
    ensures NoRepeats(a + b)
  {
    var both := a + b;
    forall i, j | 0 <= i < j < |both| ensures both[i] != both[j] {
      if i < |a| <= j { assert a[i] in a && b[j - |a|] in b; }
    }
  }

  lemma {:induction false} KeptApart(s: Library, removed: set<nat>, joined: set<string>, e: Entity, f: Entity)
    requires forall x | x in s.entities :: x.entityId in removed <==> Touched(x.names, joined)
    requires e in s.entities && e.entityId !in removed && f.names != [] && SetOf(f.names) <= joined
    ensures e != f
  {
    hide Touched;
    TouchesAll(f.names, joined);
  }

  lemma {:induction false} NewApart(joined: set<string>, k: Group, g: Group)
    requires k.names != [] && SetOf(k.names) <= joined && !Touched(g.names, joined)
    ensures k != g
  {
    hide Touched;
    TouchesAll(k.names, joined);
  }

  lemma {:induction false} TouchesAll(names: seq<string>, joined: set<string>)
    requires names != [] && SetOf(names) <= joined
    ensures Touched(names, joined)
  {
    assert names[0] in SetOf(names);
  }

  lemma {:induction false} SortKeepsNoRepeats(entities: seq<Entity>)
    requires NoRepeats(entities)
    ensures NoRepeats(SortBy(IdLe, entities)) && forall e :: e in SortBy(IdLe, entities) <==> e in entities
  {
    var sorted := SortBy(IdLe, entities);
    SortByMembers(IdLe, entities);
    forall e ensures e in sorted <==> e in entities { assert e in Elements(sorted) <==> e in Elements(entities); }
    forall i, j | 0 <= i < j < |sorted| ensures sorted[i] != sorted[j] {
      EntityOnce(entities, sorted[i]);
      if sorted[i] == sorted[j] { EntityTwice(sorted, i, j); }
    }
  }

  lemma {:induction false} EntityTwice(xs: seq<Entity>, i: nat, j: nat)
    requires i < j < |xs| && xs[i] == xs[j]
    ensures multiset(xs)[xs[i]] >= 2
  {
    assert xs == xs[..j] + [xs[j]] + xs[j + 1..];
    assert xs[..j][i] == xs[i];
    assert xs[i] in multiset(xs[..j]);
  }

  lemma {:induction false} EntityOnce(xs: seq<Entity>, x: Entity)
    requires NoRepeats(xs)
    ensures multiset(xs)[x] <= 1
  {
    if xs != [] {
      var front, last := xs[..|xs| - 1], xs[|xs| - 1];
      EntityOnce(front, x);
      assert xs == front + [last];
      assert last !in front;
    }
  }

  ghost predicate PassHolds(s: Library, cur: Library, removed: set<nat>, joinedEntities: seq<Entity>,
    newGroups: seq<Group>, joined: set<string>)
  {
    && Pass(s, cur, removed, joinedEntities, newGroups, joined)
    && Unique(cur.entities) && Conserves(s.entities, cur.entities)
    && (Grouped(s) ==> Grouped(cur) && SameHomes(s, cur)) && (InOrder(s) ==> InOrder(cur))
    && KeepsKnown(s, cur, joinedEntities)
    && (forall n | n !in joined :: Find(cur.entities, n) == Find(s.entities, n))
  }

  /** The candidate has at least two members and covers all their names. */
  ghost predicate Joinable(entities: seq<Entity>, c: Candidate) {
    exists members: set<nat> ::
      OwnersOf(entities, c.names, members) && |members| >= 2 && MembersWithin(entities, members, c.names)
  }

  lemma {:induction false} OwnersAreOne(entities: seq<Entity>, names: seq<string>, a: set<nat>, b: set<nat>)
    requires OwnersOf(entities, names, a) && OwnersOf(entities, names, b)
    ensures a == b
  {
    hide Find;
    forall id: nat ensures id in a <==> id in b {
      if id in a { var n :| n in names && Owns(entities, id, n); }
      if id in b { var n :| n in names && Owns(entities, id, n); }
    }
  }

  lemma {:induction false} JoinableIs(entities: seq<Entity>, c: Candidate, members: set<nat>)
    requires OwnersOf(entities, c.names, members)
    ensures Joinable(entities, c) <==> |members| >= 2 && MembersWithin(entities, members, c.names)
  {
    hide OwnersOf, MembersWithin;
    if Joinable(entities, c) {
      var others: set<nat> :|
        OwnersOf(entities, c.names, others) && |others| >= 2 && MembersWithin(entities, others, c.names);
      OwnersAreOne(entities, c.names, members, others);
    }
  }

  /** Members whose names are all the candidate's cannot have been joined before. */
  lemma {:induction false} MembersAreThere(s: Library, cur: Library, removed: set<nat>, joinedEntities: seq<Entity>,
    newGroups: seq<Group>, joined: set<string>, names: seq<string>, members: set<nat>)
    requires Pass(s, cur, removed, joinedEntities, newGroups, joined) && joined !! SetOf(names)
    requires OwnersOf(s.entities, names, members) && MembersWithin(s.entities, members, names)
    ensures members !! removed
  {
    hide Find, Touched, OwnersOf;
    forall e | e in s.entities && e.entityId in members ensures e.entityId !in removed {
      ApartFrom(e.names, SetOf(names), joined);
    }
    OwnersExist(s.entities, names, members);
    forall id: nat | id in members ensures id !in removed {
      var e :| e in s.entities && e.entityId == id;
    }
  }

  lemma {:induction false} OwnersExist(entities: seq<Entity>, names: seq<string>, members: set<nat>)
    requires OwnersOf(entities, names, members)
    ensures forall id: nat | id in members :: exists e :: e in entities && e.entityId == id
  {
    hide Find;
    forall id: nat | id in members ensures exists e :: e in entities && e.entityId == id {
      var n :| n in names && Owns(entities, id, n);
      FindFinds(entities, n);
    }
  }

  /** What the pass does to every name: with a candidate that can be joined it goes to the union of
      the candidate's entities; otherwise it stays where it is. */
  ghost predicate Coalesced(before: seq<Entity>, after: seq<Entity>, candidates: seq<Candidate>) {
    && (forall c, n | c in candidates && Joinable(before, c) && n in c.names ::
      Find(after, n).Some? && IsUnion(before, c.names, Find(after, n).value))
    && (forall n | (forall c | c in candidates && n in c.names :: !Joinable(before, c)) ::
      Find(after, n) == Find(before, n))
  }

  ghost predicate HasUnion(before: seq<Entity>, entities: seq<Entity>, names: seq<string>) {
    exists e :: e in entities && IsUnion(before, names, e)
  }

  /** The entity was joined because of a candidate. */
  ghost predicate JoinedFor(s: Library, candidates: seq<Candidate>, e: Entity) {
    exists c :: c in candidates && Joinable(s.entities, c) && e.names == c.names
  }

  ghost predicate Progress(s: Library, candidates: seq<Candidate>, i: nat, joinedEntities: seq<Entity>,
    joined: set<string>)
  {
    && (forall c | c in candidates[..Min(i, |candidates|)] && Joinable(s.entities, c) :: HasUnion(s.entities, joinedEntities, c.names))
    && (forall n | n in joined :: exists c :: c in candidates[..Min(i, |candidates|)] && Joinable(s.entities, c) && n in c.names)
    && (forall e | e in joinedEntities :: JoinedFor(s, candidates[..Min(i, |candidates|)], e))
  }

  /** The candidate's group: its ID and names, with what was saved of them. */
  ghost predicate MadeFor(s: Library, c: Candidate, k: Group) {
    k.groupId == c.groupId && k.names == c.names && Gathers(s, c.names, k)
  }

  ghost predicate Replaced(entities: seq<Entity>, candidates: seq<Candidate>, n: string) {
    exists c :: c in candidates && Joinable(entities, c) && n in c.names
  }

  ghost predicate HasGroupFor(s: Library, groups: seq<Group>, c: Candidate) { exists k :: k in groups && MadeFor(s, c, k) }

  ghost predicate MadeForOne(s: Library, candidates: seq<Candidate>, k: Group) {
    exists c :: c in candidates && Joinable(s.entities, c) && MadeFor(s, c, k)
  }

  ghost predicate Makes(s: Library, candidates: seq<Candidate>, newGroups: seq<Group>, joined: set<string>) {
    && (forall c | c in candidates && Joinable(s.entities, c) :: HasGroupFor(s, newGroups, c))
    && (forall k | k in newGroups :: MadeForOne(s, candidates, k))
    && (forall n :: n in joined <==> Replaced(s.entities, candidates, n))
  }

  /** Every candidate that is joined has a group with its ID; groups that share no name with these stay, and
      there are no others. */
  ghost predicate Regrouped(s: Library, t: Library, candidates: seq<Candidate>) {
    && (forall c | c in candidates && Joinable(s.entities, c) :: HasGroupFor(s, t.groups, c))
    && (forall k | k in s.groups && (forall n | n in k.names :: !Replaced(s.entities, candidates, n)) :: k in t.groups)
    && (forall k | k in t.groups ::
      (k in s.groups && forall n | n in k.names :: !Replaced(s.entities, candidates, n)) || MadeForOne(s, candidates, k))
  }

  lemma {:induction false} MakesNothing(s: Library)
    ensures Makes(s, [], [], {})
  {
  }

  lemma {:induction false} ReplacedOn(entities: seq<Entity>, few: seq<Candidate>, c: Candidate, n: string)
    ensures Replaced(entities, few + [c], n) <==> Replaced(entities, few, n) || (Joinable(entities, c) && n in c.names)
  {
    hide Joinable;
    assert c in few + [c];
    if Replaced(entities, few, n) {
      var d :| d in few && Joinable(entities, d) && n in d.names;
      assert d in few + [c];
    }
  }

  lemma {:induction false} MadeForOneOn(s: Library, few: seq<Candidate>, c: Candidate, k: Group)
    ensures MadeForOne(s, few, k) ==> MadeForOne(s, few + [c], k)
    ensures Joinable(s.entities, c) && MadeFor(s, c, k) ==> MadeForOne(s, few + [c], k)
  {
    hide Joinable, MadeFor;
    assert c in few + [c];
    if MadeForOne(s, few, k) {
      var d :| d in few && Joinable(s.entities, d) && MadeFor(s, d, k);
      assert d in few + [c];
    }
  }

  lemma {:induction false} HasGroupOn(s: Library, groups: seq<Group>, g: Group, c: Candidate)
    ensures HasGroupFor(s, groups, c) || MadeFor(s, c, g) ==> HasGroupFor(s, groups + [g], c)
  {
    hide MadeFor;
    assert g in groups + [g];
    if HasGroupFor(s, groups, c) {
      var k :| k in groups && MadeFor(s, c, k);
      assert k in groups + [g];
    }
  }

  lemma {:induction false} MakesOn(s: Library, candidates: seq<Candidate>, i: nat, newGroups: seq<Group>, joined: set<string>,
    g: Group)
    requires i < |candidates| && Makes(s, candidates[..i], newGroups, joined)
    ensures !Joinable(s.entities, candidates[i]) ==> Makes(s, candidates[..i + 1], newGroups, joined)
    ensures Joinable(s.entities, candidates[i]) && MadeFor(s, candidates[i], g) ==>
      Makes(s, candidates[..i + 1], newGroups + [g], joined + SetOf(candidates[i].names))
  {
    hide Joinable, MadeFor, Replaced, MadeForOne, HasGroupFor;
    var few, all, c := candidates[..i], candidates[..i + 1], candidates[i];
    assert all == few + [c];
    forall n ensures Replaced(s.entities, all, n) <==> Replaced(s.entities, few, n) || (Joinable(s.entities, c) && n in c.names) {
      ReplacedOn(s.entities, few, c, n);
    }
    forall k ensures (MadeForOne(s, few, k) ==> MadeForOne(s, all, k)) && (Joinable(s.entities, c) && MadeFor(s, c, k) ==> MadeForOne(s, all, k)) {
      MadeForOneOn(s, few, c, k);
    }
    forall d ensures HasGroupFor(s, newGroups, d) || MadeFor(s, d, g) ==> HasGroupFor(s, newGroups + [g], d) {
      HasGroupOn(s, newGroups, g, d);
    }
  }

  lemma {:induction false} MakesGroups(s: Library, candidates: seq<Candidate>, newGroups: seq<Group>, joined: set<string>, t: Library)
    requires Makes(s, candidates, newGroups, joined) && t.groups == newGroups + Apart(s.groups, joined)
    ensures Regrouped(s, t, candidates)
  {
    hide Joinable, MadeFor, Apart, Replaced;
    ApartAre(s.groups, joined);
    forall k ensures k in t.groups <==> k in newGroups || k in Apart(s.groups, joined) { }
    forall c | c in candidates && Joinable(s.entities, c) ensures HasGroupFor(s, t.groups, c) {
      var k :| k in newGroups && MadeFor(s, c, k);
      assert k in t.groups;
    }
  }

  lemma {:induction false} MakesNone(s: Library, candidates: seq<Candidate>, joined: set<string>)
    requires Makes(s, candidates, [], joined)
    ensures Regrouped(s, s, candidates)
  {
    hide Joinable, MadeFor;
    forall c | c in candidates ensures !Joinable(s.entities, c) { assert !HasGroupFor(s, [], c); }
  }

  function Min(a: nat, b: nat): nat { if a < b then a else b }

  lemma {:induction false} ProgressOn(s: Library, candidates: seq<Candidate>, i: nat, joinedEntities: seq<Entity>,
    joined: set<string>, merged: Entity)
    requires i < |candidates| && Progress(s, candidates, i, joinedEntities, joined)
    ensures !Joinable(s.entities, candidates[i]) ==> Progress(s, candidates, i + 1, joinedEntities, joined)
    ensures Joinable(s.entities, candidates[i]) && IsUnion(s.entities, candidates[i].names, merged) ==>
      Progress(s, candidates, i + 1, joinedEntities + [merged], joined + SetOf(merged.names))
  {
    hide Joinable, Unites, TakesFirstCloud;
    assert candidates[..i + 1] == candidates[..i] + [candidates[i]];
    assert candidates[i] in candidates[..i + 1];
    assert merged in joinedEntities + [merged];
    forall e | JoinedFor(s, candidates[..i], e) ensures JoinedFor(s, candidates[..i + 1], e) {
      var c :| c in candidates[..i] && Joinable(s.entities, c) && e.names == c.names;
      assert c in candidates[..i + 1];
    }
    forall names | HasUnion(s.entities, joinedEntities, names) ensures HasUnion(s.entities, joinedEntities + [merged], names) {
      var e :| e in joinedEntities && IsUnion(s.entities, names, e);
      assert e in joinedEntities + [merged];
    }
    if IsUnion(s.entities, candidates[i].names, merged) { assert HasUnion(s.entities, joinedEntities + [merged], candidates[i].names); }
  }

  lemma {:induction false} PassCoalesces(s: Library, cur: Library, removed: set<nat>, joinedEntities: seq<Entity>,
    newGroups: seq<Group>, joined: set<string>, candidates: seq<Candidate>)
    requires PassHolds(s, cur, removed, joinedEntities, newGroups, joined)
    requires Progress(s, candidates, |candidates|, joinedEntities, joined)
    ensures Coalesced(s.entities, cur.entities, candidates)
  {
    hide Find, Joinable, Touched, Unique, InOrder, Home, Conserves, Unites, TakesFirstCloud;
    assert candidates[..|candidates|] == candidates;
    forall c, n | c in candidates && Joinable(s.entities, c) && n in c.names
      ensures Find(cur.entities, n).Some? && IsUnion(s.entities, c.names, Find(cur.entities, n).value)
    {
      var e :| e in joinedEntities && IsUnion(s.entities, c.names, e);
      FindIs(cur.entities, e, n);
    }
  }

  lemma {:induction false} PassStarts(s: Library)
    requires Unique(s.entities) && NoRepeats(s.groups)
    ensures PassHolds(s, s, {}, [], [], {})
  {
    hide Find, Home, GroupsFit, PartsFit, EntitiesFit, KeepsKnown;
    NothingKeepsKnown(s);
  }

  /** Every candidate to be joined has its names all among these or none. */
  ghost predicate JoinsBeside(entities: seq<Entity>, candidates: seq<Candidate>, names: set<string>) {
    forall c | c in candidates && Joinable(entities, c) :: Beside(c.names, names)
  }

  /** What is known of the names of whole entities is not forgotten, whatever the rest of the library is like. */
  ghost predicate Remembered(s: Library, t: Library, candidates: seq<Candidate>) {
    forall names: set<string>, known: set<string> | FitsOn(s, names, known) && JoinsBeside(s.entities, candidates, names) ::
      FitsOn(t, names, known) && KeepsHomes(s, t, known)
  }

  lemma {:induction false} PassRemembers(s: Library, cur: Library, t: Library, joinedEntities: seq<Entity>, joined: set<string>,
    candidates: seq<Candidate>)
    requires KeepsKnown(s, cur, joinedEntities) && Unique(cur.entities) && (t == cur || Reordered(cur, t))
    requires Progress(s, candidates, |candidates|, joinedEntities, joined)
    ensures Remembered(s, t, candidates)
  {
    hide FitsOn, Home, Unique, Joinable, HasUnion, Reordered, Beside;
    assert candidates[..|candidates|] == candidates;
    forall names: set<string>, known: set<string> | FitsOn(s, names, known) && JoinsBeside(s.entities, candidates, names)
      ensures FitsOn(t, names, known) && KeepsHomes(s, t, known)
    {
      forall e | e in joinedEntities ensures Beside(e.names, names) {
        assert JoinedFor(s, candidates, e);
        var c :| c in candidates && Joinable(s.entities, c) && e.names == c.names;
      }
      assert AllBeside(joinedEntities, names);
      if t != cur { ReorderedKnown(cur, t, names, known); }
    }
  }

  lemma {:induction false} PassResult(s: Library, cur: Library, t: Library, candidates: seq<Candidate>)
    requires Unique(cur.entities) && Conserves(s.entities, cur.entities) && Reordered(cur, t)
    requires Grouped(s) ==> Grouped(cur) && SameHomes(s, cur)
    requires InOrder(s) ==> InOrder(cur)
    requires Coalesced(s.entities, cur.entities, candidates)
    ensures Unique(t.entities) && Conserves(s.entities, t.entities) && Coalesced(s.entities, t.entities, candidates)
    ensures Grouped(s) ==> Grouped(t) && SameHomes(s, t)
    ensures InOrder(s) ==> InOrder(t)
  {
    hide Find, Home, Unique, Grouped, PartsFit, EntitiesFit, Reordered, Joinable, IsUnion;
    forall n ensures Find(t.entities, n) == Find(cur.entities, n) && Unique(t.entities) { ReorderedFinds(cur, t, n); }
    ReorderedFinds(cur, t, "");
    if Grouped(s) { ReorderedGrouped(cur, t); }
    if InOrder(s) { ReorderedInOrder(cur, t); }
  }

  lemma {:induction false} NextCandidate(entities: seq<Entity>, candidates: seq<Candidate>, i: nat, joined: set<string>)
    requires AreCandidates(entities, candidates) && i < |candidates|
    requires forall n | n in joined :: exists k :: 0 <= k < i && n in candidates[k].names
    ensures joined !! SetOf(candidates[i].names)
    ensures candidates[i].names != [] && forall n | n in candidates[i].names :: Find(entities, n).Some?
  {
    hide Find;
    assert candidates[i] in candidates;
  }

  /** Join every candidate with at least two members that it covers entirely, and nothing else. No name
      loses its entity or a game ID. What is known of the names of whole entities is remembered, whatever
      the other groups are like; and a library whose groups all fit remembers everything. */
  method Coalesce(s: Library, candidates: seq<Candidate>) returns (t: Library)
    requires Unique(s.entities) && NoRepeats(s.groups) && AreCandidates(s.entities, candidates)
    ensures Coalesced(s.entities, t.entities, candidates)
    ensures Unique(t.entities) && Conserves(s.entities, t.entities)
    ensures Regrouped(s, t, candidates) && Remembered(s, t, candidates)
    ensures Grouped(s) ==> Grouped(t) && SameHomes(s, t)
    ensures InOrder(s) ==> InOrder(t) && SameHomes(s, t)
  {
    hide Find, EntityAt, Unique, Grouped, PartsFit, EntitiesFit, Home, Pass, Apart, AreCandidates, Conserves, JoinedInto, SetOf, OwnersOf,
      MembersWithin, Unites, Coalesced, Joinable, Progress, IsUnion, Gathers, KeepsKnown, Remembered, Makes, Regrouped;
    var removed: set<nat> := {};
    var joinedEntities: seq<Entity> := [];
    var newGroups: seq<Group> := [];
    var joined: set<string> := {};
    ghost var cur := s;
    PassStarts(s);
    NoProgress(s, candidates);
    MakesNothing(s);
    assert candidates[..0] == [];
    for i := 0 to |candidates|
      invariant PassHolds(s, cur, removed, joinedEntities, newGroups, joined)
      invariant Progress(s, candidates, i, joinedEntities, joined) && Makes(s, candidates[..i], newGroups, joined)
      invariant |newGroups| == |joinedEntities|
    {
      var c := candidates[i];
      JoinedAreEarlier(s, candidates, i, joinedEntities, joined);
      NextCandidate(s.entities, candidates, i, joined);
      var found := FindMembers(s.entities, c.names);
      var members := found.value;
      JoinableIs(s.entities, c, members);
      if !(|members| >= 2) {
        ProgressOn(s, candidates, i, joinedEntities, joined, Entity(0, None, [], []));
        MakesOn(s, candidates, i, newGroups, joined, Group("", [], None, None));
      }
      if |members| >= 2 {
        MembersExist(s.entities, c.names, members);
        var complete := IsComplete(s.entities, members, c.names, removed);
        if MembersWithin(s.entities, members, c.names) {
          MembersAreThere(s, cur, removed, joinedEntities, newGroups, joined, c.names, members);
        }
        if !complete {
          ProgressOn(s, candidates, i, joinedEntities, joined, Entity(0, None, [], []));
          MakesOn(s, candidates, i, newGroups, joined, Group("", [], None, None));
        }
        if complete {
          var merged, g := JoinCandidate(s, c, members);
          UnionUnites(s.entities, c.names, merged);
          PassJoins(s, cur, removed, joinedEntities, newGroups, joined, members, merged, g);
          cur := JoinedInto(cur, merged, g, SetOf(merged.names));
          NamesAre(c.names);
          ProgressOn(s, candidates, i, joinedEntities, joined, merged);
          MakesOn(s, candidates, i, newGroups, joined, g);
          joined := joined + set n | n in c.names;
          removed, joinedEntities, newGroups := removed + members, joinedEntities + [merged], newGroups + [g];
        }
      }
    }
    assert candidates[..|candidates|] == candidates;
    PassCoalesces(s, cur, removed, joinedEntities, newGroups, joined, candidates);
    if joinedEntities == [] {
      t := s;
      NothingJoined(s, candidates, joined);
      NothingKeepsKnown(s);
      MakesNone(s, candidates, joined);
      PassRemembers(s, s, s, [], joined, candidates);
      return;
    }
    var kept := KeepOthers(s.entities, removed);
    t := Library(SortBy(IdLe, kept + joinedEntities), newGroups + Apart(s.groups, joined));
    UniqueOnce(s.entities);
    PassEnds(s, cur, removed, joinedEntities, newGroups, joined, kept, t);
    MakesGroups(s, candidates, newGroups, joined, t);
    PassResult(s, cur, t, candidates);
    PassRemembers(s, cur, t, joinedEntities, joined, candidates);
  }

  lemma {:induction false} UnionUnites(entities: seq<Entity>, names: seq<string>, e: Entity)
    requires IsUnion(entities, names, e)
    ensures e.names == names && Unites(entities, SetOf(names), e)
  {
  }

  lemma {:induction false} UniqueOnce(entities: seq<Entity>)
    requires Unique(entities)
    ensures NoRepeats(entities)
  {
  }

  lemma {:induction false} NamesAre(names: seq<string>)
    ensures SetOf(names) == set n | n in names
  {
  }

  lemma {:induction false} NothingJoined(s: Library, candidates: seq<Candidate>, joined: set<string>)
    requires Progress(s, candidates, |candidates|, [], joined)
    ensures Conserves(s.entities, s.entities) && SameHomes(s, s) && Coalesced(s.entities, s.entities, candidates)
  {
    hide Find, Home, Joinable;
    assert candidates[..|candidates|] == candidates;
    forall c | c in candidates ensures !Joinable(s.entities, c) {
      assert !HasUnion(s.entities, [], c.names);
    }
  }

  lemma {:induction false} NoProgress(s: Library, candidates: seq<Candidate>)
    ensures Progress(s, candidates, 0, [], {})
  {
  }

  lemma {:induction false} JoinedAreEarlier(s: Library, candidates: seq<Candidate>, i: nat, joinedEntities: seq<Entity>,
    joined: set<string>)
    requires i < |candidates| && Progress(s, candidates, i, joinedEntities, joined)
    ensures forall n | n in joined :: exists k :: 0 <= k < i && n in candidates[k].names
  {
    hide Joinable;
  }
}
