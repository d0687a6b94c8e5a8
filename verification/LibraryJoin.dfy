/** What merging and automatic coalescing have in common: entities are joined into one, a group
    saves where every name came from, and nothing is forgotten. */
module LibraryJoin {
  import opened Options
  import opened Collections
  import opened PlayerLibrary

  predicate Touched(names: seq<string>, merging: set<string>) { exists n :: n in names && n in merging }

  /** The names to join include all names of the entities they belong to. */
  ghost predicate Closed(entities: seq<Entity>, merging: set<string>) {
    forall n | n in merging :: Find(entities, n).Some? && SetOf(Find(entities, n).value.names) <= merging
  }

  ghost predicate IsMember(entities: seq<Entity>, merging: set<string>, e: Entity) {
    e in entities && Touched(e.names, merging)
  }

  /** The joined entity: the lowest ID among the members, and all their game IDs. */
  ghost predicate Unites(entities: seq<Entity>, merging: set<string>, merged: Entity) {
    && (exists e :: IsMember(entities, merging, e) && e.entityId == merged.entityId)
    && (forall e | IsMember(entities, merging, e) :: merged.entityId <= e.entityId)
    && (forall id :: id in merged.gameIds <==> exists e :: IsMember(entities, merging, e) && id in e.gameIds)
  }

  /** The entities whose names are merged.names become one; the others stay, in whatever order. */
  ghost predicate JoinsEntities(before: seq<Entity>, after: seq<Entity>, merged: Entity) {
    var merging := SetOf(merged.names);
    && merged.names != [] && Closed(before, merging) && Unites(before, merging, merged)
    && (forall e :: e in after <==> (e in before && !Touched(e.names, merging)) || e == merged)
    && NoRepeats(after)
  }

  /** One group takes the place of those that share names with it; the others stay. */
  ghost predicate JoinsGroups(before: seq<Group>, after: seq<Group>, g: Group) {
    (forall k :: k in after <==> (k in before && !Touched(k.names, SetOf(g.names))) || k == g) && NoRepeats(after)
  }

  /** The new group saves all its names, and whatever it saves is as the library knew it before. */
  ghost predicate SavesHomes(s: Library, names: seq<string>, g: Group) {
    && (forall n | n in names :: Saves(g, n) && Home(s, n) == Some(SavedPart(g, n)))
    && (forall n :: Truthful(s, g, n))
  }

  /** Some entities become one, covered by a group that saves where every name came from. */
  ghost predicate Joins(s: Library, t: Library, merged: Entity, g: Group) {
    && JoinsEntities(s.entities, t.entities, merged)
    && g.names == merged.names && JoinsGroups(s.groups, t.groups, g)
    && SavesHomes(s, merged.names, g)
  }

  lemma {:induction false} UntouchedApart(names: seq<string>, merging: set<string>)
    requires !Touched(names, merging)
    ensures forall n | n in names :: n !in merging
  {
  }

  // ---- Entities ----

  lemma {:induction false} UniqueAfter(before: seq<Entity>, after: seq<Entity>, merged: Entity)
    requires Unique(before) && JoinsEntities(before, after, merged)
    ensures Unique(after)
  {
    hide Find;
    var merging := SetOf(merged.names);
    forall e | e in before && !Touched(e.names, merging)
      ensures e.entityId != merged.entityId && forall n | n in e.names :: n !in merged.names
    {
      var m :| IsMember(before, merging, m) && m.entityId == merged.entityId;
      UntouchedApart(e.names, merging);
    }
  }

  lemma {:induction false} MemberNamesMerge(entities: seq<Entity>, merging: set<string>, e: Entity, n: string)
    requires Unique(entities) && Closed(entities, merging) && e in entities && Touched(e.names, merging) && n in e.names
    ensures n in merging
  {
    hide Find;
    var m :| m in e.names && m in merging;
    FindIs(entities, e, m);
    assert n in SetOf(e.names);
  }

  lemma {:induction false} FindAfter(before: seq<Entity>, after: seq<Entity>, merged: Entity, n: string)
    requires Unique(before) && JoinsEntities(before, after, merged)
    ensures Find(after, n) == if n in merged.names then Some(merged) else Find(before, n)
  {
    hide Find, Unites, Unique, Touched;
    var merging := SetOf(merged.names);
    UniqueAfter(before, after, merged);
    FindFinds(before, n);
    FindFinds(after, n);
    if n in merged.names {
      FindIs(after, merged, n);
    } else if Find(before, n).Some? {
      var e := Find(before, n).value;
      if Touched(e.names, merging) { MemberNamesMerge(before, merging, e, n); }
      FindIs(after, e, n);
    }
  }

  lemma {:induction false} OwnerIsMember(before: seq<Entity>, merged: Entity, n: string)
    requires Closed(before, SetOf(merged.names)) && n in merged.names
    ensures Find(before, n).Some? && n in Find(before, n).value.names
    ensures IsMember(before, SetOf(merged.names), Find(before, n).value)
  {
    hide Find;
    FindFinds(before, n);
  }

  /** Every name keeps an entity, and that entity has all game IDs that the name's entity had. */
  ghost predicate Conserves(before: seq<Entity>, after: seq<Entity>) {
    forall n :: Find(before, n).Some? == Find(after, n).Some? &&
      (Find(before, n).Some? ==> SetOf(Find(before, n).value.gameIds) <= SetOf(Find(after, n).value.gameIds))
  }

  lemma {:induction false} JoinConserves(before: seq<Entity>, after: seq<Entity>, merged: Entity)
    requires Unique(before) && JoinsEntities(before, after, merged)
    ensures Conserves(before, after)
  {
    hide Find, Unique, Touched;
    forall n ensures Find(before, n).Some? == Find(after, n).Some? &&
        (Find(before, n).Some? ==> SetOf(Find(before, n).value.gameIds) <= SetOf(Find(after, n).value.gameIds))
    {
      FindAfter(before, after, merged, n);
      if n in merged.names { OwnerIsMember(before, merged, n); }
    }
  }

  // ---- Groups ----

  ghost predicate Disjoint(groups: seq<Group>) {
    forall g, h, n | g in groups && h in groups && n in g.names && n in h.names :: g == h
  }

  lemma {:induction false} GroupIs(groups: seq<Group>, g: Group, n: string)
    requires Disjoint(groups) && g in groups && n in g.names
    ensures GroupWith(groups, n) == Some(g)
  {
    hide GroupWith;
    GroupWithFinds(groups, n);
  }

  lemma {:induction false} DisjointAfter(s: Library, t: Library, merged: Entity, g: Group)
    requires Disjoint(s.groups) && Joins(s, t, merged, g)
    ensures Disjoint(t.groups)
  {
    hide Find, SavesHomes, Unites, Closed, NoRepeats;
    var merging := SetOf(merged.names);
    forall k | k in s.groups && !Touched(k.names, merging) ensures forall n | n in k.names :: n !in g.names {
      UntouchedApart(k.names, merging);
    }
  }

  lemma {:induction false} TouchedGroupMerges(s: Library, merging: set<string>, k: Group, n: string)
    requires Unique(s.entities) && GroupsFit(s) && Closed(s.entities, merging)
    requires k in s.groups && Touched(k.names, merging) && n in k.names
    ensures n in merging
  {
    hide Find, Unique;
    var m :| m in k.names && m in merging;
    FindFinds(s.entities, m);
    var e := Find(s.entities, m).value;
    assert SetOf(k.names) == SetOf(e.names);
    assert n in SetOf(k.names);
  }

  lemma {:induction false} GroupAfter(s: Library, t: Library, merged: Entity, g: Group, n: string)
    requires Unique(s.entities) && GroupsFit(s) && Joins(s, t, merged, g)
    ensures GroupWith(t.groups, n) == if n in merged.names then Some(g) else GroupWith(s.groups, n)
  {
    hide Find, GroupWith, SavesHomes, Unites, Unique, Touched, Closed;
    var merging := SetOf(merged.names);
    DisjointAfter(s, t, merged, g);
    GroupWithFinds(s.groups, n);
    GroupWithFinds(t.groups, n);
    if n in merged.names {
      GroupIs(t.groups, g, n);
    } else if GroupWith(s.groups, n).Some? {
      var k := GroupWith(s.groups, n).value;
      if Touched(k.names, merging) { TouchedGroupMerges(s, merging, k, n); }
      GroupIs(t.groups, k, n);
    }
  }

  lemma {:induction false} JoinKeepsHome(s: Library, t: Library, merged: Entity, g: Group, n: string)
    requires Unique(s.entities) && GroupsFit(s) && Joins(s, t, merged, g)
    ensures Home(t, n) == Home(s, n)
  {
    hide Find, GroupWith, Unites, Unique, Touched, GroupsFit, JoinsEntities, JoinsGroups;
    FindAfter(s.entities, t.entities, merged, n);
    GroupAfter(s, t, merged, g, n);
  }

  lemma {:induction false} CoverAfter(s: Library, t: Library, merged: Entity, g: Group, k: Group, e: Entity, n: string)
    requires Unique(s.entities) && GroupsFit(s) && Joins(s, t, merged, g)
    requires k in t.groups && e in t.entities && n in k.names && n in e.names
    ensures SetOf(k.names) == SetOf(e.names)
  {
    hide Find, GroupWith, Unites, SavesHomes, Saves, Closed, NoRepeats, Touched;
    var merging := SetOf(merged.names);
    if k != g { UntouchedApart(k.names, merging); }
    if e != merged { UntouchedApart(e.names, merging); }
  }

  lemma {:induction false} TruthfulAfter(s: Library, t: Library, merged: Entity, g: Group, k: Group, n: string)
    requires Unique(s.entities) && GroupsFit(s) && Joins(s, t, merged, g) && k in t.groups
    ensures Truthful(t, k, n)
  {
    hide Find, GroupWith, Unites, Closed, Unique, Home, Touched, Saves;
    assert Truthful(s, k, n);
    JoinKeepsHome(s, t, merged, g, n);
    FindAfter(s.entities, t.entities, merged, n);
    if n in merged.names { OwnerIsMember(s.entities, merged, n); }
  }

  lemma {:induction false} GroupsFitAfter(s: Library, t: Library, merged: Entity, g: Group)
    requires Unique(s.entities) && GroupsFit(s) && Joins(s, t, merged, g)
    ensures GroupsFit(t)
  {
    hide Find, GroupWith, Unites, Saves, Closed, Unique, Home, Touched, Truthful;
    DisjointAfter(s, t, merged, g);
    UniqueAfter(s.entities, t.entities, merged);
    forall k, n | k in t.groups && n in k.names ensures Find(t.entities, n).Some? { FindAfter(s.entities, t.entities, merged, n); }
    forall k, n | k in t.groups ensures Truthful(t, k, n) { TruthfulAfter(s, t, merged, g, k, n); }
    forall k, e, n | k in t.groups && e in t.entities && n in k.names && n in e.names
      ensures SetOf(k.names) == SetOf(e.names)
    {
      CoverAfter(s, t, merged, g, k, e, n);
    }
  }

  // ---- Constituents ----

  lemma {:induction false} HomeFound(s: Library, n: string)
    requires Home(s, n).Some?
    ensures Find(s.entities, n).Some?
  {
  }

  lemma {:induction false} PartsFitAfter(s: Library, t: Library, merged: Entity, g: Group)
    requires InOrder(s) && Joins(s, t, merged, g)
    ensures PartsFit(t)
  {
    hide Find, GroupWith, Unites, Home, Touched, EntitiesFit, SavesHomes, JoinsEntities, JoinsGroups, Unique, GroupsFit;
    forall n ensures Home(t, n) == Home(s, n) { JoinKeepsHome(s, t, merged, g, n); }
    forall n, m | Home(t, n).Some? && Home(t, m).Some? && Home(t, n).value.entityId == Home(t, m).value.entityId
      ensures Home(t, n) == Home(t, m) && Find(t.entities, n) == Find(t.entities, m)
    {
      HomeFound(s, n);
      SameMember(s, t, merged, g, n, m);
    }
  }

  lemma {:induction false} SameMember(s: Library, t: Library, merged: Entity, g: Group, n: string, m: string)
    requires Unique(s.entities) && Joins(s, t, merged, g)
    requires Find(s.entities, n) == Find(s.entities, m) && Find(s.entities, n).Some?
    ensures Find(t.entities, n) == Find(t.entities, m)
  {
    hide Find, GroupWith, Unites, Home, SavesHomes, JoinsGroups;
    FindAfter(s.entities, t.entities, merged, n);
    FindAfter(s.entities, t.entities, merged, m);
    var e := Find(s.entities, n).value;
    FindFinds(s.entities, n);
    FindFinds(s.entities, m);
    var merging := SetOf(merged.names);
    if n in merged.names { MemberNamesMerge(s.entities, merging, e, m); }
    if m in merged.names { MemberNamesMerge(s.entities, merging, e, n); }
  }

  lemma {:induction false} MergedNamesMembers(s: Library, t: Library, merged: Entity, g: Group, e: Entity, n: string)
    requires InOrder(s) && Joins(s, t, merged, g)
    requires IsMember(s.entities, SetOf(merged.names), e) && n in e.names
    ensures n in merged.names && Home(t, n) == Home(s, n)
  {
    hide Find, GroupWith, Unites, Home, EntitiesFit, PartsFit, GroupsFit, Touched, SavesHomes, JoinsGroups;
    MemberNamesMerge(s.entities, SetOf(merged.names), e, n);
    JoinKeepsHome(s, t, merged, g, n);
  }

  lemma {:induction false} MergedIsNamed(s: Library, t: Library, merged: Entity, g: Group)
    requires InOrder(s) && Joins(s, t, merged, g)
    ensures exists n :: NamesIt(t, merged, n)
  {
    hide Find, GroupWith, Home, PartsFit, GroupsFit, Touched, Unique, Closed, SavesHomes, JoinsGroups;
    var e :| IsMember(s.entities, SetOf(merged.names), e) && e.entityId == merged.entityId;
    var n :| NamesIt(s, e, n);
    MergedNamesMembers(s, t, merged, g, e, n);
    assert NamesIt(t, merged, n);
  }

  lemma {:induction false} MergedGames(s: Library, t: Library, merged: Entity, g: Group, id: nat)
    requires InOrder(s) && Joins(s, t, merged, g)
    ensures id in merged.gameIds <==> Within(t, merged, id)
  {
    hide Find, GroupWith, Home, PartsFit, GroupsFit, Touched, Unique, SavesHomes, JoinsGroups;
    if id in merged.gameIds {
      var e :| IsMember(s.entities, SetOf(merged.names), e) && id in e.gameIds;
      assert Within(s, e, id);
      var n :| n in e.names && Home(s, n).Some? && id in Home(s, n).value.gameIds;
      MergedNamesMembers(s, t, merged, g, e, n);
    }
    if Within(t, merged, id) {
      var n :| n in merged.names && Home(t, n).Some? && id in Home(t, n).value.gameIds;
      JoinKeepsHome(s, t, merged, g, n);
      OwnerIsMember(s.entities, merged, n);
      var e := Find(s.entities, n).value;
      assert Within(s, e, id);
    }
  }

  lemma {:induction false} OthersFit(s: Library, t: Library, merged: Entity, g: Group, e: Entity)
    requires InOrder(s) && Joins(s, t, merged, g) && e in s.entities
    ensures exists n :: NamesIt(t, e, n)
    ensures forall id :: id in e.gameIds <==> Within(t, e, id)
  {
    hide Find, GroupWith, Home, PartsFit, GroupsFit, Touched, Unique, Closed, Unites, SavesHomes, JoinsGroups;
    forall n ensures Home(t, n) == Home(s, n) { JoinKeepsHome(s, t, merged, g, n); }
    var n :| NamesIt(s, e, n);
    assert NamesIt(t, e, n);
    forall id ensures id in e.gameIds <==> Within(t, e, id) {
      assert Within(t, e, id) <==> Within(s, e, id);
    }
  }

  lemma {:induction false} EntitiesFitAfter(s: Library, t: Library, merged: Entity, g: Group)
    requires InOrder(s) && Joins(s, t, merged, g)
    ensures EntitiesFit(t)
  {
    hide Find, GroupWith, Home, InOrder, Touched, Closed, Unites, Within, NamesIt, SavesHomes;
    MergedIsNamed(s, t, merged, g);
    forall id ensures id in merged.gameIds <==> Within(t, merged, id) { MergedGames(s, t, merged, g, id); }
    forall e | e in t.entities && e != merged
      ensures (exists n :: NamesIt(t, e, n)) && forall id :: id in e.gameIds <==> Within(t, e, id)
    {
      OthersFit(s, t, merged, g, e);
    }
  }

  lemma {:induction false} JoinKeepsGroups(s: Library, t: Library, merged: Entity, g: Group)
    requires Grouped(s) && Joins(s, t, merged, g)
    ensures Grouped(t) && SameHomes(s, t)
  {
    hide JoinsEntities, JoinsGroups, SavesHomes, Unique, GroupsFit, Home;
    UniqueAfter(s.entities, t.entities, merged);
    GroupsFitAfter(s, t, merged, g);
    forall n ensures Home(s, n) == Home(t, n) { JoinKeepsHome(s, t, merged, g, n); }
  }

  /** A join leaves the library in order and remembers every constituent as it was. */
  lemma {:induction false} JoinRemembers(s: Library, t: Library, merged: Entity, g: Group)
    requires InOrder(s) && Joins(s, t, merged, g)
    ensures InOrder(t) && SameHomes(s, t)
  {
    hide JoinsEntities, JoinsGroups, SavesHomes, Unique, GroupsFit, PartsFit, EntitiesFit, Home;
    JoinKeepsGroups(s, t, merged, g);
    PartsFitAfter(s, t, merged, g);
    EntitiesFitAfter(s, t, merged, g);
  }
}
