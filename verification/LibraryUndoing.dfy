/** Splitting everything that was merged: the order of a library, and any number of nested merges. */
module LibraryUndoing {
  import opened Options
  import opened Ordering
  import opened Collections
  import opened PlayerLibrary
  import opened LibraryJoin
  import opened LibraryMerge
  import opened LibrarySplit
  import opened LibraryRestoring
  import opened LibraryMemory

  // ---- Splitting all names of a group ----

  /** The group that is split covers the entity. */
  ghost predicate Covers(s: Library, i: nat, o: Entity) {
    i < |s.groups| && o in s.entities && SetOf(s.groups[i].names) == SetOf(o.names)
  }

  /** All names of an entity that a group covers are split off. */
  ghost predicate SplitsAll(s: Library, t: Library, i: nat, o: Entity, d: Division, next: nat) {
    Covers(s, i, o) && Below(s.entities, next) && SplitsInto(s, t, i, o, d, next) && d.remaining == []
  }

  /** It is known where every name of the entity comes from, with the ID it had there. */
  ghost predicate HasHomes(s: Library, o: Entity) {
    forall n | n in o.names :: Home(s, n).Some? && Home(s, n).value.entityId.Some?
  }

  /** No other group has a name of the entity. */
  ghost predicate Alone(groups: seq<Group>, names: set<string>) {
    forall g, h, n | g in groups && h in groups && n in names && n in g.names && n in h.names :: g == h
  }

  lemma {:induction false} CoversRemembers(s: Library, i: nat, o: Entity)
    requires Covers(s, i, o) && HasHomes(s, o) && Alone(s.groups, SetOf(o.names))
    ensures Remembers(s, i, o)
  {
    hide Find, GroupWith;
    forall n | n in o.names
      ensures GroupWith(s.groups, n) == Some(s.groups[i]) && Saves(s.groups[i], n) && SourceOf(s.groups[i], n).Some?
    {
      assert n in SetOf(o.names);
      GroupWithFinds(s.groups, n);
    }
  }

  lemma {:induction false} OrderedRemembers(s: Library, i: nat, o: Entity)
    requires InOrder(s) && Covers(s, i, o)
    ensures Remembers(s, i, o)
  {
    hide Find, GroupWith, Unique, EntitiesFit, Truthful;
    forall n | n in o.names ensures Home(s, n).Some? && Home(s, n).value.entityId.Some? {
      assert n in SetOf(o.names);
      GroupIs(s.groups, s.groups[i], n);
    }
    CoversRemembers(s, i, o);
  }

  lemma {:induction false} AllSelected(s: Library, t: Library, i: nat, o: Entity, d: Division, next: nat, n: string)
    requires SplitsAll(s, t, i, o, d, next)
    ensures n in d.selected <==> n in o.names
    ensures (exists x :: IsExtra(s.groups[i], o, x)) ==> d.keep in o.names
  {
    hide Restores, Assigns, Leaves, Others, IsExtra, GroupsAfter, SourceOf;
  }

  lemma {:induction false} GroupsAfterAll(s: Library, t: Library, i: nat, o: Entity, d: Division, next: nat)
    requires NoRepeats(s.groups) && SplitsAll(s, t, i, o, d, next)
    ensures forall k :: k in t.groups <==> k in s.groups && k != s.groups[i]
    ensures NoRepeats(t.groups)
  {
    hide Restores, Assigns, Leaves, Others, IsExtra, SourceOf;
    var groups, i := s.groups, i;
    assert t.groups == groups[..i] + groups[i + 1..];
    assert groups == groups[..i] + [groups[i]] + groups[i + 1..];
    forall j, k | 0 <= j < k < |t.groups| ensures t.groups[j] != t.groups[k] {
      assert t.groups[j] == groups[if j < i then j else j + 1] && t.groups[k] == groups[if k < i then k else k + 1];
    }
  }

  lemma {:induction false} GroupAfterAll(s: Library, t: Library, i: nat, o: Entity, d: Division, next: nat, n: string)
    requires Grouped(s) && SplitsAll(s, t, i, o, d, next)
    ensures GroupWith(t.groups, n) == if n in o.names then None else GroupWith(s.groups, n)
  {
    hide Find, GroupWith, Unique, SplitsInto, Truthful, SourceOf;
    GroupsAfterAll(s, t, i, o, d, next);
    GroupWithFinds(t.groups, n);
    GroupWithFinds(s.groups, n);
    var g := s.groups[i];
    assert n in SetOf(g.names) <==> n in SetOf(o.names);
    if n !in o.names && GroupWith(s.groups, n).Some? {
      var k := GroupWith(s.groups, n).value;
      assert k != g && k in t.groups;
      GroupIs(t.groups, k, n);
    }
  }

  ghost predicate AllRestored(s: Library, t: Library, o: Entity) { forall n | n in o.names :: Restored(s, t, n) }

  lemma {:induction false} HomeAfterAll(s: Library, t: Library, i: nat, o: Entity, d: Division, next: nat, n: string)
    requires Grouped(s) && SplitsAll(s, t, i, o, d, next) && AllRestored(s, t, o)
    ensures Home(t, n) == Home(s, n) && (Find(t.entities, n).Some? <==> Find(s.entities, n).Some?)
  {
    hide Find, GroupWith, Unique, SplitsInto, GroupsFit, Covers;
    GroupAfterAll(s, t, i, o, d, next, n);
    SplitKeepsNames(s, t, i, o, d, next, n);
    if n in o.names {
      assert Restored(s, t, n);
      HomeFound(s, n);
    }
  }

  lemma {:induction false} CoverAfterAll(s: Library, t: Library, i: nat, o: Entity, d: Division, next: nat, k: Group, e: Entity, n: string)
    requires Grouped(s) && SplitsAll(s, t, i, o, d, next)
    requires k in s.groups && k != s.groups[i] && e in t.entities && n in k.names && n in e.names
    ensures SetOf(k.names) == SetOf(e.names)
  {
    hide Find, GroupWith, Unique, SplitsInto, SourceOf, Truthful, Saves;
    SplitParts(s, t, i, o, d, next);
    MadeOfNames(s, t, i, o, d, next, n);
    assert n in o.names <==> n in SetOf(o.names);
    assert n in s.groups[i].names <==> n in SetOf(s.groups[i].names);
  }

  /** If every constituent came back, the groups still fit and nothing is forgotten. */
  lemma {:induction false} SplitAllKeepsGroups(s: Library, t: Library, i: nat, o: Entity, d: Division, next: nat)
    requires Grouped(s) && SplitsAll(s, t, i, o, d, next) && AllRestored(s, t, o)
    ensures Grouped(t) && SameHomes(s, t)
  {
    hide Find, GroupWith, Unique, SplitsInto, Home, SplitsAll, Saves, AllRestored, Truthful;
    UniqueAfterAll(s, t, i, o, d, next);
    GroupsAfterAll(s, t, i, o, d, next);
    forall n ensures Home(t, n) == Home(s, n) && (Find(t.entities, n).Some? <==> Find(s.entities, n).Some?) {
      HomeAfterAll(s, t, i, o, d, next, n);
    }
    forall k, n | k in t.groups ensures Truthful(t, k, n) { StillTruthful(s, t, k, n); }
    forall k, e, n | k in t.groups && e in t.entities && n in k.names && n in e.names ensures SetOf(k.names) == SetOf(e.names) {
      CoverAfterAll(s, t, i, o, d, next, k, e, n);
    }
  }

  lemma {:induction false} UniqueAfterAll(s: Library, t: Library, i: nat, o: Entity, d: Division, next: nat)
    requires Grouped(s) && SplitsAll(s, t, i, o, d, next)
    ensures Unique(t.entities)
  {
    hide Unique, SplitsInto, GroupsFit, Covers;
    SplitKeepsUnique(s, t, i, o, d, next);
  }

  lemma {:induction false} StillTruthful(s: Library, t: Library, k: Group, n: string)
    requires Truthful(s, k, n) && Home(t, n) == Home(s, n) && (Find(t.entities, n).Some? <==> Find(s.entities, n).Some?)
    ensures Truthful(t, k, n)
  {
    hide Find, Home;
  }

  // ---- In a library in order ----

  lemma {:induction false} NoExtras(s: Library, i: nat, o: Entity, x: nat)
    requires InOrder(s) && Remembers(s, i, o)
    ensures !IsExtra(s.groups[i], o, x)
  {
    hide Find, GroupWith, Home, PartsFit, GroupsFit, Unique, NamesIt;
    if x in o.gameIds {
      assert Within(s, o, x);
      var n :| n in o.names && Home(s, n).Some? && x in Home(s, n).value.gameIds;
      RememberedHome(s, i, o, n);
    }
  }

  lemma {:induction false} OneIdOneOwner(s: Library, n: string, m: string)
    requires PartsFit(s) && Home(s, n).Some? && Home(s, m).Some?
    requires Home(s, n).value.entityId == Home(s, m).value.entityId
    ensures Find(s.entities, n) == Find(s.entities, m) && Home(s, n) == Home(s, m)
  {
    hide Find, Home;
  }

  lemma {:induction false} SourceIsFree(s: Library, i: nat, o: Entity, n: string)
    requires InOrder(s) && Remembers(s, i, o) && n in o.names
    ensures !TakenElsewhere(s.entities, o, SourceOf(s.groups[i], n).value)
  {
    hide Find, GroupWith, Home, GroupsFit, PartsFit, Within, SourceOf, Unique;
    RememberedHome(s, i, o, n);
    forall e | e in s.entities && e.entityId != o.entityId ensures Some(e.entityId) != SourceOf(s.groups[i], n) {
      var m :| NamesIt(s, e, m);
      FindIs(s.entities, e, m);
      if Home(s, m).value.entityId == Home(s, n).value.entityId { OneIdOneOwner(s, m, n); }
    }
  }

  lemma {:induction false} OrderedIsRestorable(s: Library, t: Library, i: nat, o: Entity, d: Division, next: nat)
    requires InOrder(s) && SplitsAll(s, t, i, o, d, next)
    ensures AllRestored(s, t, o)
  {
    hide Find, GroupWith, Home, Unique, SplitsInto, IsExtra, SourceOf, GroupsFit, PartsFit, EntitiesFit, Covers, TakenElsewhere;
    OrderedRemembers(s, i, o);
    forall n ensures n in d.selected <==> n in o.names { AllSelected(s, t, i, o, d, next, n); }
    var g := s.groups[i];
    forall n | n in o.names ensures Available(s.entities, o, false, SourceOf(g, n).value) { SourceIsFree(s, i, o, n); }
    forall n, m | n in o.names && m in o.names && SourceOf(g, n) == SourceOf(g, m) ensures SavedPart(g, n) == SavedPart(g, m) {
      RememberedHome(s, i, o, n);
      RememberedHome(s, i, o, m);
      OneIdOneOwner(s, n, m);
    }
    forall x ensures !IsExtra(g, o, x) { NoExtras(s, i, o, x); }
    SplitRestores(s, t, i, o, d, next);
  }

  lemma {:induction false} PartsFitAfterAll(s: Library, t: Library, i: nat, o: Entity, d: Division, next: nat)
    requires InOrder(s) && SplitsAll(s, t, i, o, d, next) && SameHomes(s, t)
    ensures PartsFit(t)
  {
    hide Find, GroupWith, Home, Unique, SplitsInto, SourceOf, GroupsFit, EntitiesFit, Covers;
    forall n, m | Home(t, n).Some? && Home(t, m).Some? && Home(t, n).value.entityId == Home(t, m).value.entityId
      ensures Home(t, n) == Home(t, m) && Find(t.entities, n) == Find(t.entities, m)
    {
      assert Home(t, n) == Home(s, n) && Home(t, m) == Home(s, m);
      OneIdOneOwner(s, n, m);
      HomeFound(s, n);
      SameOwnerAfterAll(s, t, i, o, d, next, n, m);
    }
  }

  lemma {:induction false} SameOwnerAfterAll(s: Library, t: Library, i: nat, o: Entity, d: Division, next: nat, n: string, m: string)
    requires InOrder(s) && SplitsAll(s, t, i, o, d, next)
    requires Home(s, n).Some? && Home(s, m).Some? && Home(s, n).value.entityId == Home(s, m).value.entityId
    requires Find(s.entities, n) == Find(s.entities, m) && Find(s.entities, n).Some?
    ensures Find(t.entities, n) == Find(t.entities, m)
  {
    hide Find, GroupWith, Home, Unique, SplitsInto, SourceOf, GroupsFit, PartsFit, EntitiesFit, Restored;
    SplitKeepsNames(s, t, i, o, d, next, n);
    SplitKeepsNames(s, t, i, o, d, next, m);
    FindFinds(s.entities, n);
    FindFinds(s.entities, m);
    var e := Find(s.entities, n).value;
    SameEntityNames(s.entities, o, e, n, m);
    if n in o.names {
      OrderedIsRestorable(s, t, i, o, d, next);
      OrderedRemembers(s, i, o);
      AllSelected(s, t, i, o, d, next, n);
      AllSelected(s, t, i, o, d, next, m);
      RememberedHome(s, i, o, n);
      RememberedHome(s, i, o, m);
      OneSourceOnePart(s, t, i, o, d, next, n, m);
    }
  }

  lemma {:induction false} SameEntityNames(entities: seq<Entity>, o: Entity, e: Entity, n: string, m: string)
    requires Unique(entities) && o in entities && e in entities && n in e.names && m in e.names
    ensures n in o.names <==> m in o.names
  {
  }

  lemma {:induction false} EntitiesFitAfterAll(s: Library, t: Library, i: nat, o: Entity, d: Division, next: nat)
    requires InOrder(s) && SplitsAll(s, t, i, o, d, next) && AllRestored(s, t, o) && SameHomes(s, t) && Unique(t.entities)
    ensures EntitiesFit(t)
  {
    hide Find, GroupWith, Home, Unique, SplitsInto, SourceOf, GroupsFit, PartsFit, Covers, Within, NamesIt;
    SplitParts(s, t, i, o, d, next);
    NothingLeft(s, t, i, o, d, next);
    forall e | e in t.entities ensures (exists n :: NamesIt(t, e, n)) && forall id :: id in e.gameIds <==> Within(t, e, id) {
      if e in d.restored { RestoredFits(s, t, i, o, d, next, e); } else { OtherStillFits(s, t, e); }
    }
  }

  lemma {:induction false} NothingLeft(s: Library, t: Library, i: nat, o: Entity, d: Division, next: nat)
    requires SplitsAll(s, t, i, o, d, next)
    ensures Made(d) == d.restored
  {
    hide Restores, Assigns, Leaves, Others, IsExtra, GroupsAfter, SourceOf;
  }

  lemma {:induction false} RestoredFits(s: Library, t: Library, i: nat, o: Entity, d: Division, next: nat, e: Entity)
    requires SplitsAll(s, t, i, o, d, next) && AllRestored(s, t, o) && SameHomes(s, t) && Unique(t.entities)
    requires e in t.entities && e in d.restored
    ensures exists n :: NamesIt(t, e, n)
    ensures forall id :: id in e.gameIds <==> Within(t, e, id)
  {
    hide Find, GroupWith, Home, SplitsInto, Covers, HasItsGames, Unique, SourceOf;
    forall n | n in e.names ensures Home(t, n) == Some(OwnPart(e)) {
      RestoredEntity(s, t, i, o, d, next, e, n);
      FindIs(t.entities, e, n);
      assert Restored(s, t, n);
      assert Home(t, n) == Home(s, n);
    }
    UniqueHasNames(t.entities, e);
    assert NamesIt(t, e, e.names[0]);
    forall id ensures id in e.gameIds <==> Within(t, e, id) {
      if id in e.gameIds { assert id in Home(t, e.names[0]).value.gameIds && e.names[0] in e.names; }
    }
  }

  lemma {:induction false} UniqueHasNames(entities: seq<Entity>, e: Entity)
    requires Unique(entities) && e in entities
    ensures e.names != []
  {
  }

  lemma {:induction false} OtherStillFits(s: Library, t: Library, e: Entity)
    requires EntitiesFit(s) && SameHomes(s, t) && e in s.entities
    ensures exists n :: NamesIt(t, e, n)
    ensures forall id :: id in e.gameIds <==> Within(t, e, id)
  {
    hide Home;
    var n :| NamesIt(s, e, n);
    assert Home(t, n) == Home(s, n) && NamesIt(t, e, n);
    forall id ensures Within(t, e, id) <==> Within(s, e, id) {
      forall m ensures Home(t, m) == Home(s, m) {}
    }
  }

  /** Splitting all names of a group leaves a library in order, forgets nothing, and gives every
      name an entity of its own constituent again. */
  lemma {:induction false} SplitAllRestores(s: Library, t: Library, i: nat, o: Entity, d: Division, next: nat)
    requires InOrder(s) && SplitsAll(s, t, i, o, d, next)
    ensures InOrder(t) && SameHomes(s, t) && AllRestored(s, t, o)
    ensures forall n | n in o.names :: GroupWith(t.groups, n).None?
  {
    hide Grouped, PartsFit, EntitiesFit, SplitsAll, AllRestored, SameHomes, GroupWith;
    OrderedIsRestorable(s, t, i, o, d, next);
    SplitAllKeepsGroups(s, t, i, o, d, next);
    PartsFitAfterAll(s, t, i, o, d, next);
    UniqueAfterAll(s, t, i, o, d, next);
    EntitiesFitAfterAll(s, t, i, o, d, next);
    forall n | n in o.names ensures GroupWith(t.groups, n).None? { GroupAfterAll(s, t, i, o, d, next, n); }
  }

  // ---- Any number of merges, then a split ----

  /** In a library in order merges forget nothing at all. */
  lemma {:induction false} MergesKeepOrder(chain: seq<Library>)
    requires Merges(chain) && Grouped(chain[0])
    ensures Grouped(chain[|chain| - 1]) && SameHomes(chain[0], chain[|chain| - 1])
    ensures InOrder(chain[0]) ==> InOrder(chain[|chain| - 1])
  {
    hide Grouped, MergesInto, Home, InOrder;
    if |chain| > 1 {
      MergesBut(chain);
      MergesKeepOrder(chain[..|chain| - 1]);
      var s, t := chain[|chain| - 2], chain[|chain| - 1];
      var merged, g :| MergesInto(s, t, merged, g);
      MergeKeepsGroups(s, t, merged, g);
      if InOrder(s) { MergeRemembers(s, t, merged, g); }
    }
  }

  /** Two entities agree in everything but the order of their names and game IDs. */
  ghost predicate SameEntity(e: Entity, f: Entity) {
    e.entityId == f.entityId && e.cloudId == f.cloudId && SetOf(e.names) == SetOf(f.names) &&
    SetOf(e.gameIds) == SetOf(f.gameIds)
  }

  /** A name that was in no group has the entity back that it had; any other is what its group saved. */
  ghost predicate NameUndone(first: Library, t: Library, n: string) {
    && Restored(first, t, n)
    && (GroupWith(first.groups, n).None? ==>
      Find(first.entities, n).Some? && SameEntity(Find(first.entities, n).value, Find(t.entities, n).value))
  }

  ghost predicate Undone(first: Library, t: Library, o: Entity) { forall n | n in o.names :: NameUndone(first, t, n) }

  ghost predicate SameId(first: Library, n: string, m: string) {
    Home(first, n).Some? && Home(first, m).Some? && Home(first, n).value.entityId == Home(first, m).value.entityId
  }

  /** Names with one entity ID, own or saved, were one constituent, and a name in no group has that of
      all names of its entity and of no others. */
  ghost predicate ToldApart(first: Library, n: string, m: string) {
    && (SameId(first, n, m) ==> Home(first, n) == Home(first, m))
    && (GroupWith(first.groups, n).None? ==> (SameId(first, n, m) <==> OneOwner(first, n, m)))
  }

  /** What decides whether the split can undo the merges, before it is made. */
  ghost predicate Undoable(first: Library, s: Library, i: nat, o: Entity) {
    && i < |s.groups| && HasHomes(first, o)
    && (forall n, m | n in o.names && m in o.names :: ToldApart(first, n, m))
    && (forall n | n in o.names && SourceOf(s.groups[i], n).Some? ::
      !TakenElsewhere(s.entities, o, SourceOf(s.groups[i], n).value))
    && (forall x :: !IsExtra(s.groups[i], o, x))
  }

  ghost function HomesIn(s: Library, names: set<string>): set<string> { set n | n in names && Home(s, n).Some? }

  /** Merges, and then a split of all names of one entity. Of the first library only the groups that have
      one of these names matter: each was in one entity, and what it had saved of the names was true. */
  ghost predicate MergedThenSplit(chain: seq<Library>, t: Library, i: nat, o: Entity, d: Division, next: nat) {
    && Merges(chain) && Unique(chain[0].entities)
    && FitsOn(chain[0], SetOf(o.names), HomesIn(chain[0], SetOf(o.names)))
    && SplitsAll(chain[|chain| - 1], t, i, o, d, next)
  }

  lemma {:induction false} OwnNamesAreWhole(entities: seq<Entity>, o: Entity)
    requires Unique(entities) && o in entities
    ensures Whole(entities, SetOf(o.names))
  {
  }

  /** If it is known where all names come from, it still is after the merges. */
  lemma {:induction false} ChainRemembers(chain: seq<Library>, t: Library, i: nat, o: Entity, d: Division, next: nat)
    requires MergedThenSplit(chain, t, i, o, d, next) && HasHomes(chain[0], o)
    ensures Unique(chain[|chain| - 1].entities) && Remembers(chain[|chain| - 1], i, o)
    ensures forall n | n in o.names :: Home(chain[0], n) == Home(chain[|chain| - 1], n)
    ensures forall n, m | OneOwner(chain[0], n, m) :: OneOwner(chain[|chain| - 1], n, m)
  {
    hide SplitsInto, Home, Find, GroupWith, Unique, OneOwner, Whole, InOneEntity, Truthful, OneMerge;
    var s, names := chain[|chain| - 1], SetOf(o.names);
    MergesUnique(chain);
    OwnNamesAreWhole(s.entities, o);
    MergesRemember(chain, names, HomesIn(chain[0], names));
    forall n | n in o.names ensures Home(chain[0], n) == Home(s, n) { assert n in HomesIn(chain[0], names); }
    CoversRemembers(s, i, o);
  }

  lemma {:induction false} UndoneHasHomes(first: Library, t: Library, o: Entity)
    requires Undone(first, t, o)
    ensures HasHomes(first, o)
  {
    hide Home, Find, GroupWith;
    forall n | n in o.names ensures Home(first, n).Some? && Home(first, n).value.entityId.Some? { assert NameUndone(first, t, n); }
  }

  lemma {:induction false} UndoneIsRestored(chain: seq<Library>, t: Library, i: nat, o: Entity, d: Division, next: nat)
    requires MergedThenSplit(chain, t, i, o, d, next) && Undone(chain[0], t, o)
    ensures AllRestored(chain[|chain| - 1], t, o)
  {
    hide FitsOn, SplitsAll, OneMerge, Home, Find, GroupWith;
    UndoneHasHomes(chain[0], t, o);
    ChainRemembers(chain, t, i, o, d, next);
    forall n | n in o.names ensures Restored(chain[|chain| - 1], t, n) {
      assert NameUndone(chain[0], t, n);
      assert Home(chain[0], n) == Home(chain[|chain| - 1], n);
    }
  }

  lemma {:induction false} SameIdSameSource(first: Library, s: Library, i: nat, o: Entity, n: string, m: string)
    requires Unique(s.entities) && Remembers(s, i, o) && n in o.names && m in o.names
    requires Home(first, n) == Home(s, n) && Home(first, m) == Home(s, m)
    ensures SameId(first, n, m) <==> SourceOf(s.groups[i], n) == SourceOf(s.groups[i], m)
    ensures Home(first, n) == Home(first, m) <==> SavedPart(s.groups[i], n) == SavedPart(s.groups[i], m)
  {
    hide Home, Find, GroupWith, Unique, SourceOf;
    RememberedHome(s, i, o, n);
    RememberedHome(s, i, o, m);
  }

  /** A name of the split entity and its owner in the first library. */
  lemma {:induction false} OwnedTogether(first: Library, n: string, m: string)
    requires Unique(first.entities) && Find(first.entities, n).Some?
    ensures m in Find(first.entities, n).value.names <==> OneOwner(first, n, m)
  {
    hide Find;
    FindFinds(first.entities, n);
    FindFinds(first.entities, m);
    if m in Find(first.entities, n).value.names { FindIs(first.entities, Find(first.entities, n).value, m); }
  }

  lemma {:induction false} UndoneTellsApart(chain: seq<Library>, t: Library, i: nat, o: Entity, d: Division, next: nat, n: string, m: string)
    requires MergedThenSplit(chain, t, i, o, d, next) && Undone(chain[0], t, o) && n in o.names && m in o.names
    ensures ToldApart(chain[0], n, m)
  {
    hide SplitsInto, Covers, Home, Find, GroupWith, OneMerge, Unique, SourceOf, SameId, InGroup, FitsOn;
    var first, s := chain[0], chain[|chain| - 1];
    UndoneHasHomes(first, t, o);
    ChainRemembers(chain, t, i, o, d, next);
    UndoneIsRestored(chain, t, i, o, d, next);
    AllSelected(s, t, i, o, d, next, n);
    AllSelected(s, t, i, o, d, next, m);
    SameIdSameSource(first, s, i, o, n, m);
    assert NameUndone(first, t, n) && NameUndone(first, t, m) && Restored(s, t, n) && Restored(s, t, m);
    if SameId(first, n, m) { OneSourceOnePart(s, t, i, o, d, next, n, m); }
    if GroupWith(first.groups, n).None? {
      var e, f := Find(first.entities, n).value, Find(t.entities, n).value;
      OwnedTogether(first, n, m);
      SplitKeepsUnique(s, t, i, o, d, next);
      OwnedTogether(t, n, m);
      assert m in e.names <==> m in SetOf(f.names);
      SameOwnerSameId(first, t, n, m);
    }
  }

  lemma {:induction false} SameOwnerSameId(first: Library, t: Library, n: string, m: string)
    requires Restored(first, t, n) && Restored(first, t, m)
    ensures OneOwner(t, n, m) ==> SameId(first, n, m)
  {
    hide Home, Find;
  }

  lemma {:induction false} UndoneIsUndoable(chain: seq<Library>, t: Library, i: nat, o: Entity, d: Division, next: nat)
    requires MergedThenSplit(chain, t, i, o, d, next) && Undone(chain[0], t, o)
    ensures Undoable(chain[0], chain[|chain| - 1], i, o)
  {
    hide SplitsInto, Home, Find, GroupWith, OneMerge, Unique, SourceOf, Undone, ToldApart, IsExtra, Restored, TakenElsewhere, FitsOn;
    var s := chain[|chain| - 1];
    UndoneHasHomes(chain[0], t, o);
    ChainRemembers(chain, t, i, o, d, next);
    UndoneIsRestored(chain, t, i, o, d, next);
    forall n, m | n in o.names && m in o.names ensures ToldApart(chain[0], n, m) {
      UndoneTellsApart(chain, t, i, o, d, next, n, m);
    }
    forall n ensures n in d.selected <==> n in o.names { AllSelected(s, t, i, o, d, next, n); }
    SplitRestores(s, t, i, o, d, next);
    AllSelected(s, t, i, o, d, next, d.keep);
  }

  lemma {:induction false} UndoableIsRestored(chain: seq<Library>, t: Library, i: nat, o: Entity, d: Division, next: nat)
    requires MergedThenSplit(chain, t, i, o, d, next) && Undoable(chain[0], chain[|chain| - 1], i, o)
    ensures AllRestored(chain[|chain| - 1], t, o)
  {
    hide SplitsInto, Home, Find, GroupWith, OneMerge, Unique, SourceOf, IsExtra, Restored, TakenElsewhere, Covers, FitsOn, SameId, OneOwner;
    var first, s := chain[0], chain[|chain| - 1];
    ChainRemembers(chain, t, i, o, d, next);
    forall n ensures n in d.selected <==> n in o.names { AllSelected(s, t, i, o, d, next, n); }
    var g := s.groups[i];
    forall n, m | n in o.names && m in o.names && SourceOf(g, n) == SourceOf(g, m) ensures SavedPart(g, n) == SavedPart(g, m) {
      SameIdSameSource(first, s, i, o, n, m);
      assert ToldApart(first, n, m);
    }
    SplitRestores(s, t, i, o, d, next);
  }

  /** Restored names share an entity exactly when they share an ID. */
  lemma {:induction false} TogetherBySource(chain: seq<Library>, t: Library, i: nat, o: Entity, d: Division, next: nat, n: string, m: string)
    requires MergedThenSplit(chain, t, i, o, d, next) && HasHomes(chain[0], o) && AllRestored(chain[|chain| - 1], t, o)
    requires n in o.names && m in o.names
    ensures OneOwner(t, n, m) <==> SameId(chain[0], n, m)
  {
    hide SplitsInto, Home, Find, GroupWith, OneMerge, Unique, SourceOf, Covers, FitsOn, InGroup, SameId;
    var first, s := chain[0], chain[|chain| - 1];
    ChainRemembers(chain, t, i, o, d, next);
    AllSelected(s, t, i, o, d, next, n);
    AllSelected(s, t, i, o, d, next, m);
    SameIdSameSource(first, s, i, o, n, m);
    assert Restored(s, t, n) && Restored(s, t, m);
    if SameId(first, n, m) { OneSourceOnePart(s, t, i, o, d, next, n, m); }
    if OneOwner(t, n, m) { SameOwnerSameId(s, t, n, m); SameIdAs(first, s, n, m); }
  }

  lemma {:induction false} SameIdAs(first: Library, s: Library, n: string, m: string)
    requires Home(first, n) == Home(s, n) && Home(first, m) == Home(s, m)
    ensures SameId(first, n, m) <==> SameId(s, n, m)
  {
    hide Home;
  }

  lemma {:induction false} NamesBack(chain: seq<Library>, t: Library, i: nat, o: Entity, d: Division, next: nat, n: string, m: string)
    requires MergedThenSplit(chain, t, i, o, d, next) && Undoable(chain[0], chain[|chain| - 1], i, o) && n in o.names
    requires AllRestored(chain[|chain| - 1], t, o) && GroupWith(chain[0].groups, n).None?
    ensures Find(chain[0].entities, n).Some? && Find(t.entities, n).Some?
    ensures m in Find(chain[0].entities, n).value.names <==> m in Find(t.entities, n).value.names
  {
    hide SplitsInto, Home, Find, GroupWith, OneMerge, SourceOf, IsExtra, TakenElsewhere, Unique, FitsOn, SameId, Remembers;
    var first, s := chain[0], chain[|chain| - 1];
    ChainRemembers(chain, t, i, o, d, next);
    SplitKeepsUnique(s, t, i, o, d, next);
    HomeFound(first, n);
    assert Restored(s, t, n);
    OwnedTogether(first, n, m);
    OwnedTogether(t, n, m);
    if OneOwner(first, n, m) { OwnedByOne(s, o, n, m); }
    if OneOwner(t, n, m) { MadeOfOwnNames(s, t, i, o, d, next, n, m); }
    if m in o.names {
      assert ToldApart(first, n, m);
      TogetherBySource(chain, t, i, o, d, next, n, m);
    }
  }

  lemma {:induction false} OwnedByOne(s: Library, o: Entity, n: string, m: string)
    requires Unique(s.entities) && o in s.entities && n in o.names && OneOwner(s, n, m)
    ensures m in o.names
  {
    hide Find, Unique;
    FindIs(s.entities, o, n);
    FindFinds(s.entities, m);
  }

  lemma {:induction false} MadeOfOwnNames(s: Library, t: Library, i: nat, o: Entity, d: Division, next: nat, n: string, m: string)
    requires Unique(s.entities) && SplitsAll(s, t, i, o, d, next) && n in o.names
    requires Find(t.entities, n).Some? && m in Find(t.entities, n).value.names
    ensures m in o.names
  {
    hide SplitsInto, Find, Unique, Covers;
    SplitKeepsNames(s, t, i, o, d, next, n);
    MadeOfNames(s, t, i, o, d, next, m);
  }

  lemma {:induction false} OwnHome(s: Library, n: string)
    requires GroupWith(s.groups, n).None?
    ensures Find(s.entities, n).Some? ==> Home(s, n) == Some(OwnPart(Find(s.entities, n).value))
    ensures Find(s.entities, n).None? ==> Home(s, n).None?
  {
  }

  /** After any number of nested merges, splitting all names of an entity gives every constituent back,
      and each entity that was in no group with its ID, cloud ID, names and game IDs, exactly when it
      was known where the names come from, one entity ID stood for one constituent, no other entity has
      got a saved ID since, and the merged entity has no game ID that nobody explains. */
  lemma {:induction false} SplitUndoesMerges(chain: seq<Library>, t: Library, i: nat, o: Entity, d: Division, next: nat)
    requires MergedThenSplit(chain, t, i, o, d, next)
    ensures Undone(chain[0], t, o) <==> Undoable(chain[0], chain[|chain| - 1], i, o)
  {
    hide FitsOn, SplitsAll, OneMerge, Home, Find, GroupWith, SourceOf, ToldApart, IsExtra, TakenElsewhere;
    var first, s := chain[0], chain[|chain| - 1];
    if Undone(first, t, o) { UndoneIsUndoable(chain, t, i, o, d, next); }
    if Undoable(first, s, i, o) {
      UndoableIsRestored(chain, t, i, o, d, next);
      ChainRemembers(chain, t, i, o, d, next);
      forall n | n in o.names ensures NameUndone(first, t, n) {
        assert Restored(s, t, n) && Home(first, n) == Home(s, n);
        if GroupWith(first.groups, n).None? {
          NamesBack(chain, t, i, o, d, next, n, n);
          OwnHome(first, n);
          var e, f := Find(first.entities, n).value, Find(t.entities, n).value;
          forall m ensures m in e.names <==> m in f.names { NamesBack(chain, t, i, o, d, next, n, m); }
        }
      }
    }
  }

  // ---- One name, and any split ----

  /** Merges, and then a split of the entity o, of some names or all. */
  ghost predicate MergedThenParted(chain: seq<Library>, t: Library, i: nat, o: Entity, d: Division, next: nat)
    requires chain != []
  {
    var s := chain[|chain| - 1];
    && Unique(chain[0].entities) && FitsOn(chain[0], SetOf(o.names), HomesIn(chain[0], SetOf(o.names)))
    && Covers(s, i, o) && Below(s.entities, next) && SplitsInto(s, t, i, o, d, next)
  }

  /** A selected name of which it was known where it comes from is again just that exactly when its
      saved ID is free and no name that gets this ID too brings another cloud ID or game ID; whatever
      becomes of the others. */
  lemma {:induction false} NameUndoneExactly(chain: seq<Library>, t: Library, i: nat, o: Entity, d: Division, next: nat, n: string)
    requires Merges(chain) && MergedThenParted(chain, t, i, o, d, next) && n in d.selected && Home(chain[0], n).Some?
    ensures i < |chain[|chain| - 1].groups|
    ensures Restored(chain[0], t, n) <==> ComesBack(PlanOf(chain[|chain| - 1], i, o, d, next), d.keep, n)
  {
    hide SplitsInto, Home, Find, GroupWith, Unique, Whole, InOneEntity, Truthful, OneMerge, ComesBack, OneOwner;
    var s, names := chain[|chain| - 1], SetOf(o.names);
    MergesUnique(chain);
    OwnNamesAreWhole(s.entities, o);
    MergesRemember(chain, names, HomesIn(chain[0], names));
    SelectedIsOwn(s, t, i, o, d, next, n);
    assert n in names && n in SetOf(s.groups[i].names) && n in HomesIn(chain[0], names);
    GroupWithFinds(s.groups, n);
    NameComesBack(s, t, i, o, d, next, n);
    SameHomeRestored(chain[0], s, t, n);
  }

  lemma {:induction false} SameHomeRestored(first: Library, s: Library, t: Library, n: string)
    requires Home(first, n) == Home(s, n)
    ensures Restored(first, t, n) <==> Restored(s, t, n)
  {
    hide Home, Find;
  }

  // ---- From a library in order ----

  lemma {:induction false} OrderedFitsOn(s: Library, names: set<string>)
    requires Grouped(s)
    ensures FitsOn(s, names, HomesIn(s, names))
  {
    hide Find, Home, Truthful, GroupWith;
    forall g | g in s.groups && Touched(g.names, names) ensures InOneEntity(s.entities, g) {
      var n :| n in g.names && n in names;
      FindFinds(s.entities, n);
      var e := Find(s.entities, n).value;
      forall m | m in g.names ensures m in e.names { assert m in SetOf(g.names); }
    }
  }

  lemma {:induction false} OrderedTellsApart(s: Library, n: string, m: string)
    requires InOrder(s) && Home(s, n).Some? && Home(s, m).Some?
    ensures ToldApart(s, n, m)
  {
    hide Find, GroupWith, EntitiesFit, GroupsFit, Unique, Home;
    if SameId(s, n, m) { OneIdOneOwner(s, n, m); HomeFound(s, n); }
    if GroupWith(s.groups, n).None? && OneOwner(s, n, m) {
      UngroupedTogether(s, n, m);
      OwnHome(s, n);
      OwnHome(s, m);
    }
  }

  lemma {:induction false} UngroupedTogether(s: Library, n: string, m: string)
    requires Grouped(s) && GroupWith(s.groups, n).None? && OneOwner(s, n, m)
    ensures GroupWith(s.groups, m).None?
  {
    hide Find, GroupWith, Truthful;
    var e := Find(s.entities, n).value;
    FindFinds(s.entities, n);
    FindFinds(s.entities, m);
    GroupWithFinds(s.groups, n);
    GroupWithFinds(s.groups, m);
    assert n in SetOf(e.names);
    forall g | g in s.groups ensures m !in g.names { assert n in g.names <==> n in SetOf(g.names); }
  }

  /** After merges from a library in order, splitting all names of a group always gives everything back. */
  lemma {:induction false} OrderedMergesAreUndone(chain: seq<Library>, t: Library, i: nat, o: Entity, d: Division, next: nat)
    requires Merges(chain) && InOrder(chain[0]) && SplitsAll(chain[|chain| - 1], t, i, o, d, next)
    ensures Undone(chain[0], t, o)
  {
    hide SplitsInto, Home, Find, GroupWith, OneMerge, GroupsFit, Unique, SourceOf, IsExtra, TakenElsewhere, Covers, EntitiesFit, PartsFit, ToldApart, FitsOn;
    var first, s := chain[0], chain[|chain| - 1];
    MergesKeepOrder(chain);
    OrderedFitsOn(first, SetOf(o.names));
    OrderedRemembers(s, i, o);
    forall n | n in o.names ensures Home(first, n).Some? && Home(first, n).value.entityId.Some? {
      RememberedHome(s, i, o, n);
      assert Home(first, n) == Home(s, n);
    }
    forall n, m | n in o.names && m in o.names ensures ToldApart(first, n, m) { OrderedTellsApart(first, n, m); }
    forall n | n in o.names ensures !TakenElsewhere(s.entities, o, SourceOf(s.groups[i], n).value) { SourceIsFree(s, i, o, n); }
    forall x ensures !IsExtra(s.groups[i], o, x) { NoExtras(s, i, o, x); }
    SplitUndoesMerges(chain, t, i, o, d, next);
  }
}
