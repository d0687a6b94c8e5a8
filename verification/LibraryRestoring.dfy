/** When a split gives back what was merged. */
module LibraryRestoring {
  import opened Options
  import opened Ordering
  import opened PlayerLibrary
  import opened LibraryJoin
  import opened LibraryMerge
  import opened LibrarySplit

  // ---- One name ----

  /** The group is the one that has the name. */
  ghost predicate InGroup(s: Library, i: nat, n: string) { i < |s.groups| && GroupWith(s.groups, n) == Some(s.groups[i]) }

  /** The name is in an entity that is just what its constituent was. */
  ghost predicate Restored(s: Library, t: Library, n: string) {
    Find(t.entities, n).Some? && Home(s, n) == Some(OwnPart(Find(t.entities, n).value))
  }

  /** The first k selected names that the plan gives an ID, in order. */
  function NamesAt(p: Plan, id: nat, k: nat): seq<string>
    requires k <= |p.selected|
  {
    if k == 0 then []
    else NamesAt(p, id, k - 1) + if IdFor(p, k - 1) == id then [p.selected[k - 1]] else []
  }

  /** What decides whether a selected name gets back just what it was: that was saved, with an ID that is
      free; the first of the names that get this ID has its cloud ID; and none of these takes another
      game ID along. */
  ghost predicate ComesBack(p: Plan, keep: string, n: string) {
    && Saves(p.g, n) && SourceOf(p.g, n).Some? && Free(p, SourceOf(p.g, n).value)
    && var names := NamesAt(p, SourceOf(p.g, n).value, |p.selected|);
      && (names != [] ==> CloudOf(p.g, names[0]) == CloudOf(p.g, n))
      && (forall m, x | m in names && Takes(p.g, p.o, keep, m, x) :: x in p.g.Before()[n])
  }

  lemma {:induction false} NamesAtAre(p: Plan, given: map<string, nat>, id: nat, k: nat)
    requires Assigns(p, given) && k <= |p.selected|
    ensures NamesAt(p, id, k) == WithId(p.selected[..k], given, id)
  {
    hide IdFor;
    if k > 0 {
      NamesAtAre(p, given, id, k - 1);
      assert p.selected[..k][..k - 1] == p.selected[..k - 1] && p.selected[..k][k - 1] == p.selected[k - 1];
    }
  }

  lemma {:induction false} SavedHome(s: Library, i: nat, o: Entity, n: string)
    requires Unique(s.entities) && o in s.entities && n in o.names && InGroup(s, i, n)
    ensures Find(s.entities, n) == Some(o)
    ensures Home(s, n) == if Saves(s.groups[i], n) then Some(SavedPart(s.groups[i], n)) else None
    ensures Saves(s.groups[i], n) ==> SavedPart(s.groups[i], n).entityId == SourceOf(s.groups[i], n)
    ensures Saves(s.groups[i], n) ==> SavedPart(s.groups[i], n).cloudId == CloudOf(s.groups[i], n)
  {
    hide Find, GroupWith;
    FindIs(s.entities, o, n);
  }

  lemma {:induction false} GivenSource(s: Library, t: Library, i: nat, o: Entity, d: Division, next: nat, n: string)
    requires SplitsInto(s, t, i, o, d, next) && Below(s.entities, next) && n in d.selected && SourceOf(s.groups[i], n).Some?
    ensures n in o.names && n in d.given
    ensures d.given[n] == SourceOf(s.groups[i], n).value <==>
      Available(s.entities, o, d.remaining != [], SourceOf(s.groups[i], n).value)
  {
    hide Restores, Leaves, LeftCloud, IsExtra, Others, GroupsAfter, UsedUp, SourceOf, WithId;
    var p := PlanOf(s, i, o, d, next);
    var k := GivenTo(p, d.given, n);
    if !KeepsId(p, k) { NewIdIsNew(p, k); }
  }

  lemma {:induction false} RestoredEntity(s: Library, t: Library, i: nat, o: Entity, d: Division, next: nat, e: Entity, n: string)
    requires SplitsInto(s, t, i, o, d, next) && e in d.restored && n in e.names
    ensures n in d.selected && n in o.names && n in d.given && d.given[n] == e.entityId
    ensures e.names != [] && e.cloudId == CloudOf(s.groups[i], e.names[0]) && HasItsGames(s.groups[i], o, d.keep, e)
  {
    hide HasItsGames, Leaves, LeftCloud, IsExtra, Others, GroupsAfter, Assigns, WithId;
  }

  lemma {:induction false} RestoredNames(s: Library, t: Library, i: nat, o: Entity, d: Division, next: nat, e: Entity)
    requires SplitsInto(s, t, i, o, d, next) && e in d.restored
    ensures e.names == NamesAt(PlanOf(s, i, o, d, next), e.entityId, |d.selected|)
  {
    hide Restores, Leaves, LeftCloud, IsExtra, Others, GroupsAfter, Assigns, WithId;
    NamesAtAre(PlanOf(s, i, o, d, next), d.given, e.entityId, |d.selected|);
    assert d.selected[..|d.selected|] == d.selected;
  }

  lemma {:induction false} GamesAre(g: Group, o: Entity, keep: string, e: Entity, n: string)
    requires HasItsGames(g, o, keep, e) && n in e.names && n in g.Before()
    ensures SetOf(e.gameIds) == SetOf(g.Before()[n]) <==>
      forall m, x | m in e.names && Takes(g, o, keep, m, x) :: x in g.Before()[n]
  {
    hide IsExtra;
    if SetOf(e.gameIds) == SetOf(g.Before()[n]) {
      forall m, x | m in e.names && Takes(g, o, keep, m, x) ensures x in g.Before()[n] {
        assert TakesOne(g, o, keep, e.names, x);
        assert x in SetOf(e.gameIds);
      }
    }
    if forall m, x | m in e.names && Takes(g, o, keep, m, x) :: x in g.Before()[n] {
      forall x ensures x in e.gameIds <==> x in g.Before()[n] {
        if x in g.Before()[n] { assert Takes(g, o, keep, n, x); }
      }
    }
  }

  /** Any split gives a selected name back just what it was exactly when that was saved, its ID is free, and
      no name that gets this ID too brings another cloud ID or game ID. */
  lemma {:induction false} NameComesBack(s: Library, t: Library, i: nat, o: Entity, d: Division, next: nat, n: string)
    requires Unique(s.entities) && Below(s.entities, next) && SplitsInto(s, t, i, o, d, next)
    requires n in d.selected && InGroup(s, i, n)
    ensures Restored(s, t, n) <==> ComesBack(PlanOf(s, i, o, d, next), d.keep, n)
  {
    hide SplitsInto, Unique, Find, GroupWith, Home, Available, IsExtra, SourceOf, CloudOf, HasItsGames, NamesAt, Takes;
    var g := s.groups[i];
    SelectedIsOwn(s, t, i, o, d, next, n);
    SavedHome(s, i, o, n);
    SplitKeepsNames(s, t, i, o, d, next, n);
    var e := Find(t.entities, n).value;
    FindFinds(t.entities, n);
    RestoredEntity(s, t, i, o, d, next, e, n);
    RestoredNames(s, t, i, o, d, next, e);
    if Saves(g, n) && SourceOf(g, n).Some? {
      GivenSource(s, t, i, o, d, next, n);
      GamesAre(g, o, d.keep, e, n);
    }
  }

  lemma {:induction false} SelectedIsOwn(s: Library, t: Library, i: nat, o: Entity, d: Division, next: nat, n: string)
    requires SplitsInto(s, t, i, o, d, next) && n in d.selected
    ensures n in o.names && o in s.entities && i < |s.groups|
  {
    hide HasItsGames, Leaves, LeftCloud, IsExtra, Others, GroupsAfter, Assigns, Restores, WithId;
  }

  // ---- All that were selected ----

  /** The group says of every name of the entity where it comes from. */
  ghost predicate Remembers(s: Library, i: nat, o: Entity) {
    && i < |s.groups| && o in s.entities
    && (forall n | n in o.names :: InGroup(s, i, n) && Saves(s.groups[i], n) && SourceOf(s.groups[i], n).Some?)
  }

  lemma {:induction false} RememberedHome(s: Library, i: nat, o: Entity, n: string)
    requires Unique(s.entities) && Remembers(s, i, o) && n in o.names
    ensures Find(s.entities, n) == Some(o) && Home(s, n) == Some(SavedPart(s.groups[i], n))
    ensures SavedPart(s.groups[i], n).entityId == SourceOf(s.groups[i], n)
    ensures SavedPart(s.groups[i], n).cloudId == CloudOf(s.groups[i], n)
  {
    hide Find, GroupWith, Home, Unique, SourceOf, CloudOf;
    SavedHome(s, i, o, n);
  }

  /** The selected names were saved, with IDs that are available; names with one saved ID were saved alike;
      and no game ID that nobody explains goes with them. */
  ghost predicate Restorable(entities: seq<Entity>, g: Group, o: Entity, someRemain: bool, selected: seq<string>, keep: string) {
    && (forall n | n in selected :: SourceOf(g, n).Some? && Saves(g, n) && Available(entities, o, someRemain, SourceOf(g, n).value))
    && (forall n, m | n in selected && m in selected && SourceOf(g, n) == SourceOf(g, m) :: SavedPart(g, n) == SavedPart(g, m))
    && (keep in selected ==> forall x :: !IsExtra(g, o, x))
  }

  lemma {:induction false} NamesAtMembers(s: Library, t: Library, i: nat, o: Entity, d: Division, next: nat, id: nat, m: string)
    requires SplitsInto(s, t, i, o, d, next)
    ensures m in NamesAt(PlanOf(s, i, o, d, next), id, |d.selected|) <==> m in d.selected && m in d.given && d.given[m] == id
  {
    hide Restores, Leaves, LeftCloud, IsExtra, Others, GroupsAfter, Assigns, WithId;
    NamesAtAre(PlanOf(s, i, o, d, next), d.given, id, |d.selected|);
    assert d.selected[..|d.selected|] == d.selected;
    WithIdMembers(d.selected, d.given, id);
  }

  lemma {:induction false} RestorableName(s: Library, t: Library, i: nat, o: Entity, d: Division, next: nat, n: string)
    requires Unique(s.entities) && Below(s.entities, next) && SplitsInto(s, t, i, o, d, next) && n in d.selected
    requires Restorable(s.entities, s.groups[i], o, d.remaining != [], d.selected, d.keep)
    ensures ComesBack(PlanOf(s, i, o, d, next), d.keep, n)
  {
    hide Restores, Leaves, Others, GroupsAfter, Assigns, Unique, Available, IsExtra, SourceOf, CloudOf, NamesAt, Takes;
    var g, p := s.groups[i], PlanOf(s, i, o, d, next);
    var names := NamesAt(p, SourceOf(g, n).value, |d.selected|);
    GivenSource(s, t, i, o, d, next, n);
    forall m | m in names ensures m in d.selected && SavedPart(g, m) == SavedPart(g, n) && m in g.Before() {
      NamesAtMembers(s, t, i, o, d, next, SourceOf(g, n).value, m);
      GivenSource(s, t, i, o, d, next, m);
    }
    if names != [] { SavedAlike(g, names[0], n); }
    forall m, x | m in names && Takes(g, o, d.keep, m, x) ensures x in g.Before()[n] {
      TakesSaved(g, o, d.keep, m, x);
      SavedAlike(g, m, n);
      if m == d.keep { assert !IsExtra(g, o, x); }
      assert x in SetOf(g.Before()[m]);
    }
  }

  lemma {:induction false} SavedAlike(g: Group, m: string, n: string)
    requires Saves(g, m) && Saves(g, n) && SavedPart(g, m) == SavedPart(g, n)
    ensures CloudOf(g, m) == CloudOf(g, n) && SetOf(g.Before()[m]) == SetOf(g.Before()[n])
  {
  }

  lemma {:induction false} TakesSaved(g: Group, o: Entity, keep: string, m: string, x: nat)
    requires m in g.Before()
    ensures Takes(g, o, keep, m, x) <==> x in g.Before()[m] || (m == keep && IsExtra(g, o, x))
  {
    hide IsExtra;
  }

  lemma {:induction false} NoExtraCame(s: Library, t: Library, i: nat, o: Entity, d: Division, next: nat, x: nat)
    requires Below(s.entities, next) && SplitsInto(s, t, i, o, d, next) && d.keep in d.selected
    requires ComesBack(PlanOf(s, i, o, d, next), d.keep, d.keep)
    ensures !IsExtra(s.groups[i], o, x)
  {
    hide Restores, Leaves, Others, GroupsAfter, Assigns, Available, SourceOf, CloudOf, NamesAt, Takes;
    var g, p, n := s.groups[i], PlanOf(s, i, o, d, next), d.keep;
    GivenSource(s, t, i, o, d, next, n);
    NamesAtMembers(s, t, i, o, d, next, SourceOf(g, n).value, n);
    TakesSaved(g, o, n, n, x);
    ExtraIsUnsaved(g, o, n, x);
  }

  lemma {:induction false} ExtraIsUnsaved(g: Group, o: Entity, n: string, x: nat)
    requires n in o.names && n in g.Before()
    ensures IsExtra(g, o, x) ==> x !in g.Before()[n]
  {
  }

  /** A split, of some names or all, gives every selected name back the entity it came from exactly when
      they were saved with IDs that are available, one saved ID stands for one constituent, and no other
      game ID is kept with them; whatever is saved of the names that stay. */
  lemma {:induction false} SplitRestores(s: Library, t: Library, i: nat, o: Entity, d: Division, next: nat)
    requires Unique(s.entities) && Below(s.entities, next) && SplitsInto(s, t, i, o, d, next)
    requires i < |s.groups| && forall n | n in d.selected :: InGroup(s, i, n)
    ensures (forall n | n in d.selected :: Restored(s, t, n)) <==>
      Restorable(s.entities, s.groups[i], o, d.remaining != [], d.selected, d.keep)
  {
    hide Unique, Restored, IsExtra, SplitsInto, SourceOf, Available, ComesBack, InGroup;
    var g, p := s.groups[i], PlanOf(s, i, o, d, next);
    forall n | n in d.selected ensures Restored(s, t, n) <==> ComesBack(p, d.keep, n) { NameComesBack(s, t, i, o, d, next, n); }
    if Restorable(s.entities, g, o, d.remaining != [], d.selected, d.keep) {
      forall n | n in d.selected ensures ComesBack(p, d.keep, n) { RestorableName(s, t, i, o, d, next, n); }
    }
    if forall n | n in d.selected :: Restored(s, t, n) {
      forall n | n in d.selected
        ensures SourceOf(g, n).Some? && Saves(g, n) && Available(s.entities, o, d.remaining != [], SourceOf(g, n).value)
      {
        BackWasSaved(p, d.keep, n);
      }
      forall n, m | n in d.selected && m in d.selected && SourceOf(g, n) == SourceOf(g, m)
        ensures SavedPart(g, n) == SavedPart(g, m)
      {
        OneSourceOnePart(s, t, i, o, d, next, n, m);
      }
      if d.keep in d.selected {
        forall x ensures !IsExtra(g, o, x) { NoExtraCame(s, t, i, o, d, next, x); }
      }
    }
  }

  lemma {:induction false} BackWasSaved(p: Plan, keep: string, n: string)
    requires ComesBack(p, keep, n)
    ensures Saves(p.g, n) && SourceOf(p.g, n).Some? && Available(p.entities, p.o, p.someRemain, SourceOf(p.g, n).value)
  {
    hide SourceOf, Available, NamesAt, Takes;
  }

  lemma {:induction false} OneSourceOnePart(s: Library, t: Library, i: nat, o: Entity, d: Division, next: nat, n: string, m: string)
    requires Unique(s.entities) && Below(s.entities, next) && SplitsInto(s, t, i, o, d, next)
    requires n in d.selected && m in d.selected && InGroup(s, i, n) && InGroup(s, i, m)
    requires SourceOf(s.groups[i], n) == SourceOf(s.groups[i], m)
    requires Restored(s, t, n) && Restored(s, t, m)
    ensures Saves(s.groups[i], n) && Saves(s.groups[i], m) && SavedPart(s.groups[i], n) == SavedPart(s.groups[i], m)
    ensures Find(t.entities, n) == Find(t.entities, m)
  {
    hide SplitsInto, Unique, Find, GroupWith, Home, CloudOf;
    SelectedIsOwn(s, t, i, o, d, next, n);
    SelectedIsOwn(s, t, i, o, d, next, m);
    SavedHome(s, i, o, n);
    SavedHome(s, i, o, m);
    SplitKeepsNames(s, t, i, o, d, next, n);
    SplitKeepsNames(s, t, i, o, d, next, m);
    RestoredAreMade(d);
    MadeOnce(s, t, i, o, d, next, Find(t.entities, n).value, Find(t.entities, m).value);
  }

  lemma {:induction false} RestoredAreMade(d: Division)
    ensures forall e | e in d.restored :: e in Made(d)
  {
  }
}
