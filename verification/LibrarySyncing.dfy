/** Before entities are joined and before a library is stored, groups take up the names that
    their entities have gained since. */
module LibrarySyncing {
  import opened Options
  import opened Collections
  import opened PlayerLibrary
  import opened LibraryMemory

  /** All groups are managed but those that were only found automatically and have nothing saved. */
  predicate Managed(automatic: set<string>, g: Group) { g.groupId !in automatic || g.origins.Some? }

  /** The name is one of those given or belongs to the entity of one of them. */
  ghost predicate Reaches(entities: seq<Entity>, names: seq<string>, n: string) {
    n in names || exists m :: m in names && Find(entities, m).Some? && n in Find(entities, m).value.names
  }

  /** The given names, then the other names of their entities. */
  ghost predicate Completed(entities: seq<Entity>, names: seq<string>, all: seq<string>) {
    && NoRepeats(all) && (NoRepeats(names) ==> names <= all)
    && (forall n :: n in all <==> Reaches(entities, names, n))
  }

  ghost predicate SyncedGroup(entities: seq<Entity>, g: Group, h: Group, automatic: set<string>) {
    && h == g.(names := h.names)
    && (Managed(automatic, g) ==> Completed(entities, g.names, h.names))
    && (!Managed(automatic, g) ==> h == g)
  }

  ghost predicate Synced(s: Library, t: Library, automatic: set<string>) {
    && t.entities == s.entities && |t.groups| == |s.groups|
    && (forall i | 0 <= i < |s.groups| :: SyncedGroup(s.entities, s.groups[i], t.groups[i], automatic))
  }

  ghost function AllNames(entities: seq<Entity>): set<string> {
    set e, n | e in entities && n in e.names :: n
  }

  lemma {:induction false} DistinctAreFew(names: seq<string>, all: set<string>)
    requires NoRepeats(names) && forall n | n in names :: n in all
    ensures |names| <= |all|
  {
    if names != [] {
      var last := |names| - 1;
      var rest := names[..last];
      forall n | n in rest ensures n in all - {names[last]} {
        var i :| 0 <= i < last && rest[i] == n;
        assert names[i] != names[last];
      }
      DistinctAreFew(rest, all - {names[last]});
    }
  }

  lemma {:induction false} ReachesOn(entities: seq<Entity>, names: seq<string>, m: string, e: Entity, n: string)
    requires Unique(entities) && Reaches(entities, names, m) && Find(entities, m) == Some(e) && n in e.names
    ensures Reaches(entities, names, n)
  {
    hide Find;
    FindFinds(entities, m);
    if m !in names {
      var k :| k in names && Find(entities, k).Some? && m in Find(entities, k).value.names;
      FindFinds(entities, k);
    }
  }

  method CompleteNames(entities: seq<Entity>, names: seq<string>) returns (all: seq<string>)
    requires Unique(entities)
    ensures Completed(entities, names, all)
  {
    hide Find, Reaches, Unique;
    all := ReadUnique(names);
    var i, visited := 0, {};
    ghost var within := SetOf(names) + AllNames(entities);
    forall n | n in all ensures Reaches(entities, names, n) { GivenReached(entities, names, n); }
    DistinctAreFew(all, within);
    while i < |all|
      invariant i <= |all| <= |within| && NoRepeats(all) && forall n | n in all :: n in within
      invariant (NoRepeats(names) ==> names <= all) && forall n | n in names :: n in all
      invariant forall n | n in all :: Reaches(entities, names, n)
      invariant forall e, n | e in entities && e.entityId in visited && n in e.names :: n in all
      invariant forall k | 0 <= k < i && Find(entities, all[k]).Some? :: Find(entities, all[k]).value.entityId in visited
      decreases |within| - i
    {
      var owner := Find(entities, all[i]);
      if owner.Some? && owner.value.entityId !in visited {
        FindFinds(entities, all[i]);
        forall n | n in owner.value.names ensures Reaches(entities, names, n) && n in within {
          ReachesOn(entities, names, all[i], owner.value, n);
        }
        ghost var before := all;
        all := AddAll(all, owner.value.names);
        visited := visited + {owner.value.entityId};
        DistinctAreFew(all, within);
        IdIsUnique(entities, owner.value);
        assert forall k | 0 <= k < i :: all[k] == before[k];
      }
      i := i + 1;
    }
    AllReached(entities, names, all, visited);
  }

  lemma {:induction false} IdIsUnique(entities: seq<Entity>, e: Entity)
    requires Unique(entities) && e in entities
    ensures forall f | f in entities && f.entityId == e.entityId :: f == e
  {
  }

  lemma {:induction false} GivenReached(entities: seq<Entity>, names: seq<string>, n: string)
    requires n in names
    ensures Reaches(entities, names, n)
  {
  }

  lemma {:induction false} AllReached(entities: seq<Entity>, names: seq<string>, all: seq<string>, visited: set<nat>)
    requires forall n | n in names :: n in all
    requires forall e, n | e in entities && e.entityId in visited && n in e.names :: n in all
    requires forall k | 0 <= k < |all| && Find(entities, all[k]).Some? :: Find(entities, all[k]).value.entityId in visited
    ensures forall n | Reaches(entities, names, n) :: n in all
  {
    hide Find;
    forall n | Reaches(entities, names, n) ensures n in all {
      if n !in names {
        var m :| m in names && Find(entities, m).Some? && n in Find(entities, m).value.names;
        FindFinds(entities, m);
        var k :| 0 <= k < |all| && all[k] == m;
      }
    }
  }

  /** Every managed group takes up the names of its entities; nothing else changes. */
  method Synchronize(s: Library, automatic: set<string>) returns (t: Library)
    requires Unique(s.entities)
    ensures Synced(s, t, automatic)
  {
    hide Unique, Completed;
    var groups: seq<Group> := [];
    for i := 0 to |s.groups|
      invariant |groups| == i
      invariant forall k | 0 <= k < i :: SyncedGroup(s.entities, s.groups[k], groups[k], automatic)
    {
      var g := s.groups[i];
      if Managed(automatic, g) {
        var names := CompleteNames(s.entities, g.names);
        g := g.(names := names);
      }
      groups := groups + [g];
    }
    t := s.(groups := groups);
  }

  // ---- What it comes to ----

  /** As the stored groups are: no ID twice. */
  ghost predicate DistinctIds(groups: seq<Group>) { forall i, j | 0 <= i < j < |groups| :: groups[i].groupId != groups[j].groupId }

  lemma {:induction false} SyncedDistinct(s: Library, t: Library, automatic: set<string>)
    requires Synced(s, t, automatic) && DistinctIds(s.groups)
    ensures NoRepeats(t.groups)
  {
    hide Completed;
    forall i, j | 0 <= i < j < |t.groups| ensures t.groups[i] != t.groups[j] {
      assert SyncedGroup(s.entities, s.groups[i], t.groups[i], automatic);
      assert SyncedGroup(s.entities, s.groups[j], t.groups[j], automatic);
    }
  }

  /** A managed group then has all names of an entity or none of them. */
  lemma {:induction false} SyncedIsWhole(s: Library, t: Library, automatic: set<string>, i: nat)
    requires Unique(s.entities) && Synced(s, t, automatic) && i < |s.groups| && Managed(automatic, s.groups[i])
    ensures Whole(t.entities, SetOf(t.groups[i].names))
  {
    hide Find, Unique, Reaches;
    forall e | e in s.entities ensures Beside(e.names, SetOf(t.groups[i].names)) {
      forall m, n | m in e.names && n in e.names && m in t.groups[i].names ensures n in t.groups[i].names {
        FindIs(s.entities, e, m);
        assert SyncedGroup(s.entities, s.groups[i], t.groups[i], automatic);
        ReachesOn(s.entities, s.groups[i].names, m, e, n);
      }
    }
  }

  /** Doing it again changes nothing. */
  lemma {:induction false} SyncedOnce(s: Library, t: Library, u: Library, automatic: set<string>)
    requires Unique(s.entities) && Synced(s, t, automatic) && Synced(t, u, automatic)
    requires forall g | g in s.groups :: NoRepeats(g.names)
    ensures u == t
  {
    hide Find, Unique, Reaches;
    forall i | 0 <= i < |s.groups| ensures u.groups[i] == t.groups[i] {
      var g, h, k := s.groups[i], t.groups[i], u.groups[i];
      assert SyncedGroup(s.entities, g, h, automatic) && SyncedGroup(t.entities, h, k, automatic);
      if Managed(automatic, g) {
        forall n | n in k.names ensures n in h.names { ReachedAlready(s.entities, g.names, h.names, n); }
        assert h.names <= k.names;
        DistinctAreFew(k.names, SetOf(h.names));
        SetIsFew(h.names);
      }
    }
  }

  lemma {:induction false} SetIsFew(names: seq<string>)
    ensures |SetOf(names)| <= |names|
  {
    if names != [] {
      var last := |names| - 1;
      assert names == names[..last] + [names[last]];
      SetIsFew(names[..last]);
      assert SetOf(names) == SetOf(names[..last]) + {names[last]};
    }
  }

  lemma {:induction false} ReachedAlready(entities: seq<Entity>, names: seq<string>, all: seq<string>, n: string)
    requires Unique(entities) && Completed(entities, names, all) && Reaches(entities, all, n)
    ensures n in all
  {
    hide Find, Unique;
    if n !in all {
      var m :| m in all && Find(entities, m).Some? && n in Find(entities, m).value.names;
      ReachesOn(entities, names, m, Find(entities, m).value, n);
    }
  }

  /** The group has a name of the entity. */
  ghost predicate Touches(g: Group, e: Entity) { exists m :: m in g.names && m in e.names }

  lemma {:induction false} SyncedTouches(s: Library, t: Library, automatic: set<string>, i: nat, e: Entity, n: string)
    requires Unique(s.entities) && Synced(s, t, automatic) && i < |s.groups| && e in s.entities && n in e.names
    ensures n in t.groups[i].names ==> Touches(s.groups[i], e)
    ensures Managed(automatic, s.groups[i]) && Touches(s.groups[i], e) ==> n in t.groups[i].names
  {
    hide Find, Unique;
    var g, h := s.groups[i], t.groups[i];
    assert SyncedGroup(s.entities, g, h, automatic);
    FindIs(s.entities, e, n);
    if n in h.names && n !in g.names {
      var m :| m in g.names && Find(s.entities, m).Some? && n in Find(s.entities, m).value.names;
      FindFinds(s.entities, m);
      SameOwner(s.entities, e, Find(s.entities, m).value, n);
    }
    if Managed(automatic, g) && Touches(g, e) {
      var m :| m in g.names && m in e.names;
      FindIs(s.entities, e, m);
      assert Reaches(s.entities, g.names, n);
    }
  }

  lemma {:induction false} SameOwner(entities: seq<Entity>, e: Entity, f: Entity, n: string)
    requires Unique(entities) && e in entities && f in entities && n in e.names && n in f.names
    ensures e == f
  {
  }

  /** Where a name then comes from: what the one group of its entity has saved of it, and nothing if that
      has not saved it, as of a name gained since; without a group it is what its entity is. */
  lemma {:induction false} SyncedHome(s: Library, t: Library, automatic: set<string>, e: Entity, n: string, g: Group)
    requires Unique(s.entities) && Synced(s, t, automatic) && e in s.entities && n in e.names
    ensures (forall h | h in s.groups :: !Touches(h, e)) ==> Home(t, n) == Some(OwnPart(e))
    ensures g in s.groups && Managed(automatic, g) && Touches(g, e) && (forall h | h in s.groups && Touches(h, e) :: h == g) ==>
      Home(t, n) == if Saves(g, n) then Some(SavedPart(g, n)) else None
  {
    hide Find, Unique, GroupWith, Touches, SyncedGroup;
    FindIs(s.entities, e, n);
    GroupWithFinds(t.groups, n);
    var found := GroupWith(t.groups, n);
    if found.Some? {
      var i: nat :| i < |t.groups| && t.groups[i] == found.value;
      SyncedTouches(s, t, automatic, i, e, n);
      SyncedSaves(s, t, automatic, i, n);
    }
    if g in s.groups && Managed(automatic, g) && Touches(g, e) {
      var i: nat :| i < |s.groups| && s.groups[i] == g;
      SyncedTouches(s, t, automatic, i, e, n);
    }
  }

  lemma {:induction false} SyncedSaves(s: Library, t: Library, automatic: set<string>, i: nat, n: string)
    requires Synced(s, t, automatic) && i < |s.groups|
    ensures Saves(t.groups[i], n) <==> Saves(s.groups[i], n)
    ensures Saves(s.groups[i], n) ==> SavedPart(t.groups[i], n) == SavedPart(s.groups[i], n)
  {
    assert SyncedGroup(s.entities, s.groups[i], t.groups[i], automatic);
  }

  lemma {:induction false} FitNames(s: Library, t: Library, automatic: set<string>, i: nat, n: string)
    requires Grouped(s) && Synced(s, t, automatic) && i < |s.groups|
    ensures n in t.groups[i].names <==> n in s.groups[i].names
  {
    hide Find, Unique, Home, GroupWith;
    var g := s.groups[i];
    assert SyncedGroup(s.entities, g, t.groups[i], automatic);
    forall m | m in g.names && Find(s.entities, m).Some? && n in Find(s.entities, m).value.names ensures n in g.names {
      FindFinds(s.entities, m);
      assert n in SetOf(Find(s.entities, m).value.names) && SetOf(g.names) == SetOf(Find(s.entities, m).value.names);
    }
  }

  lemma {:induction false} FitHome(s: Library, t: Library, automatic: set<string>, n: string)
    requires Grouped(s) && Synced(s, t, automatic)
    ensures Home(t, n) == Home(s, n)
  {
    hide Find, Unique, GroupWith;
    GroupWithFinds(s.groups, n);
    GroupWithFinds(t.groups, n);
    var found := GroupWith(t.groups, n);
    if found.Some? {
      var i: nat :| i < |t.groups| && t.groups[i] == found.value;
      FitNames(s, t, automatic, i, n);
      SyncedSaves(s, t, automatic, i, n);
    }
    if g :| g in s.groups && n in g.names {
      var i: nat :| i < |s.groups| && s.groups[i] == g;
      FitNames(s, t, automatic, i, n);
    }
  }

  lemma {:induction false} FitApart(s: Library, t: Library, automatic: set<string>, i: nat, j: nat)
    requires Grouped(s) && Synced(s, t, automatic) && i < j < |s.groups|
    ensures t.groups[i] != t.groups[j] && SetOf(t.groups[i].names) !! SetOf(t.groups[j].names)
  {
    hide Find, Unique, Home;
    assert s.groups[i] != s.groups[j];
    forall n ensures n in t.groups[i].names ==> n !in t.groups[j].names {
      FitNames(s, t, automatic, i, n);
      FitNames(s, t, automatic, j, n);
    }
    if t.groups[i] == t.groups[j] {
      assert forall n :: n !in t.groups[i].names;
      assert SyncedGroup(s.entities, s.groups[i], t.groups[i], automatic);
      assert SyncedGroup(s.entities, s.groups[j], t.groups[j], automatic);
      NoNames(s, t, automatic, i);
      NoNames(s, t, automatic, j);
    }
  }

  lemma {:induction false} NoNames(s: Library, t: Library, automatic: set<string>, i: nat)
    requires Grouped(s) && Synced(s, t, automatic) && i < |s.groups| && forall n :: n !in t.groups[i].names
    ensures s.groups[i].names == []
  {
    if s.groups[i].names != [] { FitNames(s, t, automatic, i, s.groups[i].names[0]); }
  }

  lemma {:induction false} FitGroup(s: Library, t: Library, automatic: set<string>, i: nat)
    requires Grouped(s) && Synced(s, t, automatic) && i < |s.groups|
    ensures forall n | n in t.groups[i].names :: Saves(t.groups[i], n) && Find(t.entities, n).Some?
    ensures forall e, n | e in t.entities && n in t.groups[i].names && n in e.names :: SetOf(t.groups[i].names) == SetOf(e.names)
    ensures forall n :: Truthful(t, t.groups[i], n)
  {
    hide Find, Unique, GroupWith, Home;
    var g, h := s.groups[i], t.groups[i];
    forall n ensures (n in h.names <==> n in g.names) && (Saves(h, n) <==> Saves(g, n)) && Home(t, n) == Home(s, n) {
      FitNames(s, t, automatic, i, n);
      SyncedSaves(s, t, automatic, i, n);
      FitHome(s, t, automatic, n);
    }
    assert SetOf(h.names) == SetOf(g.names);
    assert SyncedGroup(s.entities, g, h, automatic);
    forall n ensures Truthful(t, h, n) { assert Truthful(s, g, n); }
  }

  /** Where groups fit already it changes nothing that matters. */
  lemma {:induction false} SyncedKeeps(s: Library, t: Library, automatic: set<string>)
    requires Grouped(s) && Synced(s, t, automatic)
    ensures Grouped(t) && SameHomes(s, t)
  {
    hide Find, Unique, GroupWith, Home, SyncedGroup, Truthful;
    forall n ensures Home(t, n) == Home(s, n) { FitHome(s, t, automatic, n); }
    forall i: nat, j: nat | i < j < |s.groups| ensures t.groups[i] != t.groups[j] && SetOf(t.groups[i].names) !! SetOf(t.groups[j].names) {
      FitApart(s, t, automatic, i, j);
    }
    forall i: nat | i < |s.groups|
      ensures forall n | n in t.groups[i].names :: Saves(t.groups[i], n) && Find(t.entities, n).Some?
      ensures forall e, n | e in t.entities && n in t.groups[i].names && n in e.names :: SetOf(t.groups[i].names) == SetOf(e.names)
      ensures forall n :: Truthful(t, t.groups[i], n)
    {
      FitGroup(s, t, automatic, i);
    }
    SyncedFits(t);
  }

  lemma {:induction false} SyncedFits(t: Library)
    requires forall i: nat, j: nat | i < j < |t.groups| :: t.groups[i] != t.groups[j] && SetOf(t.groups[i].names) !! SetOf(t.groups[j].names)
    requires forall i: nat | i < |t.groups| :: forall n | n in t.groups[i].names :: Saves(t.groups[i], n) && Find(t.entities, n).Some?
    requires forall i: nat | i < |t.groups| ::
      forall e, n | e in t.entities && n in t.groups[i].names && n in e.names :: SetOf(t.groups[i].names) == SetOf(e.names)
    requires forall i: nat | i < |t.groups| :: forall n :: Truthful(t, t.groups[i], n)
    ensures GroupsFit(t)
  {
    hide Find, Truthful;
    forall g, h, n | g in t.groups && h in t.groups && n in g.names && n in h.names ensures g == h {
      var i: nat :| i < |t.groups| && t.groups[i] == g;
      var j: nat :| j < |t.groups| && t.groups[j] == h;
      assert n in SetOf(g.names) && n in SetOf(h.names);
    }
  }

  /** The groups that take up names are all but those found automatically that have saved no entity. */
  lemma {:induction false} SyncedExactly(s: Library, t: Library, automatic: set<string>, i: nat)
    requires Unique(s.entities) && Synced(s, t, automatic) && i < |s.groups|
    ensures s.groups[i].groupId in automatic && s.groups[i].origins.None? ==> t.groups[i] == s.groups[i]
    ensures s.groups[i].groupId !in automatic || s.groups[i].origins.Some? ==>
      forall n :: n in t.groups[i].names <==>
        n in s.groups[i].names || exists e :: e in s.entities && Touches(s.groups[i], e) && n in e.names
  {
    hide Find, Unique, Completed, Touches;
    var g, h := s.groups[i], t.groups[i];
    assert SyncedGroup(s.entities, g, h, automatic);
    forall n, e | e in s.entities && n in e.names ensures (n in h.names ==> Touches(g, e)) && (Managed(automatic, g) && Touches(g, e) ==> n in h.names) {
      SyncedTouches(s, t, automatic, i, e, n);
    }
    if Managed(automatic, g) {
      forall n | n in h.names && n !in g.names ensures exists e :: e in s.entities && Touches(g, e) && n in e.names { Taken(s, g, h, n); }
      forall n | n in g.names ensures n in h.names { GivenStay(s, g, h, n); }
    }
  }

  lemma {:induction false} GivenStay(s: Library, g: Group, h: Group, n: string)
    requires Completed(s.entities, g.names, h.names) && n in g.names
    ensures n in h.names
  {
    GivenReached(s.entities, g.names, n);
  }

  lemma {:induction false} Taken(s: Library, g: Group, h: Group, n: string)
    requires Completed(s.entities, g.names, h.names) && n in h.names && n !in g.names
    ensures exists e :: e in s.entities && Touches(g, e) && n in e.names
  {
    hide Find;
    var m :| m in g.names && Find(s.entities, m).Some? && n in Find(s.entities, m).value.names;
    FindFinds(s.entities, m);
    assert Touches(g, Find(s.entities, m).value);
  }
}
