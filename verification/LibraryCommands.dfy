/** What the merge and unmerge commands come to, told by the library before and after them, and that
    unmerging finds what merging made. */
module LibraryCommands {
  import opened Options
  import opened Ordering
  import opened Collections
  import opened PlayerLibrary
  import opened LibraryJoin
  import opened LibraryMerge
  import opened LibraryMemory
  import opened LibraryMerging
  import opened LibrarySplit
  import opened LibrarySplitting
  import opened LibraryRestoring
  import opened LibraryUndoing
  import opened LibrarySyncing

  // ---- Merging ----

  /** The entity before of a name that is merged. */
  ghost predicate Constituent(s: Library, merged: Entity, e: Entity) {
    e in s.entities && exists n :: n in e.names && n in merged.names
  }

  lemma {:induction false} MergedUnique(s: Library, t: Library, merged: Entity, g: Group)
    requires Unique(s.entities) && MergesInto(s, t, merged, g)
    ensures Unique(t.entities) && JoinsEntities(s.entities, t.entities, merged)
  {
    hide MergesInto, JoinsEntities, Unique;
    assert NoRepeats(s.entities) by { UniqueHasNoRepeats(s.entities); }
    MergeJoinsEntities(s, t, merged, g);
    UniqueAfter(s.entities, t.entities, merged);
  }

  lemma {:induction false} UniqueHasNoRepeats(entities: seq<Entity>)
    requires Unique(entities)
    ensures NoRepeats(entities)
  {
  }

  /** Merged names are in one entity; all other names stay where they were. */
  lemma {:induction false} MergePlaces(s: Library, t: Library, merged: Entity, g: Group, n: string)
    requires Unique(s.entities) && MergesInto(s, t, merged, g)
    ensures n !in merged.names ==> Find(t.entities, n) == Find(s.entities, n)
    ensures n in merged.names ==> Find(t.entities, n) == Some(merged) && Find(s.entities, n).Some?
  {
    hide Find, Outside, Apart, Saving, Unique, Unites, KeepsCloud, JoinsEntities;
    MergedUnique(s, t, merged, g);
    FindAfter(s.entities, t.entities, merged, n);
    if n in merged.names {
      assert n in SetOf(merged.names);
      FindIs(t.entities, merged, n);
    }
  }

  /** The entity has all names and game IDs of the entities that it replaces, under the lowest of their IDs
      and with the cloud ID that went with it. */
  lemma {:induction false} MergedIsUnion(s: Library, t: Library, merged: Entity, g: Group)
    requires Unique(s.entities) && MergesInto(s, t, merged, g)
    ensures forall n :: n in merged.names <==> exists e :: Constituent(s, merged, e) && n in e.names
    ensures forall x :: x in merged.gameIds <==> exists e :: Constituent(s, merged, e) && x in e.gameIds
    ensures forall e | Constituent(s, merged, e) :: merged.entityId <= e.entityId
    ensures exists e :: Constituent(s, merged, e) && e.entityId == merged.entityId && e.cloudId == merged.cloudId
  {
    hide Find, Outside, Apart, Saving, Unique, Constituent, IsMember;
    var merging := SetOf(merged.names);
    forall e ensures Constituent(s, merged, e) <==> IsMember(s.entities, merging, e) { MemberOrNot(s, merged, e); }
    forall n ensures n in merged.names <==> exists e :: Constituent(s, merged, e) && n in e.names {
      if n in merged.names {
        OwnerIsConstituent(s, t, merged, g, n);
        assert n in Find(s.entities, n).value.names;
      }
      if e :| Constituent(s, merged, e) && n in e.names { MergesNames(s, t, merged, g, e, n); }
    }
    forall x ensures x in merged.gameIds <==> exists e :: Constituent(s, merged, e) && x in e.gameIds {
      if x in merged.gameIds { var e :| IsMember(s.entities, merging, e) && x in e.gameIds; }
    }
  }

  lemma {:induction false} OwnerIsConstituent(s: Library, t: Library, merged: Entity, g: Group, n: string)
    requires MergesInto(s, t, merged, g) && n in merged.names
    ensures Find(s.entities, n).Some? && n in Find(s.entities, n).value.names && Constituent(s, merged, Find(s.entities, n).value)
  {
    hide Find, Outside, Apart, Saving, Unites, KeepsCloud;
    assert n in SetOf(merged.names);
    FindFinds(s.entities, n);
  }

  lemma {:induction false} MergesNames(s: Library, t: Library, merged: Entity, g: Group, e: Entity, n: string)
    requires Unique(s.entities) && MergesInto(s, t, merged, g) && Constituent(s, merged, e) && n in e.names
    ensures n in merged.names
  {
    hide Find, Outside, Apart, Saving, Unites, KeepsCloud, Unique;
    MemberNamesMerge(s.entities, SetOf(merged.names), e, n);
  }

  lemma {:induction false} MemberOrNot(s: Library, merged: Entity, e: Entity)
    ensures Constituent(s, merged, e) <==> IsMember(s.entities, SetOf(merged.names), e)
  {
  }

  // ---- The group's ID ----

  /** No group that the merge leaves alone has the ID. */
  ghost predicate IdIsNew(groups: seq<Group>, names: seq<string>, groupId: string) {
    forall k | k in groups && !Touched(k.names, SetOf(names)) :: k.groupId != groupId
  }

  lemma {:induction false} ApartKeepsIds(groups: seq<Group>, merging: set<string>)
    requires DistinctIds(groups)
    ensures DistinctIds(Apart(groups, merging))
  {
    if groups != [] {
      var front, last := groups[..|groups| - 1], groups[|groups| - 1];
      ApartKeepsIds(front, merging);
      ApartAre(front, merging);
      var kept := Apart(front, merging);
      forall i | 0 <= i < |kept| ensures kept[i].groupId != last.groupId {
        assert kept[i] in front;
        var j :| 0 <= j < |front| && front[j] == kept[i];
        assert groups[j] == front[j];
      }
    }
  }

  /** A merge keeps group IDs distinct if no group left alone has the ID of the new one. */
  lemma {:induction false} MergeKeepsDistinctIds(s: Library, t: Library, merged: Entity, g: Group)
    requires MergesInto(s, t, merged, g) && DistinctIds(s.groups) && IdIsNew(s.groups, merged.names, g.groupId)
    ensures DistinctIds(t.groups)
  {
    hide Find, Outside, Saving, Unites, KeepsCloud, Closed, Touched;
    var kept := Apart(s.groups, SetOf(merged.names));
    ApartKeepsIds(s.groups, SetOf(merged.names));
    ApartAre(s.groups, SetOf(merged.names));
    forall i | 0 <= i < |kept| ensures kept[i].groupId != g.groupId { assert kept[i] in kept; }
  }

  /** The new group is found by its ID, and it covers the merged entity. */
  lemma {:induction false} MergeIsFound(s: Library, t: Library, merged: Entity, g: Group, i: nat)
    requires Unique(s.entities) && MergesInto(s, t, merged, g) && IdIsNew(s.groups, merged.names, g.groupId)
    ensures FirstWithId(t.groups, g.groupId, i) <==> i + 1 == |t.groups|
    ensures t.groups != [] && t.groups[|t.groups| - 1] == g
    ensures OwnedBy(t.entities, g.names, merged) && forall e | OwnedBy(t.entities, g.names, e) :: e == merged
    ensures Unique(t.entities) && Covers(t, |t.groups| - 1, merged)
  {
    hide Find, Outside, Saving, Unites, KeepsCloud, Closed, Touched, Unique, JoinsEntities;
    var kept := Apart(s.groups, SetOf(merged.names));
    ApartAre(s.groups, SetOf(merged.names));
    forall k | 0 <= k < |kept| ensures t.groups[k].groupId != g.groupId { assert kept[k] in kept; }
    MergedUnique(s, t, merged, g);
    forall n | n in g.names ensures Find(t.entities, n) == Some(merged) { FindIs(t.entities, merged, n); }
    OwnerIsOne(t.entities, g.names, merged);
  }

  /** Merging and then splitting all names under the ID of the merged names: the command finds the group
      that the merge made, divides the merged entity, is refused only where a game ID needs a name to stay
      with, and gives everything back exactly under the conditions on the library before. */
  lemma {:induction false} MergeAndUnmerge(s: Library, t: Library, merged: Entity, g: Group, gid: seq<string> -> string,
    keep: string, next: nat, r: Outcome, i: nat, o: Entity, d: Division)
    requires Unique(s.entities) && MergesInto(s, t, merged, g) && g.groupId == gid(g.names)
    requires IdIsNew(s.groups, merged.names, gid(merged.names)) && Below(t.entities, next)
    requires SplitOutcome(t, gid(merged.names), [], true, keep, next, r, i, o, d)
    ensures !r.NotStored? && i + 1 == |t.groups| && t.groups[i] == g
    ensures r.Refused? <==> (exists x :: IsExtra(g, merged, x)) && keep !in merged.names
    ensures r.Done? ==> o == merged && SplitsAll(t, r.library, i, merged, d, next)
    ensures r.Done? && FitsOn(s, SetOf(merged.names), HomesIn(s, SetOf(merged.names))) ==>
      (Undone(s, r.library, merged) <==> Undoable(s, t, i, merged))
  {
    hide Find, Unique, SplitsInto, IsExtra, Outside, Apart, Saving, Unites, KeepsCloud, Closed, Touched, FitsOn, Undone, Undoable, OwnedBy,
      FirstWithId, HomesIn;
    MergeIsFound(s, t, merged, g, i);
    MergeIsFound(s, t, merged, g, |t.groups| - 1);
    assert g in t.groups;
    if r.Done? && FitsOn(s, SetOf(merged.names), HomesIn(s, SetOf(merged.names))) {
      var chain := [s, t];
      assert OneMerge(chain[0], chain[1]);
      SplitUndoesMerges(chain, r.library, i, merged, d, next);
    }
  }

  lemma {:induction false} AliasIsOne(groups: seq<Group>, merging: set<string>, k: Group, n: string)
    requires k in groups && n in k.names && n in merging && k.before.Some? && n !in k.Before()
    ensures n in Aliases(groups, merging)
  {
    var front, last := groups[..|groups| - 1], groups[|groups| - 1];
    assert groups == front + [last];
    if k != last { AliasIsOne(front, merging, k, n); }
  }

  lemma {:induction false} NeverSaved(groups: seq<Group>, merging: set<string>, n: string)
    requires forall h | h in groups && Touched(h.names, merging) :: n !in h.Before()
    ensures n !in SavedBefore(groups, merging)
  {
    hide Touched;
    if groups != [] {
      var front, last := groups[..|groups| - 1], groups[|groups| - 1];
      assert groups == front + [last];
      NeverSaved(front, merging, n);
    }
  }

  /** A name that a merged group gained later, and of which nothing was saved, is not taken for a constituent
      by the next merge: it is still not known where it comes from. */
  lemma {:induction false} AliasStaysUnknown(s: Library, t: Library, merged: Entity, g: Group, k: Group, n: string)
    requires MergesInto(s, t, merged, g) && n in merged.names
    requires k in s.groups && n in k.names && k.before.Some?
    requires forall h | h in s.groups && Touched(h.names, SetOf(merged.names)) :: n !in h.Before()
    ensures !Saves(g, n) && Home(t, n).None?
  {
    hide Find, Outside, Unites, KeepsCloud, SavedBefore, SavedOrigins, Aliases, Apart;
    var merging := SetOf(merged.names);
    assert n in merging && Touched(k.names, merging);
    AliasIsOne(s.groups, merging, k, n);
    NeverSaved(s.groups, merging, n);
    ApartAre(s.groups, merging);
    GroupWithFinds(t.groups, n);
    assert g in t.groups;
  }

  // ---- What a split gives to whom ----

  /** Some name of the entity had the game ID before it was merged. */
  ghost predicate Explained(g: Group, o: Entity, x: nat) { exists n :: n in o.names && n in g.Before() && x in g.Before()[n] }

  lemma {:induction false} ExtraOrExplained(g: Group, o: Entity, x: nat)
    ensures IsExtra(g, o, x) <==> x in o.gameIds && !Explained(g, o, x)
  {
  }

  lemma {:induction false} SplitsStored(s: Library, t: Library, i: nat, o: Entity, d: Division, next: nat)
    requires SplitsInto(s, t, i, o, d, next)
    ensures i < |s.groups|
  {
  }

  /** The part that a name of the divided entity is in. */
  lemma {:induction false} PartOfName(s: Library, t: Library, i: nat, o: Entity, d: Division, next: nat, n: string) returns (e: Entity)
    requires Unique(s.entities) && Below(s.entities, next) && SplitsInto(s, t, i, o, d, next) && n in o.names
    ensures Find(t.entities, n) == Some(e) && e in Made(d) && n in e.names
    ensures i < |s.groups| && HasItsGames(s.groups[i], o, d.keep, e)
    ensures forall m | m in e.names :: m in o.names
  {
    hide SplitsInto, Unique, Find, HasItsGames, Made;
    SplitsStored(s, t, i, o, d, next);
    SplitKeepsNames(s, t, i, o, d, next, n);
    e := Find(t.entities, n).value;
    FindFinds(t.entities, n);
    MadeHasItsGames(s, t, i, o, d, next, e);
    forall m | m in e.names ensures m in o.names { MadeOfNames(s, t, i, o, d, next, m); }
  }

  /** After a split an entity made by it has a game ID exactly if one of its names had it before the merge, or
      some name had and one of its names was added later, or no name had and it has the name to keep it with. */
  lemma {:induction false} SplitGives(s: Library, t: Library, i: nat, o: Entity, d: Division, next: nat, n: string, x: nat)
    requires Unique(s.entities) && Below(s.entities, next) && SplitsInto(s, t, i, o, d, next) && n in o.names
    ensures Find(t.entities, n).Some?
    ensures var g, e := s.groups[i], Find(t.entities, n).value;
      x in e.gameIds <==>
        || (exists m :: m in e.names && m in g.Before() && x in g.Before()[m])
        || (x in o.gameIds && Explained(g, o, x) && exists m :: m in e.names && m !in g.Before())
        || (x in o.gameIds && !Explained(g, o, x) && d.keep in e.names)
  {
    hide SplitsInto, Unique, Find, IsExtra, Explained;
    var e := PartOfName(s, t, i, o, d, next, n);
    var g := s.groups[i];
    ExtraOrExplained(g, o, x);
    if x in e.gameIds {
      var m :| m in e.names && Takes(g, o, d.keep, m, x);
    }
    forall m | m in e.names ensures Takes(g, o, d.keep, m, x) ==> x in e.gameIds {
      assert Takes(g, o, d.keep, m, x) ==> TakesOne(g, o, d.keep, e.names, x);
    }
  }

  /** A name added after the merge comes with every game ID that a constituent brought into the entity. */
  lemma {:induction false} AliasInherits(s: Library, t: Library, i: nat, o: Entity, d: Division, next: nat, n: string, x: nat)
    requires Unique(s.entities) && Below(s.entities, next) && SplitsInto(s, t, i, o, d, next)
    requires n in o.names && n !in s.groups[i].Before() && x in o.gameIds && Explained(s.groups[i], o, x)
    ensures Find(t.entities, n).Some? && x in Find(t.entities, n).value.gameIds
  {
    hide SplitsInto, Unique, Find, Explained;
    SplitGives(s, t, i, o, d, next, n, x);
    var e := PartOfName(s, t, i, o, d, next, n);
  }

  /** A game ID that no constituent brought goes to the entity of the name chosen to keep it, and to no other. */
  lemma {:induction false} ExtraGoesWithKeep(s: Library, t: Library, i: nat, o: Entity, d: Division, next: nat, n: string, x: nat)
    requires Unique(s.entities) && Below(s.entities, next) && SplitsInto(s, t, i, o, d, next)
    requires n in o.names && x in o.gameIds && !Explained(s.groups[i], o, x)
    ensures d.keep in o.names && Find(t.entities, n).Some? && Find(t.entities, d.keep).Some?
    ensures x in Find(t.entities, n).value.gameIds <==> Find(t.entities, n) == Find(t.entities, d.keep)
  {
    hide Unique, Find, IsExtra, Restores, Leaves, Assigns, NamesInOrder;
    SplitGives(s, t, i, o, d, next, n, x);
    ExtraOrExplained(s.groups[i], o, x);
    var e := PartOfName(s, t, i, o, d, next, n);
    var f := PartOfName(s, t, i, o, d, next, d.keep);
    SplitKeepsUnique(s, t, i, o, d, next);
    FindFinds(t.entities, n);
    if d.keep in e.names { FindIs(t.entities, e, d.keep); }
  }

  // ---- What a split leaves ----

  /** The names that stay keep the ID of the entity, and it is still known of them what was known: their
      group stays if there are two of them, and a name that stays alone is what is left. */
  lemma {:induction false} RestIsRemembered(s: Library, t: Library, i: nat, o: Entity, d: Division, next: nat, n: string)
    requires Unique(s.entities) && Below(s.entities, next) && SplitsInto(s, t, i, o, d, next) && n in d.remaining
    requires InGroup(s, i, n) && NoRepeats(s.groups) && forall g | g in s.groups && n in g.names :: g == s.groups[i]
    ensures Find(t.entities, n).Some? && Find(t.entities, n).value.entityId == o.entityId
    ensures Find(t.entities, n).value.names == d.remaining
    ensures |d.remaining| >= 2 ==> Home(t, n) == Home(s, n)
    ensures |d.remaining| == 1 ==> Home(t, n) == Some(OwnPart(Find(t.entities, n).value))
  {
    hide Unique, Find, IsExtra, Assigns, NamesInOrder, HasItsGames, LeftCloud, Others, GroupWith;
    var e := PartOfName(s, t, i, o, d, next, n);
    StaysIn(s, t, i, o, d, next, n, e);
    SavedHome(s, i, o, n);
    GroupWithFinds(t.groups, n);
    var found := GroupWith(t.groups, n);
    if found.Some? && found.value in s.groups[..i] + s.groups[i + 1..] { OthersGroup(s.groups, i, found.value); }
    if |d.remaining| >= 2 { assert t.groups[|t.groups| - 1] == s.groups[i].(names := d.remaining); }
  }

  lemma {:induction false} OthersGroup(groups: seq<Group>, i: nat, g: Group)
    requires i < |groups| && NoRepeats(groups) && g in groups[..i] + groups[i + 1..]
    ensures g in groups && g != groups[i]
  {
    var rest := groups[..i] + groups[i + 1..];
    var k :| 0 <= k < |rest| && rest[k] == g;
    assert rest[k] == if k < i then groups[k] else groups[k + 1];
  }

  lemma {:induction false} StaysIn(s: Library, t: Library, i: nat, o: Entity, d: Division, next: nat, n: string, e: Entity)
    requires SplitsInto(s, t, i, o, d, next) && n in d.remaining && e in Made(d) && n in e.names
    ensures d.left == [e] && e.names == d.remaining && e.entityId == o.entityId
  {
    hide Unique, IsExtra, Assigns, NamesInOrder, HasItsGames, LeftCloud, Others, GroupsAfter;
  }

  /** The k-th of the names is the first with a saved cloud ID. */
  ghost predicate FirstSaved(g: Group, names: seq<string>, k: nat) {
    k < |names| && CloudOf(g, names[k]).Some? && forall j | 0 <= j < k :: CloudOf(g, names[j]).None?
  }

  lemma {:induction false} FirstCloudIs(g: Group, names: seq<string>)
    ensures FirstCloud(g, names).None? ==> forall n | n in names :: CloudOf(g, n).None?
    ensures FirstCloud(g, names).Some? ==> exists k: nat :: FirstSaved(g, names, k) && CloudOf(g, names[k]) == FirstCloud(g, names)
  {
    hide CloudOf;
    if names != [] {
      if CloudOf(g, names[0]).Some? {
        assert FirstSaved(g, names, 0);
      } else {
        FirstCloudIs(g, names[1..]);
        if FirstCloud(g, names[1..]).Some? {
          var k: nat :| FirstSaved(g, names[1..], k) && CloudOf(g, names[1..][k]) == FirstCloud(g, names[1..]);
          assert FirstSaved(g, names, k + 1) by {
            forall j | 0 <= j < k + 1 ensures CloudOf(g, names[j]).None? { if j > 0 { assert names[1..][j - 1] == names[j]; } }
          }
        }
      }
    }
  }

  /** The part that stays has the first cloud ID saved of its names, unless a name that was split off took it;
      so no cloud ID is in the part that stays and in one that left. */
  lemma {:induction false} RestKeepsCloud(s: Library, t: Library, i: nat, o: Entity, d: Division, next: nat)
    requires SplitsInto(s, t, i, o, d, next) && d.remaining != []
    ensures forall e | e in d.restored && e.cloudId.Some? :: e.cloudId != d.left[0].cloudId
    ensures d.left[0].cloudId.Some? ==>
      exists k: nat :: FirstSaved(s.groups[i], d.remaining, k) && CloudOf(s.groups[i], d.remaining[k]) == d.left[0].cloudId
    ensures d.left[0].cloudId.Some? || (forall n | n in d.remaining :: CloudOf(s.groups[i], n).None?) ||
      exists k: nat, e :: FirstSaved(s.groups[i], d.remaining, k) && e in d.restored && e.cloudId == CloudOf(s.groups[i], d.remaining[k])
  {
    hide Assigns, NamesInOrder, HasItsGames, Restores, Others, GroupsAfter, IsExtra, CloudOf, FirstCloud, FirstSaved;
    FirstCloudIs(s.groups[i], d.remaining);
  }
}
