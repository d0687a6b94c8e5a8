/** Merging names into one entity, and why it forgets nothing. */
module LibraryMerge {
  import opened Options
  import opened Ordering
  import opened Collections
  import opened PlayerLibrary
  import opened LibraryJoin

  /** The entities that the merge leaves alone. */
  function Outside(entities: seq<Entity>, merging: set<string>): seq<Entity> {
    if entities == [] then []
    else if Touched(entities[0].names, merging) then Outside(entities[1..], merging)
    else [entities[0]] + Outside(entities[1..], merging)
  }

  /** The groups that the merge leaves alone. */
  function Apart(groups: seq<Group>, merging: set<string>): seq<Group> {
    if groups == [] then []
    else
      var front := Apart(groups[..|groups| - 1], merging);
      var last := groups[|groups| - 1];
      if Touched(last.names, merging) then front else front + [last]
  }

  /** What the groups that the merge replaces had saved; a later group overrides an earlier one. */
  function SavedBefore(groups: seq<Group>, merging: set<string>): map<string, seq<nat>> {
    if groups == [] then map[]
    else
      var front := SavedBefore(groups[..|groups| - 1], merging);
      var last := groups[|groups| - 1];
      if Touched(last.names, merging) then front + last.Before() else front
  }

  function SavedOrigins(groups: seq<Group>, merging: set<string>): map<string, Origin> {
    if groups == [] then map[]
    else
      var front := SavedOrigins(groups[..|groups| - 1], merging);
      var last := groups[|groups| - 1];
      if Touched(last.names, merging) then front + last.Origins() else front
  }

  /** Names that joined a merged group later, and so have nothing saved. */
  function Aliases(groups: seq<Group>, merging: set<string>): set<string> {
    if groups == [] then {}
    else
      var front := Aliases(groups[..|groups| - 1], merging);
      var last := groups[|groups| - 1];
      if Touched(last.names, merging) && last.before.Some? then front + set n | n in last.names && n !in last.Before()
      else front
  }

  /** The merged entity has the cloud ID of the member whose entity ID it has. */
  ghost predicate KeepsCloud(entities: seq<Entity>, merging: set<string>, merged: Entity) {
    exists e :: IsMember(entities, merging, e) && e.entityId == merged.entityId && e.cloudId == merged.cloudId
  }

  function OriginOf(e: Entity): Origin { Origin(Some(e.entityId), e.cloudId) }

  /** The new group keeps what was saved and saves what was not, except for later aliases. */
  ghost predicate Saving(s: Library, merging: set<string>, g: Group) {
    && g.before.Some? && g.origins.Some?
    && (forall n :: n in g.Before() <==>
      n in SavedBefore(s.groups, merging) || (n in merging && n !in Aliases(s.groups, merging)))
    && (forall n :: n in g.Origins() <==>
      n in SavedOrigins(s.groups, merging) || (n in merging && n !in Aliases(s.groups, merging)))
    && (forall n | n in SavedBefore(s.groups, merging) :: g.Before()[n] == SavedBefore(s.groups, merging)[n])
    && (forall n | n in SavedOrigins(s.groups, merging) :: g.Origins()[n] == SavedOrigins(s.groups, merging)[n])
    && (forall n | n in g.Before() && n !in SavedBefore(s.groups, merging) ::
      Find(s.entities, n).Some? && g.Before()[n] == Find(s.entities, n).value.gameIds)
    && (forall n | n in g.Origins() && n !in SavedOrigins(s.groups, merging) ::
      Find(s.entities, n).Some? && g.Origins()[n] == OriginOf(Find(s.entities, n).value))
  }

  /** One merge turns s into t. */
  ghost predicate MergesInto(s: Library, t: Library, merged: Entity, g: Group) {
    var merging := SetOf(merged.names);
    && merged.names != [] && g.names == merged.names && NoRepeats(merged.names)
    && Closed(s.entities, merging)
    && t.entities == Outside(s.entities, merging) + [merged]
    && t.groups == Apart(s.groups, merging) + [g]
    && Unites(s.entities, merging, merged) && KeepsCloud(s.entities, merging, merged)
    && Saving(s, merging, g)
  }

  // ---- What the merge leaves alone ----

  lemma {:induction false} OutsideAre(entities: seq<Entity>, merging: set<string>)
    ensures forall e :: e in Outside(entities, merging) <==> e in entities && !Touched(e.names, merging)
    ensures NoRepeats(entities) ==> NoRepeats(Outside(entities, merging))
  {
    if entities != [] {
      OutsideAre(entities[1..], merging);
      assert entities == [entities[0]] + entities[1..];
      assert entities[0] in entities[1..] ==> !NoRepeats(entities) by {
        if entities[0] in entities[1..] {
          var k :| 0 < k < |entities| && entities[k] == entities[0];
        }
      }
    }
  }

  lemma {:induction false} ApartAre(groups: seq<Group>, merging: set<string>)
    ensures forall g :: g in Apart(groups, merging) <==> g in groups && !Touched(g.names, merging)
    ensures NoRepeats(groups) ==> NoRepeats(Apart(groups, merging))
  {
    if groups != [] {
      var front, last := groups[..|groups| - 1], groups[|groups| - 1];
      ApartAre(front, merging);
      assert groups == front + [last];
      assert last in front ==> !NoRepeats(groups);
    }
  }

  // ---- What is saved ----

  lemma {:induction false} SavedHas(groups: seq<Group>, merging: set<string>, h: Group, n: string)
    requires h in groups && n in h.names && n in merging && Saves(h, n)
    ensures n in SavedBefore(groups, merging) && n in SavedOrigins(groups, merging)
  {
    var front, last := groups[..|groups| - 1], groups[|groups| - 1];
    assert groups == front + [last];
    if last == h {
      assert Touched(last.names, merging);
    } else {
      SavedHas(front, merging, h, n);
    }
  }

  /** What the groups to be replaced had saved about a name is where it comes from, if each of these
      tells the truth. */
  lemma {:induction false} SavedIsTrue(s: Library, groups: seq<Group>, merging: set<string>, n: string)
    requires Find(s.entities, n).Some? && forall k | k in groups && Touched(k.names, merging) :: Truthful(s, k, n)
    ensures n in SavedBefore(groups, merging) <==> n in SavedOrigins(groups, merging)
    ensures n in SavedBefore(groups, merging) ==>
      Home(s, n) == Some(PartOf(SavedOrigins(groups, merging)[n], SavedBefore(groups, merging)[n]))
  {
    hide Find, Home, Touched;
    if groups != [] {
      var front, last := groups[..|groups| - 1], groups[|groups| - 1];
      assert groups == front + [last];
      SavedIsTrue(s, front, merging, n);
      assert Touched(last.names, merging) ==> Truthful(s, last, n);
    }
  }

  ghost function PartOf(origin: Origin, games: seq<nat>): Part { Part(origin.entityId, origin.cloudId, SetOf(games)) }

  lemma {:induction false} NoAliases(groups: seq<Group>, merging: set<string>)
    requires forall k, n | k in groups && n in k.names :: Saves(k, n)
    ensures Aliases(groups, merging) == {}
  {
    if groups != [] {
      var front, last := groups[..|groups| - 1], groups[|groups| - 1];
      assert groups == front + [last];
      NoAliases(front, merging);
      assert forall n | n in last.names :: Saves(last, n);
    }
  }

  lemma {:induction false} NoAlias(groups: seq<Group>, merging: set<string>, n: string)
    requires forall k | k in groups :: n !in k.names
    ensures n !in Aliases(groups, merging)
  {
    if groups != [] {
      var front, last := groups[..|groups| - 1], groups[|groups| - 1];
      assert groups == front + [last];
      NoAlias(front, merging, n);
    }
  }

  /** What the groups to be replaced had saved of a name agrees with where it comes from; what a later
      group had saved overrides what an earlier one had. */
  ghost predicate SavedAgrees(s: Library, merging: set<string>, n: string, home: Part) {
    && (n in SavedBefore(s.groups, merging) ==> SetOf(SavedBefore(s.groups, merging)[n]) == home.gameIds)
    && (n in SavedOrigins(s.groups, merging) ==>
      SavedOrigins(s.groups, merging)[n].entityId == home.entityId && SavedOrigins(s.groups, merging)[n].cloudId == home.cloudId)
  }

  /** A merge remembers where a name comes from exactly when what the replaced groups had saved of it,
      the later over the earlier, agrees with that. */
  lemma {:induction false} MergeSavesAsIs(s: Library, t: Library, merged: Entity, g: Group, n: string)
    requires MergesInto(s, t, merged, g) && n in merged.names && Home(s, n).Some?
    ensures Saves(g, n) && SavedPart(g, n) == Home(s, n).value <==>
      SavedAgrees(s, SetOf(merged.names), n, Home(s, n).value)
  {
    hide Find, GroupWith, SavedBefore, SavedOrigins, Aliases, Outside, Apart, Unites, KeepsCloud, Touched;
    var merging := SetOf(merged.names);
    assert n in merging;
    GroupWithFinds(s.groups, n);
    if GroupWith(s.groups, n).Some? { SavedHas(s.groups, merging, GroupWith(s.groups, n).value, n); }
    else { NoAlias(s.groups, merging, n); }
  }

  /** The new group saves of each name exactly where it was at home. */
  lemma {:induction false} SavesHome(s: Library, t: Library, merged: Entity, g: Group, n: string)
    requires Unique(s.entities) && GroupsFit(s) && MergesInto(s, t, merged, g) && n in merged.names
    ensures Saves(g, n) && Home(s, n) == Some(SavedPart(g, n))
  {
    hide Outside, SavedBefore, SavedOrigins, Aliases, Apart, Find, GroupWith, Unites, Unique, Touched, Truthful;
    var merging := SetOf(merged.names);
    NoAliases(s.groups, merging);
    GroupWithFinds(s.groups, n);
    SavedIsTrue(s, s.groups, merging, n);
    if GroupWith(s.groups, n).Some? { SavedHas(s.groups, merging, GroupWith(s.groups, n).value, n); }
  }

  // ---- The merged library is in order ----

  lemma {:induction false} SavesTruth(s: Library, t: Library, merged: Entity, g: Group, n: string)
    requires Unique(s.entities) && GroupsFit(s) && MergesInto(s, t, merged, g)
    ensures Truthful(s, g, n)
  {
    hide Outside, SavedBefore, SavedOrigins, Aliases, Apart, Find, GroupWith, Home, Unites, Unique, Touched, Closed;
    if Find(s.entities, n).Some? && (n in g.Before() || n in g.Origins()) {
      if n in merged.names {
        SavesHome(s, t, merged, g, n);
      } else {
        assert n !in SetOf(merged.names);
        SavedIsTrue(s, s.groups, SetOf(merged.names), n);
      }
    }
  }

  lemma {:induction false} MergeJoinsEntities(s: Library, t: Library, merged: Entity, g: Group)
    requires NoRepeats(s.entities) && MergesInto(s, t, merged, g)
    ensures JoinsEntities(s.entities, t.entities, merged)
  {
    hide Outside, SavedBefore, SavedOrigins, Aliases, Apart, Find, Saving, Unites, Closed, KeepsCloud;
    OutsideAre(s.entities, SetOf(merged.names));
    assert merged.names[0] in merged.names && merged.names[0] in SetOf(merged.names);
    assert Touched(merged.names, SetOf(merged.names));
  }

  lemma {:induction false} MergeKeepsRest(s: Library, t: Library, merged: Entity, g: Group)
    requires NoRepeats(s.entities) && NoRepeats(s.groups) && MergesInto(s, t, merged, g)
    ensures JoinsEntities(s.entities, t.entities, merged) && JoinsGroups(s.groups, t.groups, g)
  {
    hide Outside, SavedBefore, SavedOrigins, Aliases, Apart, Find, Saving, Unites, Closed, KeepsCloud, JoinsEntities;
    var merging := SetOf(merged.names);
    MergeJoinsEntities(s, t, merged, g);
    ApartAre(s.groups, merging);
    assert merged.names[0] in merged.names && merged.names[0] in merging;
    assert Touched(g.names, merging);
  }

  lemma {:induction false} MergeIsJoin(s: Library, t: Library, merged: Entity, g: Group)
    requires Unique(s.entities) && GroupsFit(s) && MergesInto(s, t, merged, g)
    ensures Joins(s, t, merged, g)
  {
    hide Outside, SavedBefore, SavedOrigins, Aliases, Apart, Find, Saving, Unites, Closed, Home, KeepsCloud, Truthful;
    MergeKeepsRest(s, t, merged, g);
    forall n | n in merged.names ensures Saves(g, n) && Home(s, n) == Some(SavedPart(g, n)) {
      SavesHome(s, t, merged, g, n);
    }
    forall n ensures Truthful(s, g, n) { SavesTruth(s, t, merged, g, n); }
  }

  lemma {:induction false} MergeKeepsGroups(s: Library, t: Library, merged: Entity, g: Group)
    requires Grouped(s) && MergesInto(s, t, merged, g)
    ensures Grouped(t) && SameHomes(s, t)
  {
    hide MergesInto, Joins, Unique, GroupsFit, Home;
    MergeIsJoin(s, t, merged, g);
    JoinKeepsGroups(s, t, merged, g);
  }

  /** A merge leaves the library in order and remembers every constituent as it was. */
  lemma {:induction false} MergeRemembers(s: Library, t: Library, merged: Entity, g: Group)
    requires InOrder(s) && MergesInto(s, t, merged, g)
    ensures InOrder(t) && SameHomes(s, t)
  {
    hide MergesInto, Joins, Unique, GroupsFit, PartsFit, EntitiesFit, Home;
    MergeIsJoin(s, t, merged, g);
    JoinRemembers(s, t, merged, g);
  }
}
