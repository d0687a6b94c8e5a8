/** The merge command as it runs. */
module LibraryMerging {
  import opened Options
  import opened Ordering
  import opened Collections
  import opened PlayerLibrary
  import opened LibraryJoin
  import opened LibraryMerge

  function EntityAt(entities: seq<Entity>, id: nat): Option<Entity> {
    if entities == [] then None
    else if entities[0].entityId == id then Some(entities[0])
    else EntityAt(entities[1..], id)
  }

  lemma {:induction false} EntityAtFinds(entities: seq<Entity>, id: nat)
    ensures EntityAt(entities, id).Some? ==>
      EntityAt(entities, id).value in entities && EntityAt(entities, id).value.entityId == id
    ensures EntityAt(entities, id).None? ==> forall e | e in entities :: e.entityId != id
  {
    if entities != [] && entities[0].entityId != id { EntityAtFinds(entities[1..], id); }
  }

  predicate IsLowest(ids: set<nat>, id: nat) { id in ids && forall k: nat | k in ids :: id <= k }

  lemma {:induction false} LowestExists(ids: set<nat>)
    requires ids != {}
    ensures exists id: nat :: IsLowest(ids, id)
  {
    var some: nat :| some in ids;
    var rest := ids - {some};
    if rest == {} {
      assert ids == {some};
      assert IsLowest(ids, some);
    } else {
      LowestExists(rest);
      var low: nat :| IsLowest(rest, low);
      var least := if some < low then some else low;
      forall k: nat | k in ids ensures least <= k { if k != some { assert k in rest; } }
      assert IsLowest(ids, least);
    }
  }

  /** The IDs of the entities to which the names belong. */
  ghost predicate OwnersOf(entities: seq<Entity>, names: seq<string>, members: set<nat>) {
    && (forall n | n in names :: Find(entities, n).Some? && Find(entities, n).value.entityId in members)
    && (forall id | id in members :: exists n :: n in names && Owns(entities, id, n))
  }

  ghost predicate Owns(entities: seq<Entity>, id: nat, n: string) {
    Find(entities, n).Some? && Find(entities, n).value.entityId == id
  }

  method FindMembers(entities: seq<Entity>, names: seq<string>) returns (members: Option<set<nat>>)
    ensures members.None? <==> exists n :: n in names && Find(entities, n).None?
    ensures members.Some? ==> OwnersOf(entities, names, members.value)
  {
    hide Find;
    var ids: set<nat> := {};
    for i := 0 to |names|
      invariant OwnersOf(entities, names[..i], ids)
    {
      var found := Find(entities, names[i]);
      assert names[i] in names;
      if found.None? { return None; }
      assert names[..i + 1] == names[..i] + [names[i]];
      assert Owns(entities, found.value.entityId, names[i]);
      ids := ids + {found.value.entityId};
    }
    assert names[..|names|] == names;
    members := Some(ids);
  }

  /** All names of the members, and their game IDs, member by member in the order of their IDs. */
  method CollectMembers(entities: seq<Entity>, members: set<nat>, names: seq<string>)
    returns (all: seq<string>, games: seq<nat>)
    requires Unique(entities) && forall id | id in members :: EntityAt(entities, id).Some?
    ensures NoRepeats(names) ==> NoRepeats(all)
    ensures forall n :: n in all <==> n in names || exists e :: e in entities && e.entityId in members && n in e.names
    ensures forall x :: x in games <==> exists e :: e in entities && e.entityId in members && x in e.gameIds
  {
    hide EntityAt;
    all, games := names, [];
    var left := members;
    while left != {}
      invariant left <= members
      invariant NoRepeats(names) ==> NoRepeats(all)
      invariant forall n :: n in all <==>
        n in names || exists e :: e in entities && e.entityId in members - left && n in e.names
      invariant forall x :: x in games <==> exists e :: e in entities && e.entityId in members - left && x in e.gameIds
      decreases left
    {
      LowestExists(left);
      var id: nat :| IsLowest(left, id);
      EntityAtFinds(entities, id);
      var e := EntityAt(entities, id).value;
      left := left - {id};
      all := AddAll(all, e.names);
      games := AddAll(games, e.gameIds);
    }
    assert members - left == members;
  }

  /** Keep the groups apart from the merge; collect what the others saved. */
  method GatherGroups(groups: seq<Group>, merging: set<string>)
    returns (kept: seq<Group>, before: map<string, seq<nat>>, origins: map<string, Origin>, aliases: set<string>)
    ensures kept == Apart(groups, merging) && aliases == Aliases(groups, merging)
    ensures before == SavedBefore(groups, merging) && origins == SavedOrigins(groups, merging)
  {
    kept, before, origins, aliases := [], map[], map[], {};
    for i := 0 to |groups|
      invariant kept == Apart(groups[..i], merging) && aliases == Aliases(groups[..i], merging)
      invariant before == SavedBefore(groups[..i], merging) && origins == SavedOrigins(groups[..i], merging)
    {
      assert groups[..i + 1][..i] == groups[..i];
      var g := groups[i];
      if !Touched(g.names, merging) {
        kept := kept + [g];
      } else {
        if g.before.Some? { aliases := aliases + set n | n in g.names && n !in g.before.value; }
        before := before + g.Before();
        origins := origins + g.Origins();
      }
    }
    assert groups[..|groups|] == groups;
  }

  /** Save every name that has nothing saved yet, unless it joined a merged group later. */
  method SaveRest(entities: seq<Entity>, names: seq<string>, aliases: set<string>,
    savedBefore: map<string, seq<nat>>, savedOrigins: map<string, Origin>)
    returns (before: map<string, seq<nat>>, origins: map<string, Origin>)
    requires forall n | n in names :: Find(entities, n).Some?
    ensures forall n :: n in before <==> n in savedBefore || (n in names && n !in aliases)
    ensures forall n :: n in origins <==> n in savedOrigins || (n in names && n !in aliases)
    ensures forall n | n in savedBefore :: before[n] == savedBefore[n]
    ensures forall n | n in savedOrigins :: origins[n] == savedOrigins[n]
    ensures forall n | n in names && n in before && n !in savedBefore :: before[n] == Find(entities, n).value.gameIds
    ensures forall n | n in names && n in origins && n !in savedOrigins ::
      origins[n] == OriginOf(Find(entities, n).value)
  {
    hide Find;
    before, origins := savedBefore, savedOrigins;
    for i := 0 to |names|
      invariant forall n :: n in before <==> n in savedBefore || (n in names[..i] && n !in aliases)
      invariant forall n :: n in origins <==> n in savedOrigins || (n in names[..i] && n !in aliases)
      invariant forall n | n in savedBefore :: before[n] == savedBefore[n]
      invariant forall n | n in savedOrigins :: origins[n] == savedOrigins[n]
      invariant forall n | n in names && n in before && n !in savedBefore ::
        before[n] == Find(entities, n).value.gameIds
      invariant forall n | n in names && n in origins && n !in savedOrigins ::
        origins[n] == OriginOf(Find(entities, n).value)
    {
      assert names[..i + 1] == names[..i] + [names[i]];
      var n := names[i];
      if n !in aliases {
        var e := Find(entities, n).value;
        if n !in before { before := before[n := e.gameIds]; }
        if n !in origins { origins := origins[n := OriginOf(e)]; }
      }
    }
    assert names[..|names|] == names;
  }

  /** Erase the members. */
  method EraseMembers(entities: seq<Entity>, members: set<nat>, merging: set<string>) returns (kept: seq<Entity>)
    requires forall e | e in entities :: e.entityId in members <==> Touched(e.names, merging)
    ensures kept == Outside(entities, merging)
  {
    kept := [];
    var i := |entities|;
    assert entities[i..] == [];
    while i > 0
      invariant 0 <= i <= |entities| && kept == Outside(entities[i..], merging)
    {
      i := i - 1;
      assert entities[i..][1..] == entities[i + 1..];
      assert entities[i] in entities;
      if entities[i].entityId !in members { kept := [entities[i]] + kept; }
    }
    assert entities[0..] == entities;
  }

  /** One group has exactly these names, and they are one entity's: there is nothing to merge. */
  ghost predicate AlreadyMerged(s: Library, names: seq<string>, id: nat) {
    (exists g :: g in s.groups && SetOf(g.names) == SetOf(names)) &&
    exists e :: e in s.entities && e.entityId == id && forall n | n in names :: n in e.names
  }

  /** The names become one entity with a group of their own ID; or one group had all of them already. */
  ghost predicate MergeOutcome(s: Library, t: Library, merged: Entity, g: Group, gid: seq<string> -> string) {
    || (MergesInto(s, t, merged, g) && g.groupId == gid(g.names))
    || (t == s && AlreadyMerged(s, merged.names, merged.entityId))
  }

  method HasGroup(groups: seq<Group>, names: seq<string>) returns (has: bool)
    ensures has ==> exists g :: g in groups && SetOf(g.names) == SetOf(names)
    ensures !has ==> forall g | g in groups :: SortBy(TextLe, g.names) != names
  {
    for i := 0 to |groups|
      invariant forall k | 0 <= k < i :: SortBy(TextLe, groups[k].names) != names
    {
      if SortBy(TextLe, groups[i].names) == names {
        SortByMembers(TextLe, groups[i].names);
        assert SetOf(groups[i].names) == Elements(groups[i].names) && SetOf(names) == Elements(names);
        return true;
      }
    }
    return false;
  }

  /** The names merged are those asked for and all others of the same entities. */
  ghost predicate Completes(entities: seq<Entity>, requested: seq<string>, all: seq<string>) {
    forall n :: n in all <==> n in requested || exists m :: m in requested && SharesOwner(entities, m, n)
  }

  ghost predicate SharesOwner(entities: seq<Entity>, m: string, n: string) {
    Find(entities, m).Some? && n in Find(entities, m).value.names
  }

  lemma {:induction false} MembersComplete(entities: seq<Entity>, requested: seq<string>, members: set<nat>,
    all: seq<string>)
    requires Unique(entities) && OwnersOf(entities, requested, members)
    requires forall n :: n in all <==>
      n in requested || exists e :: e in entities && e.entityId in members && n in e.names
    ensures Completes(entities, requested, all)
    ensures Closed(entities, SetOf(all))
    ensures forall e | e in entities :: e.entityId in members <==> Touched(e.names, SetOf(all))
  {
    hide Find;
    forall e, n | e in entities && e.entityId in members && n in e.names
      ensures exists m :: m in requested && SharesOwner(entities, m, n)
    {
      var m :| m in requested && Owns(entities, e.entityId, m);
      FindFinds(entities, m);
      assert SharesOwner(entities, m, n);
    }
    forall m, n | m in requested && SharesOwner(entities, m, n) ensures n in all { FindFinds(entities, m); }
    forall n | n in all
      ensures Find(entities, n).Some? && Find(entities, n).value.entityId in members
    {
      if n !in requested {
        var e :| e in entities && e.entityId in members && n in e.names;
        FindIs(entities, e, n);
      }
    }
    forall n | n in SetOf(all) ensures SetOf(Find(entities, n).value.names) <= SetOf(all) { FindFinds(entities, n); }
    forall e | e in entities ensures e.entityId in members <==> Touched(e.names, SetOf(all)) {
      if e.entityId in members {
        assert e.names[0] in e.names;
      }
      if Touched(e.names, SetOf(all)) {
        var n :| n in e.names && n in SetOf(all);
        FindIs(entities, e, n);
      }
    }
  }

  lemma {:induction false} MembersExist(entities: seq<Entity>, requested: seq<string>, members: set<nat>)
    requires OwnersOf(entities, requested, members)
    ensures forall id | id in members :: EntityAt(entities, id).Some?
  {
    hide Find, EntityAt;
    forall id | id in members ensures EntityAt(entities, id).Some? {
      var n :| n in requested && Owns(entities, id, n);
      FindFinds(entities, n);
      EntityAtFinds(entities, id);
    }
  }

  lemma {:induction false} DistinctCount(names: seq<string>, requested: seq<string>)
    requires NoRepeats(names) && forall n :: n in names <==> n in requested
    ensures |names| == |SetOf(requested)|
  {
    assert SetOf(names) == SetOf(requested);
    NoRepeatsCount(names);
  }

  lemma {:induction false} NoRepeatsCount(names: seq<string>)
    requires NoRepeats(names)
    ensures |names| == |SetOf(names)|
  {
    if names == [] {
      assert SetOf(names) == {};
    } else {
      var front, last := names[..|names| - 1], names[|names| - 1];
      NoRepeatsCount(front);
      assert names == front + [last];
      assert last !in front;
      assert SetOf(names) == SetOf(front) + {last};
    }
  }

  lemma {:induction false} SameNames(sorted: seq<string>, all: seq<string>)
    requires sorted == SortBy(TextLe, all) && NoRepeats(all)
    ensures NoRepeats(sorted) && forall n :: n in sorted <==> n in all
  {
    SortByMembers(TextLe, all);
    forall n ensures n in sorted <==> n in all { assert n in Elements(sorted) <==> n in Elements(all); }
    forall i, j | 0 <= i < j < |sorted| ensures sorted[i] != sorted[j] {
      if sorted[i] == sorted[j] {
        RepeatCounts(sorted, i, j);
        AtMostOnce(all, sorted[i]);
      }
    }
  }

  lemma {:induction false} RepeatCounts(xs: seq<string>, i: nat, j: nat)
    requires i < j < |xs| && xs[i] == xs[j]
    ensures multiset(xs)[xs[i]] >= 2
  {
    assert xs == xs[..j] + [xs[j]] + xs[j + 1..];
    assert xs[..j][i] == xs[i];
    assert xs[i] in multiset(xs[..j]);
  }

  lemma {:induction false} AtMostOnce(xs: seq<string>, x: string)
    requires NoRepeats(xs)
    ensures multiset(xs)[x] <= 1
  {
    if xs != [] {
      var front, last := xs[..|xs| - 1], xs[|xs| - 1];
      AtMostOnce(front, x);
      assert xs == front + [last];
      assert last !in front;
    }
  }

  lemma {:induction false} OneEntity(entities: seq<Entity>, merging: set<string>, a: Entity, b: Entity)
    requires a.entityId == b.entityId && a in entities && b in entities
    requires Unique(entities)
    ensures a == b
  {
  }

  lemma {:induction false} MergedUnites(entities: seq<Entity>, members: set<nat>, merging: set<string>, merged: Entity,
    first: Entity)
    requires forall e | e in entities :: e.entityId in members <==> Touched(e.names, merging)
    requires IsLowest(members, merged.entityId) && first in entities && first.entityId == merged.entityId
    requires first.cloudId == merged.cloudId
    requires forall x :: x in merged.gameIds <==>
      exists e :: e in entities && e.entityId in members && x in e.gameIds
    ensures Unites(entities, merging, merged) && KeepsCloud(entities, merging, merged)
  {
    hide Touched;
    assert IsMember(entities, merging, first);
    forall x ensures x in merged.gameIds <==> exists e :: IsMember(entities, merging, e) && x in e.gameIds {
      if x in merged.gameIds {
        var e :| e in entities && e.entityId in members && x in e.gameIds;
        assert IsMember(entities, merging, e);
      }
    }
  }

  /** What a merge of the requested names would unite. */
  ghost predicate Selects(entities: seq<Entity>, requested: seq<string>, members: set<nat>, merged: Entity) {
    var merging := SetOf(merged.names);
    && merged.names != [] && NoRepeats(merged.names) && Completes(entities, requested, merged.names)
    && Closed(entities, merging) && Unites(entities, merging, merged) && KeepsCloud(entities, merging, merged)
    && (forall e | e in entities :: e.entityId in members <==> Touched(e.names, merging))
    && SortedBy(TextLe, merged.names)
  }

  lemma {:induction false} CompletesSame(entities: seq<Entity>, requested: seq<string>, names: seq<string>,
    all: seq<string>, sorted: seq<string>)
    requires Completes(entities, names, all)
    requires forall n :: n in names <==> n in requested
    requires forall n :: n in sorted <==> n in all
    ensures Completes(entities, requested, sorted)
    ensures SetOf(sorted) == SetOf(all)
  {
    hide SharesOwner;
  }

  lemma {:induction false} NamesSorted(names: seq<string>)
    ensures SortedBy(TextLe, SortBy(TextLe, names))
  {
    hide SortBy, TextLe;
    TextOrders();
    SortBySorts(TextLe, names);
  }

  lemma {:induction false} OwnersAreMembers(entities: seq<Entity>, names: seq<string>, members: set<nat>)
    requires OwnersOf(entities, names, members)
    ensures MembersAre(entities, members)
    ensures names != [] ==> members != {}
  {
    hide Find;
    if names != [] { assert names[0] in names; }
    forall id | id in members ensures exists e :: e in entities && e.entityId == id {
      var n :| n in names && Owns(entities, id, n);
      FindFinds(entities, n);
    }
  }

  method SelectMembers(entities: seq<Entity>, requested: seq<string>) returns (r: Option<(set<nat>, Entity)>)
    requires Unique(entities)
    ensures r.None? <==> |SetOf(requested)| < 2 || exists n :: n in requested && Find(entities, n).None?
    ensures r.Some? ==> Selects(entities, requested, r.value.0, r.value.1) && MembersAre(entities, r.value.0)
  {
    hide Find, EntityAt, Completes, Unites, Touched, Unique, Closed, TextLe, SortBy, SortedBy, MembersAre, KeepsCloud, OwnersOf;
    var names := ReadUnique(requested);
    DistinctCount(names, requested);
    if |names| < 2 { return None; }
    var found := FindMembers(entities, names);
    if found.None? { return None; }
    var members := found.value;
    MembersExist(entities, names, members);
    var all, games := CollectMembers(entities, members, names);
    MembersComplete(entities, names, members, all);
    var sorted := SortBy(TextLe, all);
    NamesSorted(all);
    OwnersAreMembers(entities, names, members);
    SameNames(sorted, all);
    CompletesSame(entities, requested, names, all, sorted);
    assert names[0] in names && names[0] in all;
    LowestExists(members);
    var lowest: nat :| IsLowest(members, lowest);
    EntityAtFinds(entities, lowest);
    var first := EntityAt(entities, lowest).value;
    var merged := Entity(lowest, first.cloudId, sorted, games);
    MergedUnites(entities, members, SetOf(sorted), merged, first);
    r := Some((members, merged));
  }

  lemma {:induction false} OneMember(s: Library, requested: seq<string>, members: set<nat>, merged: Entity)
    requires Unique(s.entities) && Selects(s.entities, requested, members, merged) && |members| == 1
    requires exists g :: g in s.groups && SetOf(g.names) == SetOf(merged.names)
    ensures AlreadyMerged(s, merged.names, merged.entityId)
  {
    hide Find;
    var merging := SetOf(merged.names);
    var first :| IsMember(s.entities, merging, first) && first.entityId == merged.entityId;
    var others := members - {first.entityId};
    assert |others| == 0;
    forall n | n in merged.names ensures n in first.names {
      FindFinds(s.entities, n);
      var e := Find(s.entities, n).value;
      assert Touched(e.names, merging);
      assert e.entityId in members && e.entityId !in others;
      OneEntity(s.entities, merging, first, e);
    }
  }

  ghost predicate NamedOnce(groups: seq<Group>) { forall g | g in groups :: NoRepeats(g.names) }

  lemma {:induction false} SameSorted(names: seq<string>, sorted: seq<string>)
    requires NoRepeats(names) && NoRepeats(sorted) && SetOf(names) == SetOf(sorted) && SortedBy(TextLe, sorted)
    ensures SortBy(TextLe, names) == sorted
  {
    hide SortBy, TextLe;
    forall n ensures multiset(names)[n] == multiset(sorted)[n] {
      AtMostOnce(names, n);
      AtMostOnce(sorted, n);
      assert n in SetOf(names) <==> n in SetOf(sorted);
      assert n in multiset(names) <==> n in names;
      assert n in multiset(sorted) <==> n in sorted;
    }
    TextOrders();
    SortBySorts(TextLe, names);
    SortedUnique(TextLe, SortBy(TextLe, names), sorted);
  }

  lemma {:induction false} SeveralMembers(s: Library, requested: seq<string>, members: set<nat>, merged: Entity, e: Entity)
    requires Unique(s.entities) && Selects(s.entities, requested, members, merged) && MembersAre(s.entities, members)
    requires e in s.entities && forall n | n in merged.names :: n in e.names
    ensures members == {e.entityId}
  {
    hide Find, Unites, Completes, KeepsCloud, Closed;
    assert merged.names[0] in merged.names && merged.names[0] in SetOf(merged.names);
    forall id: nat | id in members ensures id == e.entityId {
      var f :| f in s.entities && f.entityId == id;
      var n :| n in f.names && n in SetOf(merged.names);
      assert n in e.names;
    }
  }

  ghost predicate MembersAre(entities: seq<Entity>, members: set<nat>) {
    forall id | id in members :: exists e :: e in entities && e.entityId == id
  }

  /** Names that are one entity and have a group of their own are found to be so. */
  lemma {:induction false} NotMergedYet(s: Library, requested: seq<string>, members: set<nat>, merged: Entity)
    requires Unique(s.entities) && Selects(s.entities, requested, members, merged) && MembersAre(s.entities, members)
    requires |members| != 1 || forall g | g in s.groups :: SortBy(TextLe, g.names) != merged.names
    ensures AlreadyMerged(s, merged.names, merged.entityId) ==> !NamedOnce(s.groups)
  {
    hide Find, SortBy, TextLe, Selects, Unique;
    SelectsNames(s.entities, requested, members, merged);
    forall g, e | g in s.groups && NoRepeats(g.names) && SetOf(g.names) == SetOf(merged.names) &&
        e in s.entities && forall n | n in merged.names :: n in e.names
      ensures false
    {
      SameSorted(g.names, merged.names);
      SeveralMembers(s, requested, members, merged, e);
    }
  }

  lemma {:induction false} SelectsNames(entities: seq<Entity>, requested: seq<string>, members: set<nat>, merged: Entity)
    requires Selects(entities, requested, members, merged)
    ensures NoRepeats(merged.names) && SortedBy(TextLe, merged.names)
  {
  }

  /** Merge the names asked for, together with all other names of the entities they belong to. It is
      refused when fewer than two names are given or one is unknown; it changes nothing when one
      group already holds exactly these names of one entity. */
  method Merge(s: Library, requested: seq<string>, gid: seq<string> -> string)
    returns (r: Option<(Library, nat)>, ghost merged: Entity, ghost g: Group)
    requires Unique(s.entities)
    ensures r.None? <==> |SetOf(requested)| < 2 || exists n :: n in requested && Find(s.entities, n).None?
    ensures r.Some? ==> r.value.1 == merged.entityId && Completes(s.entities, requested, merged.names)
    ensures r.Some? ==> MergeOutcome(s, r.value.0, merged, g, gid) && SortedBy(TextLe, merged.names)
    ensures r.Some? && AlreadyMerged(s, merged.names, merged.entityId) && NamedOnce(s.groups) ==> r.value.0 == s
  {
    hide Find, Outside, Apart, SavedBefore, SavedOrigins, Aliases, Completes, Closed, Unites, Touched, TextLe, SortedBy, SortBy;
    merged, g := Entity(0, None, [], []), Group("", [], None, None);
    r := None;
    var found := SelectMembers(s.entities, requested);
    if found.None? { return; }
    var members, united := found.value.0, found.value.1;
    merged := united;
    if |members| == 1 {
      var has := HasGroup(s.groups, united.names);
      if has {
        OneMember(s, requested, members, united);
        r := Some((s, united.entityId));
        return;
      }
    }
    NotMergedYet(s, requested, members, united);
    var t, group := ReplaceMembers(s, members, united, gid);
    g := group;
    r := Some((t, united.entityId));
  }

  method ReplaceMembers(s: Library, members: set<nat>, merged: Entity, gid: seq<string> -> string)
    returns (t: Library, g: Group)
    requires Closed(s.entities, SetOf(merged.names)) && merged.names != [] && NoRepeats(merged.names)
    requires forall e | e in s.entities :: e.entityId in members <==> Touched(e.names, SetOf(merged.names))
    requires Unites(s.entities, SetOf(merged.names), merged) && KeepsCloud(s.entities, SetOf(merged.names), merged)
    ensures MergesInto(s, t, merged, g) && g.groupId == gid(merged.names)
  {
    hide Find, Outside, Apart, SavedBefore, SavedOrigins, Aliases, Unites, Touched;
    var merging := set n | n in merged.names;
    assert merging == SetOf(merged.names);
    var groups, before, origins, aliases := GatherGroups(s.groups, merging);
    before, origins := SaveRest(s.entities, merged.names, aliases, before, origins);
    var kept := EraseMembers(s.entities, members, merging);
    g := Group(gid(merged.names), merged.names, Some(before), Some(origins));
    t := Library(kept + [merged], groups + [g]);
  }
}
