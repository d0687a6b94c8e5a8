/** The unmerge command as it runs. */
module LibrarySplitting {
  import opened Options
  import opened Ordering
  import opened Collections
  import opened PlayerLibrary
  import opened LibraryJoin
  import opened LibraryMerge
  import opened LibrarySplit

  ghost predicate AreExtras(g: Group, o: Entity, extra: seq<nat>) { forall x :: x in extra <==> IsExtra(g, o, x) }

  /** The game IDs that no snapshot explains, in the order of the entity. */
  method FindExtras(g: Group, o: Entity, names: seq<string>) returns (extra: seq<nat>)
    requires forall n :: n in names <==> n in o.names
    ensures AreExtras(g, o, extra)
  {
    var known: set<nat> := {};
    for i := 0 to |names|
      invariant forall x :: x in known <==> exists n :: n in names[..i] && n in g.Before() && x in g.Before()[n]
    {
      assert names[..i + 1] == names[..i] + [names[i]];
      if names[i] in g.Before() { known := known + set x | x in g.Before()[names[i]]; }
    }
    assert names[..|names|] == names;
    extra := [];
    for i := 0 to |o.gameIds|
      invariant forall x :: x in extra <==> x in o.gameIds[..i] && x !in known
    {
      assert o.gameIds[..i + 1] == o.gameIds[..i] + [o.gameIds[i]];
      if o.gameIds[i] !in known { extra := extra + [o.gameIds[i]]; }
    }
    assert o.gameIds[..|o.gameIds|] == o.gameIds;
  }

  method Without(xs: seq<nat>, extra: seq<nat>) returns (r: seq<nat>)
    ensures forall x :: x in r <==> x in xs && x !in extra
  {
    r := [];
    for i := 0 to |xs|
      invariant forall x :: x in r <==> x in xs[..i] && x !in extra
    {
      assert xs[..i + 1] == xs[..i] + [xs[i]];
      if xs[i] !in extra { r := r + [xs[i]]; }
    }
    assert xs[..|xs|] == xs;
  }

  /** The game IDs that go with one name. */
  method TakeGames(g: Group, o: Entity, keep: string, n: string, extra: seq<nat>) returns (games: seq<nat>)
    requires AreExtras(g, o, extra) && n in o.names
    ensures forall x :: x in games <==> Takes(g, o, keep, n, x)
  {
    hide AreExtras;
    ExtrasAre(g, o, extra, n);
    games := if n in g.Before() then g.Before()[n] else o.gameIds;
    if n == keep { games := AddAll(games, extra); } else { games := Without(games, extra); }
  }

  lemma {:induction false} ExtrasAre(g: Group, o: Entity, extra: seq<nat>, n: string)
    requires AreExtras(g, o, extra) && n in o.names
    ensures forall x :: x in extra <==> IsExtra(g, o, x)
    ensures forall x | IsExtra(g, o, x) :: x in o.gameIds && (n in g.Before() ==> x !in g.Before()[n])
  {
  }

  // ---- Giving IDs ----

  /** For each source met among the first k names, the ID that its names are given. */
  ghost predicate TargetsFit(p: Plan, k: nat, targets: map<nat, nat>) {
    && k <= |p.selected|
    && (forall source: nat :: source in targets <==> FirstOf(p.g, p.selected, source) < k)
    && (forall source: nat | source in targets :: targets[source] == IdOfSource(p, source))
  }

  lemma {:induction false} FirstIsHere(g: Group, selected: seq<string>, source: nat, k: nat)
    requires k < |selected| && FirstOf(g, selected, source) >= k
    ensures FirstOf(g, selected, source) == k <==> SourceOf(g, selected[k]) == Some(source)
  {
  }

  lemma {:induction false} TargetsWithout(p: Plan, k: nat, targets: map<nat, nat>)
    requires k < |p.selected| && TargetsFit(p, k, targets)
    requires SourceOf(p.g, p.selected[k]).Some? ==> SourceOf(p.g, p.selected[k]).value in targets
    ensures TargetsFit(p, k + 1, targets) && !NeedsNew(p, k)
  {
    hide SourceOf, IdOfSource;
    forall source: nat ensures FirstOf(p.g, p.selected, source) != k {
      if FirstOf(p.g, p.selected, source) >= k { FirstIsHere(p.g, p.selected, source, k); }
    }
  }

  lemma {:induction false} TargetsWith(p: Plan, k: nat, targets: map<nat, nat>, source: nat)
    requires k < |p.selected| && TargetsFit(p, k, targets)
    requires SourceOf(p.g, p.selected[k]) == Some(source) && source !in targets
    ensures FirstOf(p.g, p.selected, source) == k && (NeedsNew(p, k) <==> !Free(p, source))
    ensures TargetsFit(p, k + 1, targets[source := IdOfSource(p, source)])
  {
    hide SourceOf, IdOfSource, Free;
    FirstIsHere(p.g, p.selected, source, k);
    forall other: nat | FirstOf(p.g, p.selected, other) == k ensures other == source {
      FirstIsHere(p.g, p.selected, other, k);
    }
  }

  /** A new ID is used up for every name, whether it is needed or not. */
  method GiveId(p: Plan, k: nat, next: nat, targets: map<nat, nat>)
    returns (id: nat, later: nat, more: map<nat, nat>)
    requires k < |p.selected| && next == p.next + UsedUp(p, k) && TargetsFit(p, k, targets)
    ensures id == IdFor(p, k) && later == p.next + UsedUp(p, k + 1) && TargetsFit(p, k + 1, more)
  {
    hide Available, NeedsNew, TargetsFit, FirstOf;
    id, later, more := next, next + 1, targets;
    var source := SourceOf(p.g, p.selected[k]);
    TargetsAre(p, k, targets);
    if source.Some? {
      if source.value in targets {
        id := targets[source.value];
        TargetsWithout(p, k, targets);
      } else {
        TargetsWith(p, k, targets, source.value);
        id := source.value;
        if !Free(p, id) { id, later := later, later + 1; }
        more := more[source.value := id];
      }
    } else {
      TargetsWithout(p, k, targets);
    }
  }

  lemma {:induction false} TargetsAre(p: Plan, k: nat, targets: map<nat, nat>)
    requires TargetsFit(p, k, targets)
    ensures forall source: nat | source in targets :: targets[source] == IdOfSource(p, source)
  {
  }

  // ---- Building the restored entities ----

  function IndexOf(restored: seq<Entity>, id: nat): Option<nat> {
    if restored == [] then None
    else if restored[0].entityId == id then Some(0)
    else match IndexOf(restored[1..], id)
      case None => None
      case Some(k) => Some(k + 1)
  }

  lemma {:induction false} IndexOfFinds(restored: seq<Entity>, id: nat)
    ensures IndexOf(restored, id).Some? ==>
      IndexOf(restored, id).value < |restored| && restored[IndexOf(restored, id).value].entityId == id
    ensures IndexOf(restored, id).None? ==> forall e | e in restored :: e.entityId != id
  {
    if restored != [] && restored[0].entityId != id { IndexOfFinds(restored[1..], id); }
  }

  lemma {:induction false} NewRestored(g: Group, o: Entity, keep: string, done: seq<string>, given: map<string, nat>,
    restored: seq<Entity>, e: Entity, n: string)
    requires Restores(g, o, keep, done, given, restored) && n !in done && n !in given
    requires e.names == [n] && e.cloudId == CloudOf(g, n)
    requires forall x :: x in e.gameIds <==> Takes(g, o, keep, n, x)
    requires forall f | f in restored :: f.entityId != e.entityId
    ensures Restores(g, o, keep, done + [n], given[n := e.entityId], restored + [e])
  {
    hide Takes, CloudOf;
    assert n in e.names;
    forall m ensures m in done + [n] <==> exists f :: f in restored + [e] && m in f.names {
      if m in done {
        var f :| f in restored && m in f.names;
        assert f in restored + [e];
      }
      if m == n { assert e in restored + [e]; }
    }
    assert HasItsGames(g, o, keep, e);
  }

  lemma {:induction false} JoinRestored(g: Group, o: Entity, keep: string, done: seq<string>, given: map<string, nat>,
    restored: seq<Entity>, k: nat, games: seq<nat>, n: string)
    requires Restores(g, o, keep, done, given, restored) && n !in done && n !in given && k < |restored|
    requires forall x :: x in games <==> x in restored[k].gameIds || Takes(g, o, keep, n, x)
    ensures Restores(g, o, keep, done + [n], given[n := restored[k].entityId],
      restored[k := restored[k].(names := restored[k].names + [n], gameIds := games)])
  {
    hide Takes, CloudOf, HasItsGames;
    var e := restored[k];
    var joined := e.(names := e.names + [n], gameIds := games);
    var after := restored[k := joined];
    assert e in restored && after[k] == joined && joined in after;
    assert forall m | m in e.names :: m in given;
    forall m ensures m in done + [n] <==> exists f :: f in after && m in f.names {
      if m in done {
        var f :| f in restored && m in f.names;
        if f == e { assert joined in after && m in joined.names; } else { KeptInUpdate(restored, k, joined, f); }
      }
      if m == n { assert joined in after && n in joined.names; }
      if f :| f in after && m in f.names { UpdatedFrom(restored, k, joined, f); }
    }
    forall f | f in after ensures f in restored || f == joined { UpdatedFrom(restored, k, joined, f); }
    JoinedGames(g, o, keep, e, games, n);
  }

  lemma {:induction false} KeptInUpdate(restored: seq<Entity>, k: nat, joined: Entity, f: Entity)
    requires k < |restored| && f in restored && f != restored[k]
    ensures f in restored[k := joined]
  {
    var i :| 0 <= i < |restored| && restored[i] == f;
    assert restored[k := joined][i] == f;
  }

  lemma {:induction false} UpdatedFrom(restored: seq<Entity>, k: nat, joined: Entity, f: Entity)
    requires k < |restored| && f in restored[k := joined]
    ensures f in restored || f == joined
  {
  }

  lemma {:induction false} JoinedGames(g: Group, o: Entity, keep: string, e: Entity, games: seq<nat>, n: string)
    requires HasItsGames(g, o, keep, e)
    requires forall x :: x in games <==> x in e.gameIds || Takes(g, o, keep, n, x)
    ensures HasItsGames(g, o, keep, e.(names := e.names + [n], gameIds := games))
  {
    hide Takes;
    var joined := e.(names := e.names + [n], gameIds := games);
    forall x ensures x in games <==> TakesOne(g, o, keep, joined.names, x) {
      if x in e.gameIds {
        var m :| m in e.names && Takes(g, o, keep, m, x);
        assert m in joined.names;
      }
      if Takes(g, o, keep, n, x) { assert n in joined.names; }
      if TakesOne(g, o, keep, joined.names, x) {
        var m :| m in joined.names && Takes(g, o, keep, m, x);
        if m in e.names { assert TakesOne(g, o, keep, e.names, x); }
      }
    }
  }

  lemma {:induction false} NewInOrder(g: Group, o: Entity, keep: string, done: seq<string>, given: map<string, nat>,
    restored: seq<Entity>, e: Entity, n: string)
    requires Restores(g, o, keep, done, given, restored) && NamesInOrder(done, given, restored) && n !in done
    requires e.names == [n] && forall f | f in restored :: f.entityId != e.entityId
    ensures NamesInOrder(done + [n], given[n := e.entityId], restored + [e])
  {
    hide HasItsGames, CloudOf, WithId;
    var others := WithId(done, given, e.entityId);
    WithIdMembers(done, given, e.entityId);
    forall m ensures m !in others { GivenElsewhere(g, o, keep, done, given, restored, m); }
    EmptyOrMember(others);
    forall f | f in restored + [e] ensures f.names == WithId(done + [n], given[n := e.entityId], f.entityId) {
      WithIdGrows(done, given, n, e.entityId, f.entityId);
    }
  }

  lemma {:induction false} EmptyOrMember(names: seq<string>)
    ensures names == [] || exists m :: m in names
  {
    if names != [] { assert names[0] in names; }
  }

  lemma {:induction false} GivenElsewhere(g: Group, o: Entity, keep: string, done: seq<string>, given: map<string, nat>,
    restored: seq<Entity>, m: string)
    requires Restores(g, o, keep, done, given, restored)
    ensures m in done ==> m in given && exists f :: f in restored && f.entityId == given[m]
  {
    hide HasItsGames, CloudOf;
    if m in done { var f :| f in restored && m in f.names; }
  }

  lemma {:induction false} JoinInOrder(g: Group, o: Entity, keep: string, done: seq<string>, given: map<string, nat>,
    restored: seq<Entity>, k: nat, games: seq<nat>, n: string)
    requires Restores(g, o, keep, done, given, restored) && NamesInOrder(done, given, restored) && n !in done && k < |restored|
    ensures NamesInOrder(done + [n], given[n := restored[k].entityId],
      restored[k := restored[k].(names := restored[k].names + [n], gameIds := games)])
  {
    hide HasItsGames, CloudOf, WithId;
    var joined := restored[k].(names := restored[k].names + [n], gameIds := games);
    var after := restored[k := joined];
    forall f | f in after ensures f.names == WithId(done + [n], given[n := joined.entityId], f.entityId) {
      WithIdGrows(done, given, n, joined.entityId, f.entityId);
      var j :| 0 <= j < |after| && after[j] == f;
      if j != k { assert restored[j] == f && restored[j] in restored && f.entityId != restored[k].entityId; }
      else { assert restored[k] in restored; }
    }
  }

  /** The IDs given so far. */
  ghost predicate GivenFits(p: Plan, k: nat, given: map<string, nat>) {
    && k <= |p.selected|
    && (forall n :: n in given <==> n in p.selected[..k])
    && (forall j | 0 <= j < k :: given[p.selected[j]] == IdFor(p, j))
  }

  lemma {:induction false} GivenGrows(p: Plan, k: nat, given: map<string, nat>)
    requires k < |p.selected| && NoRepeats(p.selected) && GivenFits(p, k, given)
    ensures p.selected[k] !in given && p.selected[k] !in p.selected[..k]
    ensures GivenFits(p, k + 1, given[p.selected[k] := IdFor(p, k)])
  {
    hide IdFor;
    assert p.selected[..k + 1] == p.selected[..k] + [p.selected[k]];
  }

  lemma {:induction false} GivenIsAssigned(p: Plan, given: map<string, nat>)
    requires NoRepeats(p.selected) && GivenFits(p, |p.selected|, given)
    ensures Assigns(p, given)
  {
    hide IdFor;
    assert p.selected[..|p.selected|] == p.selected;
  }

  /** Restore the selected names one by one. */
  method RestoreNames(p: Plan, keep: string, extra: seq<nat>) returns (restored: seq<Entity>, ghost given: map<string, nat>)
    requires NoRepeats(p.selected) && AreExtras(p.g, p.o, extra) && forall n | n in p.selected :: n in p.o.names
    ensures Assigns(p, given) && Restores(p.g, p.o, keep, p.selected, given, restored)
    ensures NamesInOrder(p.selected, given, restored)
  {
    hide Takes, AreExtras, Available, Restores, GivenFits, TargetsFit, Assigns, IdFor, UsedUp, NamesInOrder;
    var g, o, selected := p.g, p.o, p.selected;
    restored, given := [], map[];
    var next := p.next;
    var targets: map<nat, nat> := map[];
    NothingRestored(p, keep);
    for i := 0 to |selected|
      invariant next == p.next + UsedUp(p, i) && TargetsFit(p, i, targets)
      invariant GivenFits(p, i, given)
      invariant Restores(g, o, keep, selected[..i], given, restored) && NamesInOrder(selected[..i], given, restored)
    {
      var n := selected[i];
      GivenGrows(p, i, given);
      var id, later, more := GiveId(p, i, next, targets);
      assert selected[..i + 1] == selected[..i] + [n];
      assert n in selected;
      var games := TakeGames(g, o, keep, n, extra);
      IndexOfFinds(restored, id);
      var k := IndexOf(restored, id);
      if k.None? {
        var e := Entity(id, CloudOf(g, n), [n], games);
        NewRestored(g, o, keep, selected[..i], given, restored, e, n);
        NewInOrder(g, o, keep, selected[..i], given, restored, e, n);
        restored := restored + [e];
      } else {
        games := AddAll(restored[k.value].gameIds, games);
        JoinRestored(g, o, keep, selected[..i], given, restored, k.value, games, n);
        JoinInOrder(g, o, keep, selected[..i], given, restored, k.value, games, n);
        restored := restored[k.value :=
          restored[k.value].(names := restored[k.value].names + [n], gameIds := games)];
      }
      given := given[n := id];
      next, targets := later, more;
    }
    assert selected[..|selected|] == selected;
    GivenIsAssigned(p, given);
  }

  lemma {:induction false} NothingRestored(p: Plan, keep: string)
    ensures TargetsFit(p, 0, map[]) && GivenFits(p, 0, map[]) && UsedUp(p, 0) == 0
    ensures Restores(p.g, p.o, keep, [], map[], []) && NamesInOrder([], map[], [])
  {
  }

  // ---- What is left behind ----

  method LeaveNames(g: Group, o: Entity, keep: string, remaining: seq<string>, extra: seq<nat>, restored: seq<Entity>)
    returns (left: Entity)
    requires AreExtras(g, o, extra) && forall n | n in remaining :: n in o.names
    ensures Leaves(g, o, keep, remaining, restored, left)
  {
    hide Takes, AreExtras, CloudOf;
    var games: seq<nat> := [];
    var cloud: Option<string> := None;
    for i := 0 to |remaining|
      invariant forall x :: x in games <==> TakesOne(g, o, keep, remaining[..i], x)
      invariant FirstCloud(g, remaining) == if cloud.Some? then cloud else FirstCloud(g, remaining[i..])
    {
      var n := remaining[i];
      assert n in remaining && remaining[i..][1..] == remaining[i + 1..];
      var taken := TakeGames(g, o, keep, n, extra);
      TakesOneMore(g, o, keep, remaining, i);
      games := AddAll(games, taken);
      if cloud.None? { cloud := CloudOf(g, n); }
    }
    assert remaining[..|remaining|] == remaining && remaining[|remaining|..] == [];
    if exists e :: e in restored && e.cloudId.Some? && e.cloudId == cloud { cloud := None; }
    left := Entity(o.entityId, cloud, remaining, games);
  }

  lemma {:induction false} TakesOneMore(g: Group, o: Entity, keep: string, names: seq<string>, i: nat)
    requires i < |names|
    ensures forall x :: TakesOne(g, o, keep, names[..i + 1], x) <==>
      TakesOne(g, o, keep, names[..i], x) || Takes(g, o, keep, names[i], x)
  {
    hide Takes;
    assert names[..i + 1] == names[..i] + [names[i]];
    forall x ensures TakesOne(g, o, keep, names[..i + 1], x) <==>
        TakesOne(g, o, keep, names[..i], x) || Takes(g, o, keep, names[i], x)
    {
      if Takes(g, o, keep, names[i], x) { assert names[i] in names[..i + 1]; }
      if TakesOne(g, o, keep, names[..i], x) {
        var m :| m in names[..i] && Takes(g, o, keep, m, x);
        assert m in names[..i + 1];
      }
    }
  }

  method EraseEntity(entities: seq<Entity>, id: nat) returns (kept: seq<Entity>)
    ensures kept == Others(entities, id)
  {
    kept := [];
    var i := |entities|;
    assert entities[i..] == [];
    while i > 0
      invariant 0 <= i <= |entities| && kept == Others(entities[i..], id)
    {
      i := i - 1;
      assert entities[i..][1..] == entities[i + 1..];
      if entities[i].entityId != id { kept := [entities[i]] + kept; }
    }
    assert entities[0..] == entities;
  }

  // ---- The command ----

  /** The entity that the group's names belong to, if they all belong to one. */
  ghost predicate OwnedBy(entities: seq<Entity>, names: seq<string>, o: Entity) {
    names != [] && forall n | n in names :: Find(entities, n) == Some(o)
  }

  method OwnerOf(entities: seq<Entity>, names: seq<string>) returns (o: Option<Entity>)
    requires Unique(entities)
    ensures o.Some? ==> OwnedBy(entities, names, o.value)
    ensures o.None? ==> forall e :: !OwnedBy(entities, names, e)
  {
    hide Find, Unique;
    if names == [] { return None; }
    assert names[0] in names;
    o := Find(entities, names[0]);
    if o.None? { return; }
    for i := 0 to |names|
      invariant forall k | 0 <= k < i :: Find(entities, names[k]) == o
    {
      assert names[i] in names;
      var owner := Find(entities, names[i]);
      if owner.None? { return None; }
      if owner.value.entityId != o.value.entityId { return None; }
      FindFinds(entities, names[i]);
      FindFinds(entities, names[0]);
      SameId(entities, owner.value, o.value);
    }
  }

  lemma {:induction false} SameId(entities: seq<Entity>, a: Entity, b: Entity)
    requires Unique(entities) && a in entities && b in entities && a.entityId == b.entityId
    ensures a == b
  {
  }

  ghost predicate FirstWithId(groups: seq<Group>, groupId: string, i: nat) {
    i < |groups| && groups[i].groupId == groupId && forall k | 0 <= k < i :: groups[k].groupId != groupId
  }

  method FindGroup(groups: seq<Group>, groupId: string) returns (i: Option<nat>)
    ensures i.Some? ==> FirstWithId(groups, groupId, i.value)
    ensures i.None? ==> forall g | g in groups :: g.groupId != groupId
  {
    for k := 0 to |groups|
      invariant forall j | 0 <= j < k :: groups[j].groupId != groupId
    {
      if groups[k].groupId == groupId { return Some(k); }
    }
    return None;
  }

  /** What a split must be given: names to split off, all of the entity; and, where some game IDs are
      explained by no snapshot, a name to keep them with. */
  ghost predicate Splittable(g: Group, o: Entity, selected: seq<string>, keep: string) {
    && selected != [] && (forall n | n in selected :: n in o.names)
    && ((exists x :: IsExtra(g, o, x)) ==> keep in o.names)
  }

  lemma {:induction false} BothEmpty(a: seq<string>, b: seq<string>)
    requires forall n :: n in a <==> n in b
    ensures a == [] <==> b == []
  {
    if a != [] { assert a[0] in a; }
    if b != [] { assert b[0] in b; }
  }

  /** The names to split off and the extra game IDs, if the split is allowed. */
  method Choose(g: Group, o: Entity, names: seq<string>, requested: seq<string>, all: bool, keep: string)
    returns (r: Option<(seq<string>, seq<nat>)>)
    requires NoRepeats(names) && forall n :: n in names <==> n in o.names
    ensures r.Some? <==> Splittable(g, o, if all then o.names else requested, keep)
    ensures r.Some? ==> NoRepeats(r.value.0) && AreExtras(g, o, r.value.1)
    ensures r.Some? ==> forall n :: n in r.value.0 <==> n in if all then o.names else requested
  {
    hide AreExtras, IsExtra;
    var selected := names;
    if !all { selected := ReadUnique(requested); }
    var wanted := if all then o.names else requested;
    assert forall n :: n in selected <==> n in wanted;
    BothEmpty(selected, wanted);
    if selected == [] { return None; }
    if exists n :: n in selected && n !in names { return None; }
    var extra := FindExtras(g, o, names);
    ExtrasExist(g, o, extra);
    if extra != [] && keep !in names { return None; }
    r := Some((selected, extra));
  }

  /** Replace the entity by what remains of it and the entities restored. */
  method Divide(s: Library, i: nat, o: Entity, keep: string, names: seq<string>, selected: seq<string>, extra: seq<nat>, next: nat)
    returns (t: Library, ghost d: Division)
    requires i < |s.groups| && o in s.entities && NoRepeats(names) && forall n :: n in names <==> n in o.names
    requires NoRepeats(selected) && (forall n | n in selected :: n in o.names) && AreExtras(s.groups[i], o, extra)
    requires (exists x :: IsExtra(s.groups[i], o, x)) ==> keep in o.names
    ensures SplitsInto(s, t, i, o, d, next) && d.keep == keep && d.selected == selected
  {
    hide Takes, AreExtras, Available, Restores, Assigns, Others, Leaves, IsExtra;
    var g := s.groups[i];
    var remaining := Rest(names, selected);
    var p := Plan(s.entities, g, o, remaining != [], selected, next);
    var restored, given := RestoreNames(p, keep, extra);
    var left: seq<Entity> := [];
    if remaining != [] {
      var l := LeaveNames(g, o, keep, remaining, extra, restored);
      left := [l];
    }
    var kept := EraseEntity(s.entities, o.entityId);
    var groups := s.groups[..i] + s.groups[i + 1..];
    if |remaining| >= 2 { groups := groups + [g.(names := remaining)]; }
    t := Library(kept + left + restored, groups);
    d := Division(keep, selected, remaining, given, restored, left);
  }

  lemma {:induction false} NothingRemains(s: Library, t: Library, i: nat, o: Entity, d: Division, next: nat)
    requires SplitsInto(s, t, i, o, d, next) && forall n | n in o.names :: n in d.selected
    ensures d.remaining == []
  {
    hide Restores, Assigns, Others, Leaves, IsExtra;
    BothEmpty(d.remaining, []);
  }

  datatype Outcome = NotStored | Refused | Done(library: Library)

  /** What the command does: the first stored group with the ID decides which entity is divided. */
  ghost predicate SplitOutcome(s: Library, groupId: string, requested: seq<string>, all: bool, keep: string, next: nat,
    r: Outcome, i: nat, o: Entity, d: Division)
  {
    && (r.NotStored? <==> forall g | g in s.groups :: g.groupId != groupId)
    && (!r.NotStored? ==> FirstWithId(s.groups, groupId, i))
    && (r.Done? ==> OwnedBy(s.entities, s.groups[i].names, o) && SplitsInto(s, r.library, i, o, d, next) && d.keep == keep)
    && (r.Done? ==> forall n :: n in d.selected <==> n in if all then o.names else requested)
    && (r.Done? && all ==> d.remaining == [])
    && (!r.NotStored? ==> (r.Refused? <==> forall e | OwnedBy(s.entities, s.groups[i].names, e) ::
      !Splittable(s.groups[i], e, if all then e.names else requested, keep)))
  }

  /** Split names off the entity that a stored group covers; all names with `all`. It is refused when
      the group's names do not belong to one entity, or the names given do not fit. A group that is
      not stored divides no entity. */
  method Split(s: Library, groupId: string, requested: seq<string>, all: bool, keep: string, next: nat)
    returns (r: Outcome, ghost i: nat, ghost o: Entity, ghost d: Division)
    requires Unique(s.entities)
    ensures r.NotStored? <==> forall g | g in s.groups :: g.groupId != groupId
    ensures SplitOutcome(s, groupId, requested, all, keep, next, r, i, o, d)
  {
    hide Unique, OwnedBy, Splittable, SplitsInto, AreExtras, IsExtra;
    r, i, o, d := NotStored, 0, Entity(0, None, [], []), Division("", [], [], map[], [], []);
    var found := FindGroup(s.groups, groupId);
    if found.None? { return; }
    r, i := Refused, found.value;
    var g := s.groups[found.value];
    var names := ReadUnique(g.names);
    var owner := OwnerOf(s.entities, names);
    SameOwner(s.entities, g.names, names);
    if owner.None? { return; }
    o := owner.value;
    OwnerIsOne(s.entities, g.names, owner.value);
    names := AddAll(names, owner.value.names);
    var choice := Choose(g, owner.value, names, requested, all, keep);
    if choice.None? { return; }
    MaySplit(g, owner.value, if all then owner.value.names else requested, keep);
    var t, division := Divide(s, found.value, owner.value, keep, names, choice.value.0, choice.value.1, next);
    r, d := Done(t), division;
    if all { NothingRemains(s, t, found.value, owner.value, division, next); }
  }

  lemma {:induction false} MaySplit(g: Group, o: Entity, selected: seq<string>, keep: string)
    requires Splittable(g, o, selected, keep)
    ensures (forall n | n in selected :: n in o.names) && ((exists x :: IsExtra(g, o, x)) ==> keep in o.names)
  {
  }

  lemma {:induction false} ExtrasExist(g: Group, o: Entity, extra: seq<nat>)
    requires AreExtras(g, o, extra)
    ensures extra != [] <==> exists x :: IsExtra(g, o, x)
  {
    hide IsExtra;
    if extra != [] { assert extra[0] in extra && IsExtra(g, o, extra[0]); }
    if x :| IsExtra(g, o, x) { assert x in extra; }
  }

  lemma {:induction false} SameOwner(entities: seq<Entity>, a: seq<string>, b: seq<string>)
    requires forall n :: n in a <==> n in b
    ensures forall e :: OwnedBy(entities, a, e) <==> OwnedBy(entities, b, e)
  {
    hide Find;
    if a != [] { assert a[0] in b; }
    if b != [] { assert b[0] in a; }
  }

  /** There is at most one owner, it is an entity, and the names are among its own. */
  lemma {:induction false} OwnerIsOne(entities: seq<Entity>, names: seq<string>, o: Entity)
    requires OwnedBy(entities, names, o)
    ensures o in entities && forall n | n in names :: n in o.names
    ensures forall e | OwnedBy(entities, names, e) :: e == o
  {
    hide Find;
    assert names[0] in names;
    forall n | n in names ensures n in o.names && o in entities { FindFinds(entities, n); }
  }

  method Rest(names: seq<string>, selected: seq<string>) returns (remaining: seq<string>)
    requires NoRepeats(names)
    ensures NoRepeats(remaining) && forall n :: n in remaining <==> n in names && n !in selected
  {
    remaining := [];
    for i := 0 to |names|
      invariant NoRepeats(remaining) && forall n :: n in remaining <==> n in names[..i] && n !in selected
    {
      assert names[..i + 1] == names[..i] + [names[i]];
      if names[i] !in selected { remaining := remaining + [names[i]]; }
    }
    assert names[..|names|] == names;
  }
}
