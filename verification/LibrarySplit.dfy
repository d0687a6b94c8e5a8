/** Splitting a merged entity. */
module LibrarySplit {
  import opened Options
  import opened Ordering
  import opened Collections
  import opened PlayerLibrary
  import opened LibraryJoin
  import opened LibraryMerge
  import opened LibraryMerging

  /** A game ID of the entity that no saved snapshot of its names explains. */
  ghost predicate IsExtra(g: Group, o: Entity, x: nat) {
    x in o.gameIds && forall n | n in o.names && n in g.Before() :: x !in g.Before()[n]
  }

  /** The game IDs a name takes with it: its snapshot, or, for a name added later, all but the extra
      ones; the extra ones go with the name chosen to keep them. */
  ghost predicate Takes(g: Group, o: Entity, keep: string, n: string, x: nat) {
    (if n in g.Before() then x in g.Before()[n] else x in o.gameIds && !IsExtra(g, o, x)) ||
    (n == keep && IsExtra(g, o, x))
  }

  ghost predicate TakesOne(g: Group, o: Entity, keep: string, names: seq<string>, x: nat) {
    exists n :: n in names && Takes(g, o, keep, n, x)
  }

  /** An entity made of some of the names has exactly the game IDs that they take with them. */
  ghost predicate HasItsGames(g: Group, o: Entity, keep: string, e: Entity) {
    forall x :: x in e.gameIds <==> TakesOne(g, o, keep, e.names, x)
  }

  function SourceOf(g: Group, n: string): Option<nat> {
    if n in g.Origins() then g.Origins()[n].entityId else None
  }

  function CloudOf(g: Group, n: string): Option<string> {
    if n in g.Origins() then g.Origins()[n].cloudId else None
  }

  predicate TakenElsewhere(entities: seq<Entity>, o: Entity, id: nat) {
    exists e :: e in entities && e.entityId == id && e.entityId != o.entityId
  }

  /** A saved ID can be given back: no other entity has it, and the part left behind does not keep it. */
  predicate Available(entities: seq<Entity>, o: Entity, someRemain: bool, id: nat) {
    !(someRemain && id == o.entityId) && !TakenElsewhere(entities, o, id)
  }

  // ---- The IDs given ----

  /** What the IDs given to the selected names of an entity depend on. */
  datatype Plan = Plan(entities: seq<Entity>, g: Group, o: Entity, someRemain: bool, selected: seq<string>, next: nat)

  /** Where the first name of a source stands. */
  function FirstOf(g: Group, selected: seq<string>, source: nat): (k: nat)
    ensures k <= |selected| && forall j | 0 <= j < k :: SourceOf(g, selected[j]) != Some(source)
    ensures k < |selected| ==> SourceOf(g, selected[k]) == Some(source)
  {
    if selected == [] || SourceOf(g, selected[0]) == Some(source) then 0 else 1 + FirstOf(g, selected[1..], source)
  }

  predicate Free(p: Plan, source: nat) { Available(p.entities, p.o, p.someRemain, source) }

  /** The k-th name is the first of a source whose ID is not available. */
  predicate NeedsNew(p: Plan, k: nat)
    requires k < |p.selected|
  {
    var source := SourceOf(p.g, p.selected[k]);
    source.Some? && FirstOf(p.g, p.selected, source.value) == k && !Free(p, source.value)
  }

  /** How many numbers the first k names use up: one for every name, and one more for a new ID. */
  function UsedUp(p: Plan, k: nat): nat
    requires k <= |p.selected|
  {
    if k == 0 then 0 else UsedUp(p, k - 1) + if NeedsNew(p, k - 1) then 2 else 1
  }

  /** The ID that all names of a source are given: its own if it is available. */
  function IdOfSource(p: Plan, source: nat): nat {
    if Free(p, source) then source else p.next + UsedUp(p, FirstOf(p.g, p.selected, source)) + 1
  }

  function IdFor(p: Plan, k: nat): nat
    requires k < |p.selected|
  {
    var source := SourceOf(p.g, p.selected[k]);
    if source.None? then p.next + UsedUp(p, k) else IdOfSource(p, source.value)
  }

  /** The k-th name gets its saved ID back. */
  predicate KeepsId(p: Plan, k: nat)
    requires k < |p.selected|
  {
    var source := SourceOf(p.g, p.selected[k]);
    source.Some? && Free(p, source.value)
  }

  ghost predicate Assigns(p: Plan, given: map<string, nat>) {
    && NoRepeats(p.selected)
    && (forall n :: n in given <==> n in p.selected)
    && (forall k | 0 <= k < |p.selected| :: given[p.selected[k]] == IdFor(p, k))
  }

  /** The entities restored: one for each ID given, with the names it was given to, their game IDs,
      and the cloud ID saved for its first name. */
  ghost predicate Restores(g: Group, o: Entity, keep: string, selected: seq<string>, given: map<string, nat>,
    restored: seq<Entity>)
  {
    && (forall n :: n in selected <==> exists e :: e in restored && n in e.names)
    && (forall e, n | e in restored && n in e.names :: n in given && given[n] == e.entityId)
    && (forall e | e in restored :: e.names != [] && NoRepeats(e.names) && e.cloudId == CloudOf(g, e.names[0]))
    && (forall e | e in restored :: HasItsGames(g, o, keep, e))
    && (forall i, j | 0 <= i < j < |restored| :: restored[i].entityId != restored[j].entityId)
  }

  /** The selected names that were given an ID, in the order selected. */
  function WithId(selected: seq<string>, given: map<string, nat>, id: nat): seq<string> {
    if selected == [] then []
    else
      var front, last := WithId(selected[..|selected| - 1], given, id), selected[|selected| - 1];
      if last in given && given[last] == id then front + [last] else front
  }

  ghost predicate NamesInOrder(selected: seq<string>, given: map<string, nat>, restored: seq<Entity>) {
    forall e | e in restored :: e.names == WithId(selected, given, e.entityId)
  }

  /** What is left of the entity when some names stay: its ID, their game IDs, and the first cloud ID
      saved among them unless it went with a restored entity. */
  ghost predicate Leaves(g: Group, o: Entity, keep: string, remaining: seq<string>, restored: seq<Entity>, left: Entity) {
    && left.entityId == o.entityId && left.names == remaining
    && HasItsGames(g, o, keep, left)
    && left.cloudId == LeftCloud(g, remaining, restored)
  }

  function FirstCloud(g: Group, names: seq<string>): Option<string> {
    if names == [] then None
    else if CloudOf(g, names[0]).Some? then CloudOf(g, names[0])
    else FirstCloud(g, names[1..])
  }

  function LeftCloud(g: Group, remaining: seq<string>, restored: seq<Entity>): Option<string> {
    var cloud := FirstCloud(g, remaining);
    if cloud.Some? && exists e :: e in restored && e.cloudId == cloud then None else cloud
  }

  /** The entities other than the one that is split. */
  function Others(entities: seq<Entity>, id: nat): seq<Entity> {
    if entities == [] then []
    else if entities[0].entityId == id then Others(entities[1..], id)
    else [entities[0]] + Others(entities[1..], id)
  }

  /** The first group with this ID goes; it comes back at the end, with the names that remain, if
      there are two of them. */
  function GroupsAfter(groups: seq<Group>, i: nat, remaining: seq<string>): seq<Group>
    requires i < |groups|
  {
    groups[..i] + groups[i + 1..] + if |remaining| >= 2 then [groups[i].(names := remaining)] else []
  }

  /** The parts of one split. */
  datatype Division = Division(keep: string, selected: seq<string>, remaining: seq<string>, given: map<string, nat>,
    restored: seq<Entity>, left: seq<Entity>)

  function PlanOf(s: Library, i: nat, o: Entity, d: Division, next: nat): Plan
    requires i < |s.groups|
  {
    Plan(s.entities, s.groups[i], o, d.remaining != [], d.selected, next)
  }

  /** One split turns s into t: the entity o, which group i covers, loses the selected names. */
  ghost predicate SplitsInto(s: Library, t: Library, i: nat, o: Entity, d: Division, next: nat) {
    && i < |s.groups| && o in s.entities
    && (forall n :: n in o.names <==> n in d.selected || n in d.remaining)
    && (forall n :: !(n in d.selected && n in d.remaining)) && NoRepeats(d.remaining)
    && ((exists x :: IsExtra(s.groups[i], o, x)) ==> d.keep in o.names)
    && Assigns(PlanOf(s, i, o, d, next), d.given)
    && Restores(s.groups[i], o, d.keep, d.selected, d.given, d.restored)
    && NamesInOrder(d.selected, d.given, d.restored)
    && |d.left| == (if d.remaining == [] then 0 else 1)
    && (d.remaining != [] ==> Leaves(s.groups[i], o, d.keep, d.remaining, d.restored, d.left[0]))
    && t.entities == Others(s.entities, o.entityId) + d.left + d.restored
    && t.groups == GroupsAfter(s.groups, i, d.remaining)
  }

  ghost function Made(d: Division): seq<Entity> { d.left + d.restored }

  // ---- Nothing is lost ----

  lemma {:induction false} RestoredOnce(g: Group, o: Entity, d: Division, e: Entity, f: Entity, n: string)
    requires Restores(g, o, d.keep, d.selected, d.given, d.restored)
    requires e in d.restored && f in d.restored
    requires (n in e.names && n in f.names) || e.entityId == f.entityId
    ensures e == f
  {
    hide HasItsGames, CloudOf;
    if n in e.names && n in f.names { assert d.given[n] == e.entityId && d.given[n] == f.entityId; }
    var a :| 0 <= a < |d.restored| && d.restored[a] == e;
    var b :| 0 <= b < |d.restored| && d.restored[b] == f;
  }

  lemma {:induction false} WithIdMembers(selected: seq<string>, given: map<string, nat>, id: nat)
    ensures forall n :: n in WithId(selected, given, id) <==> n in selected && n in given && given[n] == id
  {
    if selected != [] {
      WithIdMembers(selected[..|selected| - 1], given, id);
      assert selected == selected[..|selected| - 1] + [selected[|selected| - 1]];
    }
  }

  lemma {:induction false} WithIdSame(selected: seq<string>, a: map<string, nat>, b: map<string, nat>, id: nat)
    requires forall n | n in selected :: (n in a <==> n in b) && (n in a ==> a[n] == b[n])
    ensures WithId(selected, a, id) == WithId(selected, b, id)
  {
    if selected != [] {
      assert selected[|selected| - 1] in selected;
      WithIdSame(selected[..|selected| - 1], a, b, id);
    }
  }

  lemma {:induction false} WithIdGrows(done: seq<string>, given: map<string, nat>, n: string, given': nat, id: nat)
    requires n !in done
    ensures WithId(done + [n], given[n := given'], id) == WithId(done, given, id) + if given' == id then [n] else []
  {
    assert (done + [n])[..|done|] == done;
    WithIdSame(done, given, given[n := given'], id);
  }

  lemma {:induction false} MadeOfNames(s: Library, t: Library, i: nat, o: Entity, d: Division, next: nat, n: string)
    requires SplitsInto(s, t, i, o, d, next)
    ensures n in o.names <==> exists e :: e in Made(d) && n in e.names
    ensures n in d.selected <==> exists e :: e in d.restored && n in e.names
    ensures forall e, f | e in Made(d) && f in Made(d) && n in e.names && n in f.names :: e == f
  {
    hide Assigns, HasItsGames, LeftCloud, IsExtra, Others, GroupsAfter;
    forall e, f | e in d.restored && f in d.restored && n in e.names && n in f.names ensures e == f {
      RestoredOnce(s.groups[i], o, d, e, f, n);
    }
    if n in d.remaining { assert d.left[0] in Made(d); }
    if n in d.selected {
      var e :| e in d.restored && n in e.names;
      assert e in Made(d);
    }
  }

  /** Every game ID of the entity is in one of the entities made of it. */
  lemma {:induction false} SplitKeepsGames(s: Library, t: Library, i: nat, o: Entity, d: Division, next: nat, x: nat)
    requires SplitsInto(s, t, i, o, d, next) && x in o.gameIds
    ensures exists e :: e in Made(d) && x in e.gameIds
  {
    hide Assigns, LeftCloud, IsExtra, HasItsGames, GroupsAfter, Others;
    var g := s.groups[i];
    var n := SomeoneTakes(g, o, d.keep, x);
    MadeOfNames(s, t, i, o, d, next, n);
    var e :| e in Made(d) && n in e.names;
    MadeHasItsGames(s, t, i, o, d, next, e);
    GetsWhatItTakes(g, o, d.keep, e, n, x);
  }

  lemma {:induction false} GetsWhatItTakes(g: Group, o: Entity, keep: string, e: Entity, n: string, x: nat)
    requires HasItsGames(g, o, keep, e) && n in e.names && Takes(g, o, keep, n, x)
    ensures x in e.gameIds
  {
    assert TakesOne(g, o, keep, e.names, x);
  }

  lemma {:induction false} MadeHasItsGames(s: Library, t: Library, i: nat, o: Entity, d: Division, next: nat, e: Entity)
    requires SplitsInto(s, t, i, o, d, next) && e in Made(d)
    ensures HasItsGames(s.groups[i], o, d.keep, e)
  {
    hide Assigns, LeftCloud, IsExtra, HasItsGames, GroupsAfter, Others;
  }

  lemma {:induction false} SomeoneTakes(g: Group, o: Entity, keep: string, x: nat) returns (n: string)
    requires x in o.gameIds && ((exists y :: IsExtra(g, o, y)) ==> keep in o.names)
    ensures n in o.names && Takes(g, o, keep, n, x)
  {
    if IsExtra(g, o, x) { n := keep; }
    else { n :| n in o.names && n in g.Before() && x in g.Before()[n]; }
  }

  // ---- New IDs ----

  lemma {:induction false} UsedUpGrows(p: Plan, j: nat, k: nat)
    requires j < k <= |p.selected|
    ensures UsedUp(p, j) + (if NeedsNew(p, j) then 2 else 1) <= UsedUp(p, k)
  {
    hide NeedsNew;
    if j < k - 1 { UsedUpGrows(p, j, k - 1); }
  }

  /** Where the new ID of a name was issued. */
  function SlotOf(p: Plan, k: nat): (slot: nat)
    requires k < |p.selected|
    ensures slot <= k && SourceOf(p.g, p.selected[slot]) == SourceOf(p.g, p.selected[k])
  {
    var source := SourceOf(p.g, p.selected[k]);
    if source.None? then k else FirstOf(p.g, p.selected, source.value)
  }

  lemma {:induction false} NewIdAtSlot(p: Plan, k: nat)
    requires k < |p.selected| && !KeepsId(p, k)
    ensures var slot, source := SlotOf(p, k), SourceOf(p.g, p.selected[k]);
      && IdFor(p, k) == p.next + UsedUp(p, slot) + (if source.None? then 0 else 1)
      && (source.Some? ==> NeedsNew(p, slot))
  {
    hide SourceOf;
  }

  /** No new ID is issued twice, but to the names of one source. */
  lemma {:induction false} NewIdsDiffer(p: Plan, j: nat, k: nat)
    requires j < |p.selected| && k < |p.selected| && !KeepsId(p, j) && !KeepsId(p, k) && IdFor(p, j) == IdFor(p, k)
    ensures j == k || (SourceOf(p.g, p.selected[j]).Some? && SourceOf(p.g, p.selected[j]) == SourceOf(p.g, p.selected[k]))
  {
    hide SourceOf, NeedsNew, KeepsId, IdFor;
    NewIdAtSlot(p, j);
    NewIdAtSlot(p, k);
    var a, b := SlotOf(p, j), SlotOf(p, k);
    if a < b { UsedUpGrows(p, a, b); }
    if b < a { UsedUpGrows(p, b, a); }
  }

  lemma {:induction false} NewIdIsNew(p: Plan, k: nat)
    requires k < |p.selected| && !KeepsId(p, k)
    ensures IdFor(p, k) >= p.next
  {
    hide SourceOf, Available;
  }

  lemma {:induction false} GivenTo(p: Plan, given: map<string, nat>, n: string) returns (k: nat)
    requires Assigns(p, given) && n in p.selected
    ensures k < |p.selected| && p.selected[k] == n && given[n] == IdFor(p, k)
  {
    hide IdFor;
    k :| 0 <= k < |p.selected| && p.selected[k] == n;
  }

  // ---- The whole library ----

  lemma {:induction false} OthersAre(entities: seq<Entity>, id: nat)
    ensures forall e :: e in Others(entities, id) <==> e in entities && e.entityId != id
    ensures NoRepeats(entities) ==> NoRepeats(Others(entities, id))
  {
    if entities != [] {
      OthersAre(entities[1..], id);
      assert entities == [entities[0]] + entities[1..];
      assert entities[0] in entities[1..] ==> !NoRepeats(entities) by {
        if entities[0] in entities[1..] {
          var k :| 0 < k < |entities| && entities[k] == entities[0];
        }
      }
    }
  }

  /** What t holds: the other entities and those made of o. */
  lemma {:induction false} SplitParts(s: Library, t: Library, i: nat, o: Entity, d: Division, next: nat)
    requires SplitsInto(s, t, i, o, d, next)
    ensures forall e :: e in t.entities <==> (e in s.entities && e.entityId != o.entityId) || e in Made(d)
  {
    hide Assigns, Restores, LeftCloud, IsExtra, Leaves, Others;
    OthersAre(s.entities, o.entityId);
  }

  /** A restored entity has an ID that no other entity of the library has, nor the part left behind. */
  lemma {:induction false} RestoredIdIsFree(s: Library, t: Library, i: nat, o: Entity, d: Division, next: nat, e: Entity)
    requires Below(s.entities, next) && SplitsInto(s, t, i, o, d, next) && e in d.restored
    ensures !TakenElsewhere(s.entities, o, e.entityId)
    ensures d.remaining != [] ==> e.entityId != o.entityId
  {
    hide HasItsGames, LeftCloud, IsExtra, Others, GroupsAfter, Leaves, SourceOf, UsedUp;
    var p, n := PlanOf(s, i, o, d, next), e.names[0];
    assert n in e.names;
    assert d.given[n] == e.entityId;
    var k := GivenTo(p, d.given, n);
    if !KeepsId(p, k) { NewIdIsNew(p, k); }
  }

  lemma {:induction false} MadeApart(s: Library, t: Library, i: nat, o: Entity, d: Division, next: nat, e: Entity, f: Entity)
    requires Unique(s.entities) && Below(s.entities, next) && SplitsInto(s, t, i, o, d, next)
    requires e in Made(d) && f in s.entities && f.entityId != o.entityId
    ensures e.entityId != f.entityId && forall n | n in e.names :: n !in f.names
  {
    hide HasItsGames, LeftCloud, IsExtra, Others, GroupsAfter, Assigns;
    if e in d.restored { RestoredIdIsFree(s, t, i, o, d, next, e); }
    forall n | n in e.names ensures n in o.names { MadeOfNames(s, t, i, o, d, next, n); }
  }

  lemma {:induction false} MadeOnce(s: Library, t: Library, i: nat, o: Entity, d: Division, next: nat, e: Entity, f: Entity)
    requires Below(s.entities, next) && SplitsInto(s, t, i, o, d, next)
    requires e in Made(d) && f in Made(d) && e.entityId == f.entityId
    ensures e == f
  {
    hide HasItsGames, LeftCloud, IsExtra, Others, GroupsAfter, Assigns;
    if e in d.restored { RestoredIdIsFree(s, t, i, o, d, next, e); }
    if f in d.restored { RestoredIdIsFree(s, t, i, o, d, next, f); }
    if e in d.restored && f in d.restored { RestoredOnce(s.groups[i], o, d, e, f, ""); }
  }

  lemma {:induction false} MadeNoRepeats(s: Library, t: Library, i: nat, o: Entity, d: Division, next: nat)
    requires Below(s.entities, next) && SplitsInto(s, t, i, o, d, next)
    ensures NoRepeats(Made(d)) && forall e | e in Made(d) :: e.names != []
  {
    hide HasItsGames, LeftCloud, IsExtra, Others, GroupsAfter, Assigns;
    forall e | e in d.restored && d.remaining != [] ensures e.entityId != o.entityId {
      RestoredIdIsFree(s, t, i, o, d, next, e);
    }
  }

  lemma {:induction false} ConcatNoRepeats<T>(a: seq<T>, b: seq<T>)
    requires NoRepeats(a) && NoRepeats(b) && forall x | x in a :: x !in b
    ensures NoRepeats(a + b)
  {
    var all := a + b;
    forall i, j | 0 <= i < j < |all| ensures all[i] != all[j] {
      if i < |a| <= j { assert all[i] in a && all[j] == b[j - |a|]; }
    }
  }

  /** After any split names and entity IDs are unique in the whole library. */
  lemma {:induction false} SplitKeepsUnique(s: Library, t: Library, i: nat, o: Entity, d: Division, next: nat)
    requires Unique(s.entities) && Below(s.entities, next) && SplitsInto(s, t, i, o, d, next)
    ensures Unique(t.entities)
  {
    hide Restores, Assigns, Leaves, GroupsAfter, IsExtra, Others;
    SplitParts(s, t, i, o, d, next);
    MadeNoRepeats(s, t, i, o, d, next);
    OthersAre(s.entities, o.entityId);
    forall e, f | e in Made(d) && f in s.entities && f.entityId != o.entityId
      ensures e.entityId != f.entityId && forall n | n in e.names :: n !in f.names
    {
      MadeApart(s, t, i, o, d, next, e, f);
    }
    forall e, f | e in Made(d) && f in Made(d) && e.entityId == f.entityId ensures e == f { MadeOnce(s, t, i, o, d, next, e, f); }
    forall e, f, n | e in Made(d) && f in Made(d) && n in e.names && n in f.names ensures e == f {
      MadeOfNames(s, t, i, o, d, next, n);
    }
    ConcatNoRepeats(Others(s.entities, o.entityId), Made(d));
    assert t.entities == Others(s.entities, o.entityId) + Made(d);
  }

  /** After any split, of some names or all, every name of the library is in exactly one entity: a
      name of the divided entity in one made of it, any other where it was. */
  lemma {:induction false} SplitKeepsNames(s: Library, t: Library, i: nat, o: Entity, d: Division, next: nat, n: string)
    requires Unique(s.entities) && Below(s.entities, next) && SplitsInto(s, t, i, o, d, next)
    ensures Unique(t.entities)
    ensures n !in o.names ==> Find(t.entities, n) == Find(s.entities, n)
    ensures n in o.names ==> Find(t.entities, n).Some? && Find(t.entities, n).value in Made(d)
    ensures n in d.selected ==> Find(t.entities, n).Some? && Find(t.entities, n).value in d.restored
  {
    hide Find, Restores, Assigns, Leaves, GroupsAfter, IsExtra, Others, Unique;
    SplitKeepsUnique(s, t, i, o, d, next);
    SplitParts(s, t, i, o, d, next);
    MadeOfNames(s, t, i, o, d, next, n);
    FindFinds(t.entities, n);
    FindFinds(s.entities, n);
    if n in d.selected {
      var e :| e in d.restored && n in e.names;
      FindIs(t.entities, e, n);
    } else if n in o.names {
      var e :| e in Made(d) && n in e.names;
      FindIs(t.entities, e, n);
    } else if Find(s.entities, n).Some? {
      var e := Find(s.entities, n).value;
      OtherOwner(s.entities, o, e, n);
      FindIs(t.entities, e, n);
    }
  }

  lemma {:induction false} OtherOwner(entities: seq<Entity>, o: Entity, e: Entity, n: string)
    requires Unique(entities) && o in entities && e in entities && n in e.names && n !in o.names
    ensures e.entityId != o.entityId
  {}

  // ---- Names of different sources ----

  ghost predicate Together(d: Division, n: string, m: string) {
    exists e :: e in d.restored && n in e.names && m in e.names
  }

  predicate Unrelated(g: Group, n: string, m: string) {
    n != m && (SourceOf(g, n).None? || SourceOf(g, n) != SourceOf(g, m))
  }

  /** The new ID issued to the k-th name is the saved ID that the j-th name gets back. */
  predicate Collides(p: Plan, j: nat, k: nat) {
    && j < |p.selected| && k < |p.selected| && KeepsId(p, j) && !KeepsId(p, k)
    && SourceOf(p.g, p.selected[j]) == Some(IdFor(p, k))
  }

  lemma {:induction false} TogetherByGiven(s: Library, t: Library, i: nat, o: Entity, d: Division, next: nat, n: string, m: string)
    requires SplitsInto(s, t, i, o, d, next) && n in d.selected && m in d.selected
    ensures n in d.given && m in d.given && (Together(d, n, m) <==> d.given[n] == d.given[m])
  {
    hide HasItsGames, LeftCloud, IsExtra, Others, GroupsAfter, Leaves, IdFor;
    var e :| e in d.restored && n in e.names;
    var f :| f in d.restored && m in f.names;
    if d.given[n] == d.given[m] {
      RestoredOnce(s.groups[i], o, d, e, f, "");
      assert n in e.names && m in e.names;
    }
  }

  lemma {:induction false} SameIdCollides(p: Plan, j: nat, k: nat)
    requires NoRepeats(p.selected) && j < |p.selected| && k < |p.selected|
    requires Unrelated(p.g, p.selected[j], p.selected[k]) && IdFor(p, j) == IdFor(p, k)
    ensures Collides(p, j, k) || Collides(p, k, j)
  {
    hide SourceOf, UsedUp, NeedsNew;
    if !KeepsId(p, j) && !KeepsId(p, k) { NewIdsDiffer(p, j, k); }
  }

  lemma {:induction false} CollidingComeTogether(s: Library, t: Library, i: nat, o: Entity, d: Division, next: nat, j: nat, k: nat)
    requires SplitsInto(s, t, i, o, d, next) && Collides(PlanOf(s, i, o, d, next), j, k)
    ensures Unrelated(s.groups[i], d.selected[j], d.selected[k]) && Together(d, d.selected[j], d.selected[k])
  {
    hide HasItsGames, LeftCloud, IsExtra, Others, GroupsAfter, Leaves, Restores, UsedUp, SourceOf;
    var n, m := d.selected[j], d.selected[k];
    TogetherByGiven(s, t, i, o, d, next, n, m);
  }

  /** Names of different sources come back in different entities exactly when no new ID issued to one
      selected name is the saved ID that another gets back. */
  lemma {:induction false} SourcesComeBackApart(s: Library, t: Library, i: nat, o: Entity, d: Division, next: nat)
    requires i < |s.groups| && SplitsInto(s, t, i, o, d, next)
    ensures (forall n, m | n in d.selected && m in d.selected && Unrelated(s.groups[i], n, m) :: !Together(d, n, m)) <==>
      (forall j: nat, k: nat :: !Collides(PlanOf(s, i, o, d, next), j, k))
  {
    hide SplitsInto, Collides, Together, Unrelated, Assigns, IdFor;
    var p := PlanOf(s, i, o, d, next);
    if j: nat, k: nat :| Collides(p, j, k) {
      CollidingComeTogether(s, t, i, o, d, next, j, k);
      CollidingSelected(p, j, k);
    }
    forall n, m | n in d.selected && m in d.selected && Unrelated(s.groups[i], n, m) && Together(d, n, m)
      ensures exists j: nat, k: nat :: Collides(p, j, k)
    {
      ApartByGiven(s, t, i, o, d, next, n, m);
    }
  }

  lemma {:induction false} CollidingSelected(p: Plan, j: nat, k: nat)
    requires Collides(p, j, k)
    ensures j < |p.selected| && k < |p.selected| && p.selected[j] in p.selected && p.selected[k] in p.selected
  {
    hide IdFor, KeepsId;
  }

  lemma {:induction false} ApartByGiven(s: Library, t: Library, i: nat, o: Entity, d: Division, next: nat, n: string, m: string)
    requires SplitsInto(s, t, i, o, d, next) && n in d.selected && m in d.selected
    requires Unrelated(s.groups[i], n, m) && Together(d, n, m)
    ensures exists j: nat, k: nat :: Collides(PlanOf(s, i, o, d, next), j, k)
  {
    hide Restores, Leaves, LeftCloud, IsExtra, Others, GroupsAfter, Collides, Together, Unrelated, IdFor;
    var p := PlanOf(s, i, o, d, next);
    TogetherByGiven(s, t, i, o, d, next, n, m);
    var j := GivenTo(p, d.given, n);
    var k := GivenTo(p, d.given, m);
    SameIdCollides(p, j, k);
  }

  /** A first new ID above all saved ones is enough. */
  lemma {:induction false} NextAboveSavedIsEnough(s: Library, t: Library, i: nat, o: Entity, d: Division, next: nat, n: string, m: string)
    requires i < |s.groups| && SplitsInto(s, t, i, o, d, next) && n in d.selected && m in d.selected && Unrelated(s.groups[i], n, m)
    requires forall x | x in d.selected && SourceOf(s.groups[i], x).Some? :: SourceOf(s.groups[i], x).value < next
    ensures !Together(d, n, m)
  {
    hide SplitsInto, SourceOf, Together, Unrelated, IdFor;
    var p := PlanOf(s, i, o, d, next);
    forall j: nat, k: nat ensures !Collides(p, j, k) {
      if j < |p.selected| && k < |p.selected| && !KeepsId(p, k) {
        NewIdIsNew(p, k);
        assert p.selected[j] in d.selected;
      }
    }
    SourcesComeBackApart(s, t, i, o, d, next);
  }
}
