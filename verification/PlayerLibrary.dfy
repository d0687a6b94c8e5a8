/** Players as entities with names and game IDs, and groups that remember how entities were
    before they were merged. */
module PlayerLibrary {
  import opened Options
  import opened Collections
  import opened Ordering

  datatype Entity = Entity(entityId: nat, cloudId: Option<string>, names: seq<string>, gameIds: seq<nat>)

  /** Which entity a name belonged to before the merge. */
  datatype Origin = Origin(entityId: Option<nat>, cloudId: Option<string>)

  /** The saved game IDs and origins are absent in groups that were never merged locally. */
  datatype Group = Group(groupId: string, names: seq<string>, before: Option<map<string, seq<nat>>>,
    origins: Option<map<string, Origin>>)
  {
    function Before(): map<string, seq<nat>> { if before.Some? then before.value else map[] }

    function Origins(): map<string, Origin> { if origins.Some? then origins.value else map[] }
  }

  datatype Library = Library(entities: seq<Entity>, groups: seq<Group>)

  /** What every command is sure of: its first new ID is above those of the stored entities. */
  ghost predicate Below(entities: seq<Entity>, next: nat) { forall e | e in entities :: e.entityId < next }

  // ---- Lists without repetition ----

  function AddUnique<T(==,!new)>(xs: seq<T>, x: T): (r: seq<T>)
    ensures forall y :: y in r <==> y in xs || y == x
    ensures NoRepeats(xs) ==> NoRepeats(r)
  {
    if x in xs then xs else xs + [x]
  }

  method AddAll<T(==,!new)>(xs: seq<T>, more: seq<T>) returns (r: seq<T>)
    ensures xs <= r && forall y :: y in r <==> y in xs || y in more
    ensures NoRepeats(xs) ==> NoRepeats(r)
    ensures (forall y | y in more :: y in xs) ==> r == xs
  {
    r := xs;
    for i := 0 to |more|
      invariant xs <= r && forall y :: y in r <==> y in xs || y in more[..i]
      invariant NoRepeats(xs) ==> NoRepeats(r)
      invariant (forall y | y in more :: y in xs) ==> r == xs
    {
      assert more[..i + 1] == more[..i] + [more[i]];
      r := AddUnique(r, more[i]);
    }
    assert more[..|more|] == more;
  }

  /** A list as it is read: later repetitions are dropped. */
  method ReadUnique<T(==,!new)>(xs: seq<T>) returns (r: seq<T>)
    ensures NoRepeats(r) && forall y :: y in r <==> y in xs
    ensures NoRepeats(xs) ==> r == xs
  {
    r := [];
    for i := 0 to |xs|
      invariant NoRepeats(r) && forall y :: y in r <==> y in xs[..i]
      invariant NoRepeats(xs) ==> r == xs[..i]
    {
      assert xs[..i + 1] == xs[..i] + [xs[i]];
      r := AddUnique(r, xs[i]);
    }
    assert xs[..|xs|] == xs;
  }

  // ---- Looking up ----

  function Find(entities: seq<Entity>, name: string): Option<Entity> {
    if entities == [] then None
    else if name in entities[0].names then Some(entities[0])
    else Find(entities[1..], name)
  }

  function GroupWith(groups: seq<Group>, name: string): Option<Group> {
    if groups == [] then None
    else if name in groups[0].names then Some(groups[0])
    else GroupWith(groups[1..], name)
  }

  lemma {:induction false} FindFinds(entities: seq<Entity>, name: string)
    ensures Find(entities, name).Some? ==>
      Find(entities, name).value in entities && name in Find(entities, name).value.names
    ensures Find(entities, name).None? ==> forall e | e in entities :: name !in e.names
  {
    if entities != [] && name !in entities[0].names { FindFinds(entities[1..], name); }
  }

  lemma {:induction false} GroupWithFinds(groups: seq<Group>, name: string)
    ensures GroupWith(groups, name).Some? ==>
      GroupWith(groups, name).value in groups && name in GroupWith(groups, name).value.names
    ensures GroupWith(groups, name).None? ==> forall g | g in groups :: name !in g.names
  {
    if groups != [] && name !in groups[0].names { GroupWithFinds(groups[1..], name); }
  }

  // ---- A library in order ----

  /** Names and entity IDs are unique, and every entity has a name. */
  ghost predicate Unique(entities: seq<Entity>) {
    && (forall e | e in entities :: e.names != [])
    && (forall e, f, n | e in entities && f in entities && n in e.names && n in f.names :: e == f)
    && (forall e, f | e in entities && f in entities && e.entityId == f.entityId :: e == f)
    && NoRepeats(entities)
  }

  lemma {:induction false} FindIs(entities: seq<Entity>, e: Entity, name: string)
    requires Unique(entities) && e in entities && name in e.names
    ensures Find(entities, name) == Some(e)
  {
    hide Find;
    FindFinds(entities, name);
  }

  ghost function SetOf<T>(xs: seq<T>): set<T> { set x | x in xs }

  /** The constituent a name comes from: what the entity was before any merge. */
  datatype Part = Part(entityId: Option<nat>, cloudId: Option<string>, gameIds: set<nat>)

  ghost function SavedPart(g: Group, name: string): Part
    requires name in g.Before() && name in g.Origins()
  {
    Part(g.Origins()[name].entityId, g.Origins()[name].cloudId, SetOf(g.Before()[name]))
  }

  ghost function OwnPart(e: Entity): Part { Part(Some(e.entityId), e.cloudId, SetOf(e.gameIds)) }

  /** Whether the group says of a name what it was before the merge. */
  predicate Saves(g: Group, name: string) { name in g.Before() && name in g.Origins() }

  ghost function Home(s: Library, name: string): Option<Part> {
    var g := GroupWith(s.groups, name);
    var e := Find(s.entities, name);
    if e.None? then None
    else if g.None? then Some(OwnPart(e.value))
    else if Saves(g.value, name) then Some(SavedPart(g.value, name))
    else None
  }

  /** What a group has saved about a name that exists is where the name comes from. */
  ghost predicate Truthful(s: Library, g: Group, n: string) {
    (n in g.Before() || n in g.Origins()) && Find(s.entities, n).Some? ==> Saves(g, n) && Home(s, n) == Some(SavedPart(g, n))
  }

  /** Groups are disjoint; each covers exactly the names of one entity and saves all of them, and
      whatever it has saved is true. */
  ghost predicate GroupsFit(s: Library) {
    && (forall g, h, n | g in s.groups && h in s.groups && n in g.names && n in h.names :: g == h)
    && (forall g, n | g in s.groups && n in g.names :: Saves(g, n))
    && (forall g, e, n | g in s.groups && e in s.entities && n in g.names && n in e.names ::
      SetOf(g.names) == SetOf(e.names))
    && (forall g, n | g in s.groups && n in g.names :: Find(s.entities, n).Some?)
    && (forall g, n | g in s.groups :: Truthful(s, g, n))
    && NoRepeats(s.groups)
  }

  ghost predicate Grouped(s: Library) { Unique(s.entities) && GroupsFit(s) }

  /** Constituents are told apart by their entity IDs. */
  ghost predicate PartsFit(s: Library) {
    && (forall n | Home(s, n).Some? :: Home(s, n).value.entityId.Some?)
    && (forall n, m | Home(s, n).Some? && Home(s, m).Some? &&
      Home(s, n).value.entityId == Home(s, m).value.entityId ::
      Home(s, n) == Home(s, m) && Find(s.entities, n) == Find(s.entities, m))
  }

  ghost predicate Within(s: Library, e: Entity, id: nat) {
    exists n :: n in e.names && Home(s, n).Some? && id in Home(s, n).value.gameIds
  }

  ghost predicate NamesIt(s: Library, e: Entity, n: string) {
    n in e.names && Home(s, n).Some? && Home(s, n).value.entityId == Some(e.entityId)
  }

  /** An entity has the ID of one of its constituents, and the game IDs of all of them. */
  ghost predicate EntitiesFit(s: Library) {
    && (forall e | e in s.entities :: exists n :: NamesIt(s, e, n))
    && (forall e, id | e in s.entities :: id in e.gameIds <==> Within(s, e, id))
  }

  ghost predicate InOrder(s: Library) { Grouped(s) && PartsFit(s) && EntitiesFit(s) }

  /** The library still knows every constituent as it was. */
  ghost predicate SameHomes(s: Library, t: Library) { forall n :: Home(s, n) == Home(t, n) }
}
