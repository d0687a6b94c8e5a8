/** Cloud IDs of rows that met several entities. They wait until the automatic pass has shown
    whether these are one player; then the entity and one of its constituents get the ID. */
module LibraryDeferred {
  import opened Options
  import opened Collections
  import opened Ordering
  import opened PlayerLibrary
  import opened LibraryJoin

  /** A row with its cloud ID, which no entity had. */
  datatype Late = Late(names: seq<string>, cloudId: string)

  /** A constituent: the group that saved it and the entity ID it had. */
  datatype Source = Source(group: nat, entityId: nat)

  predicate Covers(e: Entity, row: Late) { forall n | n in row.names :: n in e.names }

  // ---- Looking up ----

  function Least(names: seq<string>): (r: string)
    requires names != []
    ensures r in names
  {
    if |names| == 1 then names[0] else
      var rest := Least(names[1..]);
      if TextLe(names[0], rest) then names[0] else rest
  }

  lemma {:induction false} LeastIsLeast(names: seq<string>, n: string)
    requires n in names
    ensures TextLe(Least(names), n)
  {
    hide TextLe;
    TextOrders();
    if |names| > 1 && n in names[1..] { LeastIsLeast(names[1..], n); }
  }

  function OwnerAt(entities: seq<Entity>, n: string): (k: nat)
    ensures k <= |entities| && forall i | 0 <= i < k :: n !in entities[i].names
    ensures k < |entities| ==> n in entities[k].names
  {
    if entities == [] then 0
    else if n in entities[0].names then 0
    else
      assert forall i | 0 < i < |entities| :: entities[1..][i - 1] == entities[i];
      1 + OwnerAt(entities[1..], n)
  }

  function GroupAt(groups: seq<Group>, n: string): (k: nat)
    ensures k <= |groups| && forall i | 0 <= i < k :: n !in groups[i].names
    ensures k < |groups| ==> n in groups[k].names
  {
    if groups == [] then 0
    else if n in groups[0].names then 0
    else
      assert forall i | 0 < i < |groups| :: groups[1..][i - 1] == groups[i];
      1 + GroupAt(groups[1..], n)
  }

  lemma {:induction false} FindAt(entities: seq<Entity>, n: string)
    ensures Find(entities, n) == if OwnerAt(entities, n) < |entities| then Some(entities[OwnerAt(entities, n)]) else None
  {
    if entities != [] && n !in entities[0].names { FindAt(entities[1..], n); }
  }

  lemma {:induction false} GroupIsAt(groups: seq<Group>, n: string)
    ensures GroupWith(groups, n) == if GroupAt(groups, n) < |groups| then Some(groups[GroupAt(groups, n)]) else None
  {
    if groups != [] && n !in groups[0].names { GroupIsAt(groups[1..], n); }
  }

  function SourceOf(groups: seq<Group>, n: string): Option<Source> {
    var i := GroupAt(groups, n);
    if i < |groups| && n in groups[i].Origins() && groups[i].Origins()[n].entityId.Some?
    then Some(Source(i, groups[i].Origins()[n].entityId.value)) else None
  }

  // ---- What is assigned ----

  /** All names of the row are in one entity now. */
  ghost predicate Unified(entities: seq<Entity>, row: Late) { exists e :: e in entities && Covers(e, row) }

  /** The row's ID goes to the constituent from which the row's least name comes. */
  ghost predicate Claims(t: Library, row: Late, source: Source) {
    row.names != [] && Unified(t.entities, row) && SourceOf(t.groups, Least(row.names)) == Some(source)
  }

  ghost predicate Unsourced(t: Library, row: Late) {
    row.names != [] && Unified(t.entities, row) && SourceOf(t.groups, Least(row.names)).None?
  }

  ghost predicate Disagree(t: Library, a: Late, b: Late) {
    a.cloudId != b.cloudId && exists source :: Claims(t, a, source) && Claims(t, b, source)
  }

  ghost predicate Assigned(t: Library, rows: seq<Late>, given: map<Source, string>) {
    && (forall source | source in given :: exists row :: row in rows && Claims(t, row, source) && row.cloudId == given[source])
    && (forall row, source | row in rows && Claims(t, row, source) :: source in given && given[source] == row.cloudId)
  }

  /** The ID of the first row that the entity covers. */
  function CloudFor(e: Entity, rows: seq<Late>): Option<string> {
    if rows == [] then None else
      var last := |rows| - 1;
      var earlier := CloudFor(e, rows[..last]);
      if earlier.Some? then earlier else if Covers(e, rows[last]) then Some(rows[last].cloudId) else None
  }

  function EntityAfter(e: Entity, rows: seq<Late>): Entity {
    if e.cloudId.Some? then e else e.(cloudId := CloudFor(e, rows))
  }

  ghost predicate EntitiesAfter(before: seq<Entity>, rows: seq<Late>, after: seq<Entity>) {
    |after| == |before| && forall k | 0 <= k < |before| :: after[k] == EntityAfter(before[k], rows)
  }

  lemma {:induction false} CoveringOwner(entities: seq<Entity>, row: Late)
    requires Unique(entities) && row.names != []
    ensures var k := OwnerAt(entities, Least(row.names));
      (Unified(entities, row) <==> k < |entities| && Covers(entities[k], row)) &&
      forall j | 0 <= j < |entities| && j != k :: !Covers(entities[j], row)
  {
    var n, k := Least(row.names), OwnerAt(entities, Least(row.names));
    forall j | 0 <= j < |entities| && Covers(entities[j], row) ensures j == k {
      assert n in entities[j].names;
      assert entities[j] == entities[k];
    }
    if Unified(entities, row) {
      var e :| e in entities && Covers(e, row);
      var j :| 0 <= j < |entities| && entities[j] == e;
    }
  }

  lemma {:induction false} OneRowMore(entities: seq<Entity>, after: seq<Entity>, rows: seq<Late>, i: nat)
    requires Unique(entities) && i < |rows| && rows[i].names != [] && EntitiesAfter(entities, rows[..i], after)
    ensures !Unified(entities, rows[i]) ==> EntitiesAfter(entities, rows[..i + 1], after)
    ensures Unified(entities, rows[i]) ==>
      var k := OwnerAt(entities, Least(rows[i].names));
      k < |entities| && EntitiesAfter(entities, rows[..i + 1],
        if after[k].cloudId.Some? then after else after[k := after[k].(cloudId := Some(rows[i].cloudId))])
  {
    hide Unique, Unified, Covers;
    CoveringOwner(entities, rows[i]);
    assert rows[..i + 1][..i] == rows[..i];
    forall k | 0 <= k < |entities|
      ensures !Covers(entities[k], rows[i]) ==> EntityAfter(entities[k], rows[..i + 1]) == EntityAfter(entities[k], rows[..i])
      ensures Covers(entities[k], rows[i]) && after[k].cloudId.Some? ==> EntityAfter(entities[k], rows[..i + 1]) == after[k]
      ensures Covers(entities[k], rows[i]) && after[k].cloudId.None? ==>
        (EntityAfter(entities[k], rows[..i + 1]) == after[k].(cloudId := Some(rows[i].cloudId)))
    {
    }
  }

  lemma {:induction false} OneClaimMore(t: Library, rows: seq<Late>, i: nat, given: map<Source, string>)
    requires i < |rows| && rows[i].names != [] && Assigned(t, rows[..i], given)
    ensures !Unified(t.entities, rows[i]) ==> Assigned(t, rows[..i + 1], given)
    ensures Unified(t.entities, rows[i]) && SourceOf(t.groups, Least(rows[i].names)).Some? ==>
      var source := SourceOf(t.groups, Least(rows[i].names)).value;
      source !in given || given[source] == rows[i].cloudId ==> Assigned(t, rows[..i + 1], given[source := rows[i].cloudId])
    ensures Unified(t.entities, rows[i]) && SourceOf(t.groups, Least(rows[i].names)).Some? ==>
      var source := SourceOf(t.groups, Least(rows[i].names)).value;
      source in given && given[source] != rows[i].cloudId ==> exists a :: a in rows && Disagree(t, a, rows[i])
  {
    hide Unified, SourceOf;
    assert rows[..i + 1] == rows[..i] + [rows[i]];
    var found := SourceOf(t.groups, Least(rows[i].names));
    if found.Some? && found.value in given {
      var a :| a in rows[..i] && Claims(t, a, found.value) && a.cloudId == given[found.value];
      assert a in rows;
    }
    if found.Some? {
      var more := given[found.value := rows[i].cloudId];
      if found.value !in given || given[found.value] == rows[i].cloudId {
        forall source | source in more
          ensures Unified(t.entities, rows[i]) ==> exists row :: row in rows[..i + 1] && Claims(t, row, source) && row.cloudId == more[source]
        {
          if source == found.value {
            assert rows[i] in rows[..i + 1];
          } else {
            var row :| row in rows[..i] && Claims(t, row, source) && row.cloudId == given[source];
            assert row in rows[..i + 1];
          }
        }
      }
    }
  }

  /** Give entities without a cloud ID that of their first row, and settle which constituent gets which ID. */
  method Assign(t: Library, rows: seq<Late>) returns (ok: bool, entities: seq<Entity>, given: map<Source, string>)
    requires Unique(t.entities) && forall row | row in rows :: row.names != []
    requires forall row, n | row in rows && n in row.names :: Find(t.entities, n).Some?
    ensures ok ==> EntitiesAfter(t.entities, rows, entities) && Assigned(t, rows, given)
    ensures ok ==> forall row | row in rows :: !Unsourced(t, row)
    ensures !ok ==> (exists row :: row in rows && Unsourced(t, row)) || exists a, b :: a in rows && b in rows && Disagree(t, a, b)
  {
    hide Unique, Find, Covers, SourceOf, Unified, EntitiesAfter, Assigned, Disagree, CloudFor;
    ok, entities, given := true, t.entities, map[];
    NoRowsYet(t);
    assert rows[..0] == [];
    for i := 0 to |rows|
      invariant ok && EntitiesAfter(t.entities, rows[..i], entities) && Assigned(t, rows[..i], given)
      invariant forall k | 0 <= k < i :: !Unsourced(t, rows[k])
    {
      var row := rows[i];
      var anchor := Least(row.names);
      var owner := OwnerAt(t.entities, anchor);
      FindAt(t.entities, anchor);
      CoveringOwner(t.entities, row);
      OneRowMore(t.entities, entities, rows, i);
      OneClaimMore(t, rows, i, given);
      SameLength(t.entities, rows[..i], entities);
      if !Covers(t.entities[owner], row) { continue; }
      if entities[owner].cloudId.None? { entities := entities[owner := entities[owner].(cloudId := Some(row.cloudId))]; }
      var source := SourceOf(t.groups, anchor);
      if source.None? {
        assert Unsourced(t, row);
        return false, entities, given;
      }
      if source.value in given && given[source.value] != row.cloudId { return false, entities, given; }
      given := given[source.value := row.cloudId];
    }
    assert rows[..|rows|] == rows;
  }

  lemma {:induction false} NoRowsYet(t: Library)
    ensures EntitiesAfter(t.entities, [], t.entities) && Assigned(t, [], map[])
  {
  }

  lemma {:induction false} SameLength(before: seq<Entity>, rows: seq<Late>, after: seq<Entity>)
    requires EntitiesAfter(before, rows, after)
    ensures |after| == |before|
  {
  }

  // ---- What is saved ----

  function OriginAfter(i: nat, o: Origin, given: map<Source, string>): Origin {
    if o.entityId.Some? && Source(i, o.entityId.value) in given
    then o.(cloudId := Some(given[Source(i, o.entityId.value)])) else o
  }

  /** The constituent has another cloud ID already. */
  predicate Opposes(i: nat, o: Origin, given: map<Source, string>) { o.cloudId.Some? && OriginAfter(i, o, given) != o }

  function OriginsAfter(i: nat, origins: Option<map<string, Origin>>, given: map<Source, string>): Option<map<string, Origin>> {
    if origins.None? then None else Some(map n | n in origins.value :: OriginAfter(i, origins.value[n], given))
  }

  ghost predicate SomeOpposes(i: nat, g: Group, given: map<Source, string>) {
    exists n :: n in g.Origins() && Opposes(i, g.Origins()[n], given)
  }

  /** Save the IDs given with every name of their constituents, unless one of these has another. */
  method SaveOrigins(i: nat, origins: map<string, Origin>, given: map<Source, string>)
    returns (ok: bool, after: map<string, Origin>)
    ensures ok <==> forall n | n in origins :: !Opposes(i, origins[n], given)
    ensures ok ==> Some(after) == OriginsAfter(i, Some(origins), given)
  {
    hide Opposes, OriginAfter;
    after := origins;
    var rest := origins.Keys;
    while rest != {}
      invariant rest <= origins.Keys && after.Keys == origins.Keys
      invariant forall n | n in origins && n !in rest :: !Opposes(i, origins[n], given) && after[n] == OriginAfter(i, origins[n], given)
      invariant forall n | n in rest :: after[n] == origins[n]
      decreases rest
    {
      var n :| n in rest;
      rest := rest - {n};
      if Opposes(i, origins[n], given) { return false, after; }
      after := after[n := OriginAfter(i, origins[n], given)];
    }
    assert after == OriginsAfter(i, Some(origins), given).value;
    ok := true;
  }

  method SaveAll(groups: seq<Group>, given: map<Source, string>) returns (ok: bool, after: seq<Group>)
    ensures ok <==> forall i: nat | i < |groups| :: !SomeOpposes(i, groups[i], given)
    ensures ok ==> |after| == |groups| && forall i: nat | i < |groups| ::
      after[i] == groups[i].(origins := OriginsAfter(i, groups[i].origins, given))
  {
    hide Opposes, OriginAfter;
    after := [];
    for i := 0 to |groups|
      invariant |after| == i && forall k: nat | k < i :: !SomeOpposes(k, groups[k], given)
      invariant forall k: nat | k < i :: after[k] == groups[k].(origins := OriginsAfter(k, groups[k].origins, given))
    {
      var g := groups[i];
      if g.origins.Some? {
        var fine, origins := SaveOrigins(i, g.origins.value, given);
        if !fine {
          assert g.Origins() == g.origins.value;
          assert SomeOpposes(i, g, given);
          return false, after;
        }
        g := g.(origins := Some(origins));
      }
      after := after + [g];
    }
    ok := true;
  }

  // ---- The whole pass ----

  ghost predicate Attached(t: Library, rows: seq<Late>, given: map<Source, string>, u: Library) {
    && Assigned(t, rows, given) && EntitiesAfter(t.entities, rows, u.entities)
    && |u.groups| == |t.groups| && (forall i: nat | i < |t.groups| :: !SomeOpposes(i, t.groups[i], given))
    && (forall i: nat | i < |t.groups| :: u.groups[i] == t.groups[i].(origins := OriginsAfter(i, t.groups[i].origins, given)))
  }

  /** A constituent that a row's ID goes to has another one saved. */
  ghost predicate OpposedBy(t: Library, row: Late, g: Group, n: string) {
    exists source :: Claims(t, row, source) && source.group < |t.groups| && t.groups[source.group] == g &&
      n in g.Origins() && g.Origins()[n].entityId == Some(source.entityId) &&
      g.Origins()[n].cloudId.Some? && g.Origins()[n].cloudId != Some(row.cloudId)
  }

  /** Some row has no constituent to go to, or a constituent gets two different IDs. */
  ghost predicate Clashes(t: Library, rows: seq<Late>) {
    || (exists row :: row in rows && Unsourced(t, row))
    || (exists a, b :: a in rows && b in rows && Disagree(t, a, b))
    || (exists row, g, n :: row in rows && OpposedBy(t, row, g, n))
  }

  lemma {:induction false} AssignedAgree(t: Library, rows: seq<Late>, given: map<Source, string>, a: Late, b: Late)
    requires Assigned(t, rows, given) && a in rows && b in rows
    ensures !Disagree(t, a, b)
  {
    hide Claims;
  }

  lemma {:induction false} OpposedClashes(t: Library, rows: seq<Late>, given: map<Source, string>, i: nat)
    requires Assigned(t, rows, given) && i < |t.groups| && SomeOpposes(i, t.groups[i], given)
    ensures Clashes(t, rows)
  {
    hide Claims;
    var g := t.groups[i];
    var n :| n in g.Origins() && Opposes(i, g.Origins()[n], given);
    var source := Source(i, g.Origins()[n].entityId.value);
    var row :| row in rows && Claims(t, row, source) && row.cloudId == given[source];
    assert OpposedBy(t, row, g, n);
  }

  lemma {:induction false} UnopposedFits(t: Library, rows: seq<Late>, given: map<Source, string>, row: Late, g: Group, n: string)
    requires Assigned(t, rows, given) && row in rows && forall i: nat | i < |t.groups| :: !SomeOpposes(i, t.groups[i], given)
    ensures !OpposedBy(t, row, g, n)
  {
    hide Claims;
    forall source | Claims(t, row, source) && source.group < |t.groups| && t.groups[source.group] == g &&
        n in g.Origins() && g.Origins()[n].entityId == Some(source.entityId)
      ensures g.Origins()[n].cloudId.Some? ==> g.Origins()[n].cloudId == Some(row.cloudId)
    {
      assert given[source] == row.cloudId;
      assert !Opposes(source.group, g.Origins()[n], given);
    }
  }

  /** Attach the deferred IDs, or refuse. */
  method Attach(t: Library, rows: seq<Late>) returns (r: Option<Library>, ghost given: map<Source, string>)
    requires Unique(t.entities) && forall row | row in rows :: row.names != []
    requires forall row, n | row in rows && n in row.names :: Find(t.entities, n).Some?
    ensures r.None? <==> Clashes(t, rows)
    ensures r.Some? ==> Attached(t, rows, given, r.value)
  {
    hide Unique, Find, Assigned, EntitiesAfter, Unsourced, Disagree, OpposedBy, SomeOpposes, OriginsAfter;
    var ok, entities, sources := Assign(t, rows);
    given := sources;
    if !ok { return None, given; }
    forall a, b | a in rows && b in rows ensures !Disagree(t, a, b) { AssignedAgree(t, rows, given, a, b); }
    var saved, groups := SaveAll(t.groups, sources);
    if !saved {
      ghost var i: nat :| i < |t.groups| && SomeOpposes(i, t.groups[i], given);
      OpposedClashes(t, rows, given, i);
      return None, given;
    }
    forall row, g, n | row in rows ensures !OpposedBy(t, row, g, n) { UnopposedFits(t, rows, given, row, g, n); }
    r := Some(Library(entities, groups));
  }

  // ---- What becomes of names and constituents ----

  lemma {:induction false} AttachedEntity(before: seq<Entity>, rows: seq<Late>, after: seq<Entity>, n: string)
    requires EntitiesAfter(before, rows, after)
    ensures OwnerAt(after, n) == OwnerAt(before, n)
    ensures Find(after, n).Some? <==> Find(before, n).Some?
    ensures Find(before, n).Some? ==> Find(after, n).value == EntityAfter(Find(before, n).value, rows)
  {
    hide Find, CloudFor;
    FindAt(before, n);
    FindAt(after, n);
    assert forall k | 0 <= k < |before| :: after[k].names == before[k].names;
  }

  lemma {:induction false} AttachedGroup(t: Library, rows: seq<Late>, given: map<Source, string>, u: Library, n: string)
    requires Attached(t, rows, given, u)
    ensures GroupAt(u.groups, n) == GroupAt(t.groups, n)
  {
    hide OriginsAfter, SomeOpposes, EntitiesAfter, Assigned;
    assert forall i: nat | i < |t.groups| :: u.groups[i].names == t.groups[i].names;
  }

  lemma {:induction false} AttachedUnique(before: seq<Entity>, rows: seq<Late>, after: seq<Entity>)
    requires Unique(before) && EntitiesAfter(before, rows, after)
    ensures Unique(after)
  {
    hide CloudFor;
    forall i, j | 0 <= i < j < |after| ensures after[i].entityId != after[j].entityId { assert before[i] != before[j]; }
    forall e, f, n | e in after && f in after && n in e.names && n in f.names ensures e == f {
      var i :| 0 <= i < |after| && after[i] == e;
      var j :| 0 <= j < |after| && after[j] == f;
      assert before[i] == before[j];
    }
  }

  /** The constituent as it is saved afterwards. */
  function PartAfter(i: nat, p: Part, given: map<Source, string>): Part {
    if p.entityId.Some? && Source(i, p.entityId.value) in given then p.(cloudId := Some(given[Source(i, p.entityId.value)])) else p
  }

  lemma {:induction false} AttachedSaves(t: Library, rows: seq<Late>, given: map<Source, string>, u: Library, i: nat, n: string)
    requires Attached(t, rows, given, u) && i < |t.groups|
    ensures Saves(u.groups[i], n) <==> Saves(t.groups[i], n)
    ensures Saves(t.groups[i], n) ==> SavedPart(u.groups[i], n) == PartAfter(i, SavedPart(t.groups[i], n), given)
    ensures Saves(t.groups[i], n) && SavedPart(t.groups[i], n).cloudId.Some? ==> SavedPart(u.groups[i], n) == SavedPart(t.groups[i], n)
  {
    hide EntitiesAfter, Assigned;
    var g := t.groups[i];
    assert !SomeOpposes(i, g, given);
    if n in g.Origins() { assert !Opposes(i, g.Origins()[n], given); }
  }

  /** Every name keeps its home with its ID and game IDs; a cloud ID is added at most, to the constituents
      chosen and to entities that had none, and never replaced. */
  lemma {:induction false} AttachedHome(t: Library, rows: seq<Late>, given: map<Source, string>, u: Library, n: string)
    requires Attached(t, rows, given, u)
    ensures var i := GroupAt(t.groups, n);
      && (Home(u, n).Some? <==> Home(t, n).Some?)
      && (Home(t, n).Some? && i < |t.groups| ==> Home(u, n).value == PartAfter(i, Home(t, n).value, given))
      && (Home(t, n).Some? && i == |t.groups| ==> Home(u, n).value == OwnPart(EntityAfter(Find(t.entities, n).value, rows)))
    ensures Home(t, n).Some? && Home(t, n).value.cloudId.Some? ==> Home(u, n) == Home(t, n)
  {
    hide Find, GroupWith, PartAfter, SavedPart, Attached, EntitiesAfter, CloudFor;
    AttachedParts(t, rows, given, u);
    AttachedEntity(t.entities, rows, u.entities, n);
    AttachedGroup(t, rows, given, u, n);
    GroupIsAt(t.groups, n);
    GroupIsAt(u.groups, n);
    var i := GroupAt(t.groups, n);
    if i < |t.groups| { AttachedSaves(t, rows, given, u, i, n); }
  }

  lemma {:induction false} AttachedParts(t: Library, rows: seq<Late>, given: map<Source, string>, u: Library)
    requires Attached(t, rows, given, u)
    ensures Assigned(t, rows, given) && EntitiesAfter(t.entities, rows, u.entities) && |u.groups| == |t.groups|
  {
  }

  /** A deferred ID is not lost: if the row's names are one entity now, that entity has a cloud ID, and the
      constituent from which the least name comes has the row's, for a later split. */
  lemma {:induction false} DeferredIdIsKept(t: Library, rows: seq<Late>, given: map<Source, string>, u: Library, row: Late)
    requires Unique(t.entities) && Attached(t, rows, given, u) && !Clashes(t, rows)
    requires row in rows && row.names != [] && Unified(t.entities, row)
    ensures Find(u.entities, Least(row.names)).Some? && Find(u.entities, Least(row.names)).value.cloudId.Some?
    ensures Home(t, Least(row.names)).Some? ==>
      Home(u, Least(row.names)) == Some(Home(t, Least(row.names)).value.(cloudId := Some(row.cloudId)))
  {
    hide Find, GroupWith, SavedPart, EntitiesAfter, CloudFor, Unique, Disagree, OpposedBy, Attached, Covers;
    var n := Least(row.names);
    AttachedParts(t, rows, given, u);
    AttachedEntity(t.entities, rows, u.entities, n);
    AttachedHome(t, rows, given, u, n);
    CoveringOwner(t.entities, row);
    FindAt(t.entities, n);
    CloudIsFound(Find(t.entities, n).value, rows, row);
    assert !Unsourced(t, row);
    var source := SourceOf(t.groups, n).value;
    assert Claims(t, row, source) && given[source] == row.cloudId;
    GroupIsAt(t.groups, n);
    SavedIs(t.groups[source.group], n);
  }

  lemma {:induction false} SavedIs(g: Group, n: string)
    ensures Saves(g, n) ==> SavedPart(g, n).entityId == g.Origins()[n].entityId
  {
  }

  lemma {:induction false} CloudIsFound(e: Entity, rows: seq<Late>, row: Late)
    requires row in rows && Covers(e, row)
    ensures EntityAfter(e, rows).cloudId.Some?
  {
    hide Covers;
    var last := |rows| - 1;
    assert rows == rows[..last] + [rows[last]];
    if row != rows[last] { CloudIsFound(e, rows[..last], row); }
  }

  /** An entity without a cloud ID gets that of the first row that is all in it, and none if there is none; one that
      has an ID keeps it. */
  lemma {:induction false} FirstRowGives(e: Entity, rows: seq<Late>)
    ensures e.cloudId.Some? ==> EntityAfter(e, rows) == e
    ensures e.cloudId.None? && EntityAfter(e, rows).cloudId.None? ==> forall row | row in rows :: !Covers(e, row)
    ensures e.cloudId.None? && EntityAfter(e, rows).cloudId.Some? ==>
      exists k :: FirstCovering(e, rows, k) && EntityAfter(e, rows).cloudId == Some(rows[k].cloudId)
    ensures EntityAfter(e, rows) == e.(cloudId := EntityAfter(e, rows).cloudId)
  {
    hide Covers;
    if e.cloudId.None? && rows != [] {
      var last := |rows| - 1;
      var front := rows[..last];
      assert rows == front + [rows[last]];
      FirstRowGives(e, front);
      if CloudFor(e, front).Some? {
        var k :| FirstCovering(e, front, k) && CloudFor(e, front) == Some(front[k].cloudId);
        assert FirstCovering(e, rows, k) by {
          forall j | 0 <= j < k ensures !Covers(e, rows[j]) { assert front[j] == rows[j]; }
        }
      } else if Covers(e, rows[last]) {
        assert FirstCovering(e, rows, last) by {
          forall j | 0 <= j < last ensures !Covers(e, rows[j]) { assert rows[j] == front[j] && front[j] in front; }
        }
      }
    }
  }

  ghost predicate FirstCovering(e: Entity, rows: seq<Late>, k: int) {
    0 <= k < |rows| && Covers(e, rows[k]) && forall j | 0 <= j < k :: !Covers(e, rows[j])
  }
}
