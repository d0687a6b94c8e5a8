/** Libraries that arise, and that a split or a merge does not treat as it should. */
module LibraryLimits {
  import opened Options
  import opened Ordering
  import opened PlayerLibrary
  import opened LibraryJoin
  import opened LibraryMerge
  import opened LibraryMerging
  import opened LibraryCoalescing
  import opened LibraryImport
  import opened LibrarySplit

  const GAMES: seq<nat> := [1, 2, 3, 4, 5]

  function Row(n: string): Incoming { Incoming([n], GAMES, None) }

  function Single(id: nat, n: string): Entity { Entity(id, None, [n], GAMES) }

  // ---- An ID that was saved but never stored ----

  /** Importing three rows into an empty library. */
  lemma {:induction false} ThreeRows() returns (stages: seq<Stage>)
    ensures StagesDone(stages, [Row("a"), Row("b"), Row("c")]) && stages[0] == Stage([], map[], map[], 1)
    ensures stages[3].entities == [Single(1, "a"), Single(2, "b"), Single(3, "c")]
  {
    hide StageDone;
    var s0 := Stage([], map[], map[], 1);
    var s1 := Stage([Single(1, "a")], map["a" := 0], map[], 2);
    var s2 := Stage([Single(1, "a"), Single(2, "b")], map["a" := 0, "b" := 1], map[], 3);
    var s3 := Stage([Single(1, "a"), Single(2, "b"), Single(3, "c")], map["a" := 0, "b" := 1, "c" := 2], map[], 4);
    NewRow(s0, s1, "a");
    NewRow(s1, s2, "b");
    NewRow(s2, s3, "c");
    stages := [s0, s1, s2, s3];
    var incoming := [Row("a"), Row("b"), Row("c")];
    forall i | 0 <= i < |incoming| ensures StageDone(stages[i], stages[i + 1], incoming[i]) {
      assert i == 0 || i == 1 || i == 2;
    }
  }

  lemma {:induction false} NewRow(a: Stage, b: Stage, n: string)
    requires n !in a.byName && a.byCloud == map[]
    requires b == Stage(a.entities + [Single(a.next, n)], a.byName[n := |a.entities|], map[], a.next + 1)
    ensures StageDone(a, b, Row(n))
  {
    assert MatchSet(a.byName, a.byCloud, Row(n)) == {};
    NewRowDone(a.entities, a.byName, a.next, Row(n));
  }

  const THREE := [Single(1, "a"), Single(2, "b"), Single(3, "c")]

  const ALL_THREE := Candidate("g", ["a", "b", "c"])

  lemma {:induction false} FindThree(n: string)
    ensures Find(THREE, "a") == Some(THREE[0]) && Find(THREE, "b") == Some(THREE[1]) && Find(THREE, "c") == Some(THREE[2])
    ensures Find(THREE, n).Some? ==> n in ALL_THREE.names
  {
    FindFinds(THREE, n);
    assert THREE[0].names == ["a"] && THREE[1].names == ["b"] && THREE[2].names == ["c"];
    assert THREE[1..][0] == THREE[1] && THREE[1..][1..][0] == THREE[2];
  }

  lemma {:induction false} ThreeAreJoinable()
    ensures Joinable(THREE, ALL_THREE)
  {
    hide Find, MembersWithin;
    FindThree("");
    var members: set<nat> := {1, 2, 3};
    assert Owns(THREE, 1, "a") && Owns(THREE, 2, "b") && Owns(THREE, 3, "c");
    assert "a" in ALL_THREE.names && "b" in ALL_THREE.names && "c" in ALL_THREE.names;
    assert OwnersOf(THREE, ALL_THREE.names, members);
    ThreeWithin(members);
    assert |members| == 3;
  }

  lemma {:induction false} ThreeWithin(members: set<nat>)
    ensures MembersWithin(THREE, members, ALL_THREE.names)
  {
    forall e | e in THREE ensures SetOf(e.names) <= SetOf(ALL_THREE.names) {
      assert "a" in ALL_THREE.names && "b" in ALL_THREE.names && "c" in ALL_THREE.names;
    }
  }

  lemma {:induction false} HomeOfThree(n: string)
    ensures Home(Library(THREE, []), n).Some? ==>
      Find(THREE, n).Some? && Home(Library(THREE, []), n) == Some(OwnPart(Find(THREE, n).value))
    ensures Find(THREE, n).Some? ==> Find(THREE, n).value in THREE
  {
    hide Find;
    FindFinds(THREE, n);
  }

  /** Before the pass the three entities are a library in order, so the pass remembers them. */
  lemma {:induction false} ThreeInOrder()
    ensures InOrder(Library(THREE, []))
  {
    hide Find, Home, OwnPart;
    var s := Library(THREE, []);
    FindThree("");
    forall n ensures Home(s, n).Some? ==> Find(THREE, n).Some? && Home(s, n) == Some(OwnPart(Find(THREE, n).value)) {
      HomeOfThree(n);
    }
    assert Unique(THREE) by { ThreeAreUnique(); }
    assert PartsFit(s) by { ThreePartsFit(); }
    assert EntitiesFit(s) by { ThreeEntitiesFit(); }
  }

  lemma {:induction false} ThreeAreUnique()
    ensures Unique(THREE)
  {
    assert THREE[0].names == ["a"] && THREE[1].names == ["b"] && THREE[2].names == ["c"];
  }

  lemma {:induction false} ThreePartsFit()
    ensures PartsFit(Library(THREE, []))
  {
    hide Find, Home, Unique;
    var s := Library(THREE, []);
    ThreeAreUnique();
    forall n ensures Home(s, n).Some? ==>
      Find(THREE, n).Some? && Find(THREE, n).value in THREE && Home(s, n) == Some(OwnPart(Find(THREE, n).value))
    {
      HomeOfThree(n);
    }
  }

  lemma {:induction false} ThreeEntitiesFit()
    ensures EntitiesFit(Library(THREE, []))
  {
    hide Find, Unique;
    var s := Library(THREE, []);
    FindThree("");
    forall e | e in s.entities ensures NamesIt(s, e, e.names[0]) && forall id :: id in e.gameIds <==> Within(s, e, id) {
      assert e.names[0] in e.names;
      assert Find(THREE, e.names[0]) == Some(e);
      forall id ensures id in e.gameIds <==> Within(s, e, id) {
        if id in e.gameIds { assert id in Home(s, e.names[0]).value.gameIds; }
        if Within(s, e, id) { assert forall n | n in e.names :: n == e.names[0]; }
      }
    }
  }

  lemma {:induction false} UnionOfThree(e: Entity)
    requires IsUnion(THREE, ALL_THREE.names, e)
    ensures e.entityId == 1
  {
    hide TakesFirstCloud;
    var merging := SetOf(ALL_THREE.names);
    assert "a" in ALL_THREE.names && "a" in THREE[0].names;
    assert IsMember(THREE, merging, THREE[0]);
    var f :| IsMember(THREE, merging, f) && f.entityId == e.entityId;
  }

  /** Whatever the coalescing pass makes of the three rows as one candidate, it stores one entity, with
      the ID 1, and saves the ID 3; so the first new ID of the next command can be 2. */
  lemma {:induction false} SavedButNotStored(s: Library)
    requires Coalesced(THREE, s.entities, [ALL_THREE]) && (InOrder(Library(THREE, [])) ==> SameHomes(Library(THREE, []), s))
    requires Unique(s.entities) && Conserves(THREE, s.entities)
    ensures Below(s.entities, 2) && Home(s, "c") == Some(Part(Some(3), None, SetOf(GAMES)))
  {
    hide Find, IsUnion, Joinable, InOrder;
    FindThree("c");
    ThreeInOrder();
    ThreeAreJoinable();
    assert Home(Library(THREE, []), "c") == Home(s, "c");
    forall e | e in s.entities ensures e.entityId < 2 {
      var n := e.names[0];
      FindIs(s.entities, e, n);
      FindThree(n);
      assert ALL_THREE in [ALL_THREE];
      UnionOfThree(e);
    }
  }

  // ---- What the next splits make of it ----

  function SavedGroup(names: seq<string>): Group {
    Group("g", names, Some(map n | n in names :: GAMES),
      Some(map["a" := Origin(Some(1), None), "b" := Origin(Some(2), None), "c" := Origin(Some(3), None),
        "d" := Origin(Some(4), None), "e" := Origin(Some(5), None)]))
  }

  const IMPORTED := Library([Entity(1, None, ["a", "b", "c"], GAMES)], [SavedGroup(["a", "b", "c"])])

  /** Splitting a and c off: a needs a new ID and gets 3, the ID that is given back to c; however the
      rest goes, two constituents come back as one entity. */
  lemma {:induction false} TwoComeBackAsOne(t: Library, o: Entity, d: Division)
    requires SplitsInto(IMPORTED, t, 0, o, d, 2) && d.selected == ["a", "c"]
    ensures Together(d, "a", "c")
  {
    hide Restores, Leaves, GroupsAfter, Others, IsExtra, Assigns;
    var p := PlanOf(IMPORTED, 0, o, d, 2);
    assert o == IMPORTED.entities[0] && "b" in o.names;
    assert d.remaining != [] by { assert "b" in d.remaining; }
    assert KeepsId(p, 1) && !KeepsId(p, 0);
    FirstName(p);
    assert Collides(p, 1, 0);
    CollidingComeTogether(IMPORTED, t, 0, o, d, 2, 1, 0);
  }

  const BOTH := Entity(3, None, ["a", "c"], GAMES)

  /** And this is how it goes. */
  lemma {:induction false} SuchASplit() returns (t: Library, d: Division)
    ensures SplitsInto(IMPORTED, t, 0, IMPORTED.entities[0], d, 2) && d.selected == ["a", "c"] && BOTH in t.entities
  {
    hide Assigns, Restores, Leaves, WithId;
    var g, o := IMPORTED.groups[0], IMPORTED.entities[0];
    var left := Entity(1, None, ["b"], GAMES);
    d := Division("", ["a", "c"], ["b"], map["a" := 3, "c" := 3], [BOTH], [left]);
    t := Library([left, BOTH], []);
    GivenIsThree(d);
    NothingExtra(o);
    BothRestored();
    BothInOrder();
    BLeft(left);
    assert Others(IMPORTED.entities, 1) == [];
    assert IMPORTED.groups[..0] + IMPORTED.groups[1..] == [];
  }

  lemma {:induction false} GivenIsThree(d: Division)
    requires d.selected == ["a", "c"] && d.remaining != [] && d.given == map["a" := 3, "c" := 3]
    ensures Assigns(PlanOf(IMPORTED, 0, IMPORTED.entities[0], d, 2), d.given)
  {
    var p := PlanOf(IMPORTED, 0, IMPORTED.entities[0], d, 2);
    assert KeepsId(p, 1) && !KeepsId(p, 0);
    FirstName(p);
  }

  lemma {:induction false} NothingExtra(o: Entity)
    requires o == IMPORTED.entities[0]
    ensures forall x :: !IsExtra(IMPORTED.groups[0], o, x)
  {
    assert "a" in o.names && "a" in IMPORTED.groups[0].Before();
  }

  lemma {:induction false} OwnGames(e: Entity)
    requires e.names != [] && e.gameIds == GAMES && forall n | n in e.names :: n in ["a", "b", "c"]
    ensures HasItsGames(IMPORTED.groups[0], IMPORTED.entities[0], "", e)
  {
    hide IsExtra;
    var g, o := IMPORTED.groups[0], IMPORTED.entities[0];
    NothingExtra(o);
    forall x ensures x in e.gameIds <==> TakesOne(g, o, "", e.names, x) {
      assert e.names[0] in e.names;
      if x in GAMES { assert Takes(g, o, "", e.names[0], x); }
    }
  }

  lemma {:induction false} BothRestored()
    ensures Restores(IMPORTED.groups[0], IMPORTED.entities[0], "", ["a", "c"], map["a" := 3, "c" := 3], [BOTH])
  {
    hide HasItsGames;
    assert BOTH in [BOTH] && "a" in BOTH.names && "c" in BOTH.names;
    OwnGames(BOTH);
  }

  lemma {:induction false} BothInOrder()
    ensures NamesInOrder(["a", "c"], map["a" := 3, "c" := 3], [BOTH])
  {
    assert ["a", "c"][..1] == ["a"] && ["a"][..0] == [];
    assert WithId(["a"], map["a" := 3, "c" := 3], 3) == ["a"];
  }

  lemma {:induction false} BLeft(left: Entity)
    requires left == Entity(1, None, ["b"], GAMES)
    ensures Leaves(IMPORTED.groups[0], IMPORTED.entities[0], "", ["b"], [BOTH], left)
  {
    hide HasItsGames;
    OwnGames(left);
  }

  lemma {:induction false} FirstName(p: Plan)
    requires p.selected != [] && SourceOf(p.g, p.selected[0]).Some? && !KeepsId(p, 0)
    ensures IdFor(p, 0) == p.next + 1
  {
    hide SourceOf, Available;
    assert FirstOf(p.g, p.selected, SourceOf(p.g, p.selected[0]).value) == 0;
    assert UsedUp(p, 0) == 0;
  }

  const FIVE := ["a", "b", "c", "d", "e"]

  /** After an import of five such rows a new player got the ID 2, which was saved for b. */
  const GIVEN_AWAY := Library([Entity(1, None, FIVE, GAMES), Entity(2, None, ["x"], [])], [SavedGroup(FIVE)])

  /** Splitting all five names: b needs a new ID and gets 5, the ID that is given back to e. */
  lemma {:induction false} TwoOfAllComeBackAsOne(t: Library, d: Division)
    requires SplitsInto(GIVEN_AWAY, t, 0, GIVEN_AWAY.entities[0], d, 3) && d.selected == FIVE && d.remaining == []
    ensures Together(d, "b", "e")
  {
    hide Restores, Leaves, GroupsAfter, Others, IsExtra, Assigns;
    var o, p := GIVEN_AWAY.entities[0], PlanOf(GIVEN_AWAY, 0, GIVEN_AWAY.entities[0], d, 3);
    assert GIVEN_AWAY.entities[1].entityId == 2;
    assert KeepsId(p, 0) && KeepsId(p, 4) && !KeepsId(p, 1);
    SecondName(p);
    assert Collides(p, 4, 1);
    CollidingComeTogether(GIVEN_AWAY, t, 0, o, d, 3, 4, 1);
  }

  lemma {:induction false} SecondName(p: Plan)
    requires |p.selected| > 1 && KeepsId(p, 0) && SourceOf(p.g, p.selected[1]).Some? && !KeepsId(p, 1)
    ensures IdFor(p, 1) == p.next + 2
  {
    hide SourceOf, Available;
    assert SourceOf(p.g, p.selected[0]) != SourceOf(p.g, p.selected[1]);
    assert p.selected[1..][0] == p.selected[1];
    assert FirstOf(p.g, p.selected, SourceOf(p.g, p.selected[1]).value) == 1;
    assert UsedUp(p, 1) == 1 by { assert UsedUp(p, 0) == 0; }
  }

  // ---- A snapshot that outlives its name ----

  /** A group that some names are split off keeps all it has saved, their snapshots too. */
  lemma {:induction false} SnapshotsOutlive(s: Library, t: Library, i: nat, o: Entity, d: Division, next: nat)
    requires SplitsInto(s, t, i, o, d, next) && |d.remaining| >= 2
    ensures exists k :: k in t.groups && k.names == d.remaining && k.before == s.groups[i].before && k.origins == s.groups[i].origins
  {
    hide Restores, Leaves, Others, IsExtra, Assigns;
    var k := s.groups[i].(names := d.remaining);
    assert t.groups[|t.groups| - 1] == k;
  }

  /** The group kept c's snapshot when c was split off, and c has got the game ID 4 since. */
  const OUTLIVED := Library([Entity(1, None, ["a", "b"], [1, 2]), Entity(3, None, ["c"], [3, 4])],
    [Group("g", ["a", "b"], Some(map["a" := [1], "b" := [2], "c" := [3]]),
      Some(map["a" := Origin(Some(1), None), "b" := Origin(Some(2), None), "c" := Origin(Some(3), None)]))])

  /** Merging c with the group again forgets the game ID 4 of c. */
  lemma {:induction false} OldSnapshotWins(t: Library, merged: Entity, g: Group)
    requires MergesInto(OUTLIVED, t, merged, g) && "a" in merged.names && "c" in merged.names
    ensures Saves(g, "c") && 4 !in SavedPart(g, "c").gameIds
    ensures Home(OUTLIVED, "c") == Some(OwnPart(OUTLIVED.entities[1])) && 4 in OwnPart(OUTLIVED.entities[1]).gameIds
  {
    hide Outside, Apart, Unites, KeepsCloud, Closed, Aliases;
    var merging := SetOf(merged.names);
    assert "a" in merging && "a" in OUTLIVED.groups[0].names;
    assert Touched(OUTLIVED.groups[0].names, merging);
    assert OUTLIVED.groups[..0] == [];
    assert OUTLIVED.entities[1..][0] == OUTLIVED.entities[1];
    assert 4 in OUTLIVED.entities[1].gameIds;
  }

  /** From a, b, c and x merged, c was split off, given the game ID 4 and merged with d; then x was split
      off, which put the first group, with its snapshot of c, behind the group of c and d. */
  const REORDERED := Library([Entity(1, None, ["a", "b"], [1, 2]), Entity(3, None, ["c", "d"], [3, 4, 6]), Entity(5, None, ["x"], [5])],
    [Group("h", ["c", "d"], Some(map["c" := [3, 4], "d" := [6]]),
      Some(map["c" := Origin(Some(3), None), "d" := Origin(Some(6), None)])),
     Group("g", ["a", "b"], Some(map["a" := [1], "b" := [2], "c" := [3], "x" := [5]]),
      Some(map["a" := Origin(Some(1), None), "b" := Origin(Some(2), None), "c" := Origin(Some(3), None),
        "x" := Origin(Some(5), None)]))])

  lemma {:induction false} HomeInFirstGroup()
    ensures Home(REORDERED, "c") == Some(SavedPart(REORDERED.groups[0], "c")) && 4 in Home(REORDERED, "c").value.gameIds
  {
    assert REORDERED.entities[1..][0] == REORDERED.entities[1] && "c" in REORDERED.entities[1].names;
    assert "c" in REORDERED.groups[0].names && 4 in REORDERED.groups[0].Before()["c"];
  }

  lemma {:induction false} SavedLast(merging: set<string>)
    requires "a" in merging && "c" in merging
    ensures "c" in SavedBefore(REORDERED.groups, merging) && SavedBefore(REORDERED.groups, merging)["c"] == [3]
    ensures "c" in SavedOrigins(REORDERED.groups, merging)
  {
    assert "a" in REORDERED.groups[1].names;
    assert Touched(REORDERED.groups[1].names, merging);
  }

  /** Merging all forgets the game ID 4 of c, although the group that c is in has saved it. */
  lemma {:induction false} LaterGroupWins(t: Library, merged: Entity, g: Group)
    requires MergesInto(REORDERED, t, merged, g) && "a" in merged.names && "c" in merged.names
    ensures Home(REORDERED, "c") == Some(SavedPart(REORDERED.groups[0], "c")) && 4 in Home(REORDERED, "c").value.gameIds
    ensures Saves(g, "c") && 4 !in SavedPart(g, "c").gameIds
  {
    hide Outside, Apart, Unites, KeepsCloud, Closed, Aliases, Home, SavedBefore, SavedOrigins, Find;
    HomeInFirstGroup();
    SavedLast(SetOf(merged.names));
  }
}
