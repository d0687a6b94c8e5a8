/** What a library remembers about some of its names, whatever the rest of it is like. */
module LibraryMemory {
  import opened Options
  import opened Collections
  import opened PlayerLibrary
  import opened LibraryJoin
  import opened LibraryMerge

  /** All names of the group are in one entity. */
  ghost predicate InOneEntity(entities: seq<Entity>, g: Group) {
    exists e :: e in entities && forall n | n in g.names :: n in e.names
  }

  /** The groups that have one of the names lie each in one entity and share none of them, and what they
      have saved of the known names is true: of those, that is, of which it is known where they come from. */
  ghost predicate FitsOn(s: Library, names: set<string>, known: set<string>) {
    && known <= names && (forall n | n in known :: Home(s, n).Some?)
    && (forall g | g in s.groups && Touched(g.names, names) :: InOneEntity(s.entities, g))
    && (forall g, h, n | g in s.groups && h in s.groups && n in names && n in g.names && n in h.names :: g == h)
    && (forall g, n | g in s.groups && Touched(g.names, names) && n in known :: Truthful(s, g, n))
  }

  ghost predicate KeepsHomes(s: Library, t: Library, known: set<string>) { forall n | n in known :: Home(t, n) == Home(s, n) }

  ghost predicate Beside(merged: seq<string>, names: set<string>) { SetOf(merged) <= names || SetOf(merged) !! names }

  /** No entity has some of the names and others too. */
  ghost predicate Whole(entities: seq<Entity>, names: set<string>) { forall e | e in entities :: Beside(e.names, names) }

  // ---- One join ----

  /** Some entities become one, and one group takes the place of those that share names with it. */
  ghost predicate Replaces(s: Library, t: Library, merged: Entity, g: Group) {
    && JoinsEntities(s.entities, t.entities, merged) && g.names == merged.names
    && t.groups == Apart(s.groups, SetOf(merged.names)) + [g]
  }

  /** The new group saves where its known names come from, and nothing untrue of any known name. */
  ghost predicate SavesKnown(s: Library, merged: seq<string>, known: set<string>, g: Group) {
    && (forall n | n in merged && n in known :: Saves(g, n) && Home(s, n) == Some(SavedPart(g, n)))
    && (forall n | n in known :: Truthful(s, g, n))
  }

  lemma {:induction false} InOrOut(merged: seq<string>, names: set<string>, n: string)
    requires Beside(merged, names) && n in merged
    ensures n in names <==> SetOf(merged) <= names
  {
    assert n in SetOf(merged);
  }

  lemma {:induction false} TouchedGroupJoins(s: Library, t: Library, merged: Entity, g: Group, k: Group, n: string)
    requires Unique(s.entities) && Replaces(s, t, merged, g) && InOneEntity(s.entities, k)
    requires Touched(k.names, SetOf(merged.names)) && n in k.names
    ensures n in merged.names
  {
    hide Unique, Unites, Apart, Find;
    var e :| e in s.entities && forall m | m in k.names :: m in e.names;
    var m :| m in k.names && m in SetOf(merged.names);
    MemberNamesMerge(s.entities, SetOf(merged.names), e, n);
  }

  lemma {:induction false} GroupAfterJoin(s: Library, t: Library, merged: Entity, g: Group, names: set<string>,
    known: set<string>, n: string)
    requires Unique(s.entities) && FitsOn(s, names, known) && Replaces(s, t, merged, g) && n in names
    ensures GroupWith(t.groups, n) == if n in merged.names then Some(g) else GroupWith(s.groups, n)
  {
    hide GroupWith, Unique, JoinsEntities, Apart, Home, Truthful, Touched;
    var merging := SetOf(merged.names);
    ApartAre(s.groups, merging);
    GroupWithFinds(s.groups, n);
    GroupWithFinds(t.groups, n);
    assert n in merging <==> n in merged.names;
    forall k | k in s.groups && n in k.names ensures Touched(k.names, names) && (Touched(k.names, merging) <==> n in merging) {
      TouchedBy(k.names, names, n);
      if n in merging { TouchedBy(k.names, merging, n); }
      if Touched(k.names, merging) { TouchedGroupJoins(s, t, merged, g, k, n); }
    }
  }

  lemma {:induction false} TouchedBy(all: seq<string>, names: set<string>, n: string)
    requires n in all && n in names
    ensures Touched(all, names)
  {
  }

  lemma {:induction false} JoinKeepsHomes(s: Library, t: Library, merged: Entity, g: Group, names: set<string>, known: set<string>)
    requires Unique(s.entities) && FitsOn(s, names, known) && Replaces(s, t, merged, g) && Beside(merged.names, names)
    requires SetOf(merged.names) <= names ==> SavesKnown(s, merged.names, known, g)
    ensures KeepsHomes(s, t, known)
    ensures forall n | n in known :: Find(s.entities, n).Some? && Find(t.entities, n).Some?
  {
    hide Find, GroupWith, Unique, Truthful, JoinsEntities, Apart, FitsOn, Beside;
    forall n | n in known ensures Home(t, n) == Home(s, n) && Find(s.entities, n).Some? && Find(t.entities, n).Some? {
      KnownHasHome(s, names, known, n);
      GroupAfterJoin(s, t, merged, g, names, known, n);
      FindAfter(s.entities, t.entities, merged, n);
      if n in merged.names { InOrOut(merged.names, names, n); }
    }
  }

  lemma {:induction false} KnownHasHome(s: Library, names: set<string>, known: set<string>, n: string)
    requires FitsOn(s, names, known) && n in known
    ensures n in names && Home(s, n).Some? && Find(s.entities, n).Some?
  {
    hide Truthful;
  }

  lemma {:induction false} StillInOneEntity(s: Library, t: Library, merged: Entity, g: Group, k: Group)
    requires Unique(s.entities) && Replaces(s, t, merged, g) && k in t.groups && k.names != []
    requires k != g ==> InOneEntity(s.entities, k)
    ensures InOneEntity(t.entities, k)
  {
    hide Unique, Find, Unites, Apart, Closed;
    var merging := SetOf(merged.names);
    ApartAre(s.groups, merging);
    if k != g {
      var e :| e in s.entities && forall n | n in k.names :: n in e.names;
      if Touched(e.names, merging) {
        MemberNamesMerge(s.entities, merging, e, k.names[0]);
        TouchedBy(k.names, merging, k.names[0]);
      }
      assert e in t.entities;
    }
  }

  lemma {:induction false} StillTrue(s: Library, t: Library, g: Group, n: string)
    requires Truthful(s, g, n) && Home(t, n) == Home(s, n) && Find(s.entities, n).Some?
    ensures Truthful(t, g, n)
  {
    hide Find, Home;
  }

  /** A join that saves what is known forgets none of it, and the groups still fit. */
  lemma {:induction false} JoinKeepsKnown(s: Library, t: Library, merged: Entity, g: Group, names: set<string>, known: set<string>)
    requires Unique(s.entities) && FitsOn(s, names, known) && Replaces(s, t, merged, g) && Beside(merged.names, names)
    requires SetOf(merged.names) <= names ==> SavesKnown(s, merged.names, known, g)
    ensures FitsOn(t, names, known) && KeepsHomes(s, t, known)
  {
    hide Find, Unique, Truthful, JoinsEntities, Apart, Home, InOneEntity, Touched, Beside;
    var merging := SetOf(merged.names);
    JoinKeepsHomes(s, t, merged, g, names, known);
    ApartAre(s.groups, merging);
    forall k | k in t.groups && Touched(k.names, names) ensures InOneEntity(t.entities, k) && (k == g ==> merging <= names) {
      TouchedIsIn(k.names, names);
      StillInOneEntity(s, t, merged, g, k);
      if k == g { TouchedIsWithin(merged.names, names); }
    }
    forall k, h, n | k in t.groups && h in t.groups && n in names && n in k.names && n in h.names ensures k == h {
      if k == g && h != g { TouchedBy(h.names, merging, n); }
      if h == g && k != g { TouchedBy(k.names, merging, n); }
    }
    forall k, n | k in t.groups && Touched(k.names, names) && n in known ensures Truthful(t, k, n) { StillTrue(s, t, k, n); }
  }

  lemma {:induction false} TouchedIsIn(all: seq<string>, names: set<string>)
    requires Touched(all, names)
    ensures all != []
  {
  }

  lemma {:induction false} TouchedIsWithin(merged: seq<string>, names: set<string>)
    requires Beside(merged, names) && Touched(merged, names)
    ensures SetOf(merged) <= names
  {
    var n :| n in merged && n in names;
    InOrOut(merged, names, n);
  }

  // ---- Merges ----

  lemma {:induction false} MergeSavesKnown(s: Library, t: Library, merged: Entity, g: Group, names: set<string>, known: set<string>)
    requires FitsOn(s, names, known) && MergesInto(s, t, merged, g) && SetOf(merged.names) <= names
    ensures SavesKnown(s, merged.names, known, g)
  {
    hide Find, GroupWith, Home, SavedBefore, SavedOrigins, Aliases, Outside, Apart, Unites, KeepsCloud, Closed, InOneEntity, Touched;
    var merging := SetOf(merged.names);
    forall k | k in s.groups && Touched(k.names, merging) ensures Touched(k.names, names) { TouchedMore(k.names, merging, names); }
    forall n | n in known
      ensures (n in merged.names ==> Saves(g, n) && Home(s, n) == Some(SavedPart(g, n))) && Truthful(s, g, n)
    {
      KnownHasHome(s, names, known, n);
      SavedIsTrue(s, s.groups, merging, n);
      assert n in merging <==> n in merged.names;
      if n in merged.names { MergeSavesAsIs(s, t, merged, g, n); }
    }
  }

  lemma {:induction false} TouchedMore(all: seq<string>, few: set<string>, many: set<string>)
    requires Touched(all, few) && few <= many
    ensures Touched(all, many)
  {
  }

  lemma {:induction false} MergeReplaces(s: Library, t: Library, merged: Entity, g: Group)
    requires Unique(s.entities) && MergesInto(s, t, merged, g)
    ensures Replaces(s, t, merged, g) && Unique(t.entities)
  {
    hide Outside, Apart, Find, Saving, Unites, Closed, KeepsCloud, JoinsEntities;
    MergeJoinsEntities(s, t, merged, g);
    UniqueAfter(s.entities, t.entities, merged);
  }

  lemma {:induction false} WholeBefore(before: seq<Entity>, after: seq<Entity>, merged: Entity, names: set<string>)
    requires Unique(before) && JoinsEntities(before, after, merged) && Whole(after, names)
    ensures Whole(before, names) && Beside(merged.names, names)
  {
    hide Unique, Find, Unites, Beside;
    var merging := SetOf(merged.names);
    forall e | e in before ensures Beside(e.names, names) {
      if Touched(e.names, merging) {
        forall n | n in e.names ensures n in merging { MemberNamesMerge(before, merging, e, n); }
        FewerBeside(e.names, merged.names, names);
      } else {
        assert e in after;
      }
    }
  }

  lemma {:induction false} FewerBeside(few: seq<string>, many: seq<string>, names: set<string>)
    requires SetOf(few) <= SetOf(many) && Beside(many, names)
    ensures Beside(few, names)
  {
  }

  ghost predicate OneMerge(s: Library, t: Library) { exists merged, g :: MergesInto(s, t, merged, g) }

  ghost predicate Merges(chain: seq<Library>) {
    chain != [] && forall k | 0 <= k < |chain| - 1 :: OneMerge(chain[k], chain[k + 1])
  }

  lemma {:induction false} MergesBut(chain: seq<Library>)
    requires Merges(chain) && |chain| > 1
    ensures Merges(chain[..|chain| - 1]) && OneMerge(chain[|chain| - 2], chain[|chain| - 1])
  {
    hide OneMerge;
    var front := chain[..|chain| - 1];
    forall k | 0 <= k < |front| - 1 ensures OneMerge(front[k], front[k + 1]) { assert OneMerge(chain[k], chain[k + 1]); }
    assert OneMerge(chain[|chain| - 2], chain[|chain| - 2 + 1]);
  }

  lemma {:induction false} MergesUnique(chain: seq<Library>)
    requires Merges(chain) && Unique(chain[0].entities)
    ensures Unique(chain[|chain| - 1].entities)
  {
    hide Unique, MergesInto, Replaces;
    if |chain| > 1 {
      MergesBut(chain);
      MergesUnique(chain[..|chain| - 1]);
      var s, t := chain[|chain| - 2], chain[|chain| - 1];
      var merged, g :| MergesInto(s, t, merged, g);
      MergeReplaces(s, t, merged, g);
    }
  }

  /** The two names belong to one entity. */
  ghost predicate OneOwner(s: Library, n: string, m: string) {
    Find(s.entities, n).Some? && Find(s.entities, n) == Find(s.entities, m)
  }

  /** Any number of merges forget nothing that is known of the names of some entities of the last
      library, whatever groups and entities the others are in; and they keep together what is together. */
  lemma {:induction false} MergesRemember(chain: seq<Library>, names: set<string>, known: set<string>)
    requires Merges(chain) && Unique(chain[0].entities) && Whole(chain[|chain| - 1].entities, names)
    requires FitsOn(chain[0], names, known)
    ensures FitsOn(chain[|chain| - 1], names, known) && KeepsHomes(chain[0], chain[|chain| - 1], known)
    ensures Unique(chain[|chain| - 1].entities) && Whole(chain[0].entities, names)
    ensures forall n, m | OneOwner(chain[0], n, m) :: OneOwner(chain[|chain| - 1], n, m)
  {
    hide Unique, MergesInto, Home, OneOwner, Whole, FitsOn, JoinsEntities, Apart, SavesKnown, Beside;
    MergesUnique(chain);
    if |chain| > 1 {
      MergesBut(chain);
      var front := chain[..|chain| - 1];
      MergesUnique(front);
      var s, t := chain[|chain| - 2], chain[|chain| - 1];
      var merged, g :| MergesInto(s, t, merged, g);
      MergeReplaces(s, t, merged, g);
      WholeBefore(s.entities, t.entities, merged, names);
      MergesRemember(front, names, known);
      if SetOf(merged.names) <= names { MergeSavesKnown(s, t, merged, g, names, known); }
      JoinKeepsKnown(s, t, merged, g, names, known);
      forall n, m | OneOwner(s, n, m) ensures OneOwner(t, n, m) { JoinKeepsTogether(s, t, merged, n, m); }
    }
  }

  lemma {:induction false} JoinKeepsTogether(s: Library, t: Library, merged: Entity, n: string, m: string)
    requires Unique(s.entities) && JoinsEntities(s.entities, t.entities, merged) && OneOwner(s, n, m)
    ensures OneOwner(t, n, m)
  {
    hide Find, Unique, Unites, Closed;
    var e := Find(s.entities, n).value;
    FindFinds(s.entities, n);
    FindFinds(s.entities, m);
    FindAfter(s.entities, t.entities, merged, n);
    FindAfter(s.entities, t.entities, merged, m);
    var merging := SetOf(merged.names);
    if n in merged.names { TouchedBy(e.names, merging, n); MemberNamesMerge(s.entities, merging, e, m); }
    if m in merged.names { TouchedBy(e.names, merging, m); MemberNamesMerge(s.entities, merging, e, n); }
  }
}
