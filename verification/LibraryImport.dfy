/** Importing rows from a cloud payload: evidence is added, nothing is taken away. */
module LibraryImport {
  import opened Options
  import opened Collections
  import opened PlayerLibrary
  import opened LibraryJoin
  import opened LibraryMemory
  import opened LibraryCoalescing
  import opened LibrarySyncing
  import opened LibraryDeferred

  datatype Incoming = Incoming(names: seq<string>, gameIds: seq<nat>, cloudId: Option<string>)

  /** The name index is exact, and so no name is in two entities. */
  ghost predicate Indexed(entities: seq<Entity>, byName: map<string, nat>) {
    && (forall n | n in byName :: byName[n] < |entities| && n in entities[byName[n]].names)
    && (forall k, n | 0 <= k < |entities| && n in entities[k].names :: n in byName && byName[n] == k)
  }

  ghost predicate CloudIndexed(entities: seq<Entity>, byCloud: map<string, set<nat>>) {
    forall c, k: nat | c in byCloud && k in byCloud[c] :: k < |entities|
  }

  /** No entity loses its ID, a cloud ID, a name or a game ID. */
  ghost predicate Grown(before: seq<Entity>, after: seq<Entity>) {
    && |before| <= |after|
    && (forall k | 0 <= k < |before| :: GrownEntity(before[k], after[k]))
  }

  ghost predicate GrownEntity(e: Entity, f: Entity) {
    e.entityId == f.entityId && e.names <= f.names && e.gameIds <= f.gameIds && (e.cloudId.Some? ==> f.cloudId == e.cloudId)
  }

  /** Every name of the row has an entity with all game IDs of the row. */
  ghost predicate Provided(entities: seq<Entity>, byName: map<string, nat>, item: Incoming) {
    forall n | n in item.names ::
      n in byName && byName[n] < |entities| && forall x | x in item.gameIds :: x in entities[byName[n]].gameIds
  }

  ghost predicate Numbered(entities: seq<Entity>, next: nat) {
    && (forall e | e in entities :: e.entityId < next && e.names != [])
    && (forall i, j | 0 <= i < j < |entities| :: entities[i].entityId != entities[j].entityId)
  }

  lemma {:induction false} GrownOn(a: seq<Entity>, b: seq<Entity>, c: seq<Entity>)
    requires Grown(a, b) && Grown(b, c)
    ensures Grown(a, c)
  {
    forall k | 0 <= k < |a| ensures GrownEntity(a[k], c[k]) {
      assert GrownEntity(a[k], b[k]) && GrownEntity(b[k], c[k]);
    }
  }

  lemma {:induction false} StillProvided(before: seq<Entity>, oldNames: map<string, nat>, after: seq<Entity>,
    newNames: map<string, nat>, item: Incoming)
    requires Provided(before, oldNames, item) && Grown(before, after)
    requires forall n | n in oldNames :: n in newNames && newNames[n] == oldNames[n]
    ensures Provided(after, newNames, item)
  {
    forall n | n in item.names
      ensures n in newNames && newNames[n] < |after| && forall x | x in item.gameIds :: x in after[newNames[n]].gameIds
    {
      assert GrownEntity(before[oldNames[n]], after[oldNames[n]]);
    }
  }

  // ---- One row ----

  /** The entities with the row's cloud ID or one of its names. */
  ghost function MatchSet(byName: map<string, nat>, byCloud: map<string, set<nat>>, item: Incoming): set<nat> {
    (if item.cloudId.Some? && item.cloudId.value in byCloud then byCloud[item.cloudId.value] else {}) +
    set n | n in item.names && n in byName :: byName[n]
  }

  /** The entities that a row matches, by cloud ID or by name. */
  method Matches(entities: seq<Entity>, byName: map<string, nat>, byCloud: map<string, set<nat>>, item: Incoming)
    returns (matched: set<nat>)
    requires Indexed(entities, byName) && CloudIndexed(entities, byCloud)
    ensures forall k: nat | k in matched :: k < |entities|
    ensures forall n | n in item.names && n in byName :: byName[n] in matched
    ensures matched == MatchSet(byName, byCloud, item)
  {
    matched := {};
    if item.cloudId.Some? && item.cloudId.value in byCloud { matched := byCloud[item.cloudId.value]; }
    ghost var found := matched;
    for i := 0 to |item.names|
      invariant matched == found + set n | n in item.names[..i] && n in byName :: byName[n]
    {
      assert item.names[..i + 1] == item.names[..i] + [item.names[i]];
      if item.names[i] in byName { matched := matched + {byName[item.names[i]]}; }
    }
    assert item.names[..|item.names|] == item.names;
  }

  /** Only a single match without a cloud ID takes the row's. */
  function CloudAfter(cloud: Option<string>, matches: nat, item: Incoming): Option<string> {
    if matches == 1 && cloud.None? then item.cloudId else cloud
  }

  /** What becomes of a match, but for new names. */
  ghost predicate Evidenced(e: Entity, f: Entity, matches: nat, item: Incoming) {
    && f.entityId == e.entityId
    && SetOf(f.gameIds) == SetOf(e.gameIds) + SetOf(item.gameIds)
    && f.cloudId == CloudAfter(e.cloudId, matches, item)
  }

  /** Add the game IDs of the row to every match, and its cloud ID to a single one without. */
  method AddEvidence(entities: seq<Entity>, matched: set<nat>, item: Incoming) returns (after: seq<Entity>)
    requires forall k: nat | k in matched :: k < |entities|
    ensures Grown(entities, after) && |after| == |entities|
    ensures forall k | 0 <= k < |after| :: after[k].names == entities[k].names
    ensures forall k: nat | k < |after| :: k !in matched ==> after[k] == entities[k]
    ensures forall k: nat | k in matched :: Evidenced(entities[k], after[k], |matched|, item)
  {
    after := entities;
    var left := matched;
    while left != {}
      invariant left <= matched && Grown(entities, after) && |after| == |entities|
      invariant forall k | 0 <= k < |after| :: after[k].names == entities[k].names
      invariant forall k: nat | k < |after| && (k !in matched || k in left) :: after[k] == entities[k]
      invariant forall k: nat | k in matched && k !in left :: Evidenced(entities[k], after[k], |matched|, item)
      decreases left
    {
      var k: nat :| k in left;
      var games := AppendNew(after[k].gameIds, item.gameIds);
      var takes := |matched| == 1 && item.cloudId.Some? &&
        (after[k].cloudId.None? || after[k].cloudId == item.cloudId);
      var cloud := if takes then item.cloudId else after[k].cloudId;
      assert GrownEntity(entities[k], after[k]);
      after := after[k := after[k].(gameIds := games, cloudId := cloud)];
      left := left - {k};
    }
  }

  method AppendNew(xs: seq<nat>, more: seq<nat>) returns (r: seq<nat>)
    ensures xs <= r && forall y :: y in r <==> y in xs || y in more
  {
    r := xs;
    for i := 0 to |more|
      invariant xs <= r && forall y :: y in r <==> y in xs || y in more[..i]
    {
      assert more[..i + 1] == more[..i] + [more[i]];
      r := AddUnique(r, more[i]);
    }
    assert more[..|more|] == more;
  }

  /** The names of the row that nobody has yet. */
  function Unknown(names: seq<string>, byName: map<string, nat>): seq<string> {
    if names == [] then []
    else if names[0] in byName then Unknown(names[1..], byName)
    else [names[0]] + Unknown(names[1..], byName)
  }

  lemma {:induction false} UnknownAppend(names: seq<string>, n: string, byName: map<string, nat>)
    ensures Unknown(names + [n], byName) == Unknown(names, byName) + if n in byName then [] else [n]
  {
    if names == [] {
      assert [] + [n] == [n] && Unknown([n][1..], byName) == [];
    } else {
      assert (names + [n])[1..] == names[1..] + [n];
      UnknownAppend(names[1..], n, byName);
    }
  }

  lemma {:induction false} UnknownAre(names: seq<string>, byName: map<string, nat>)
    ensures forall n :: n in Unknown(names, byName) <==> n in names && n !in byName
  {
    if names != [] { UnknownAre(names[1..], byName); }
  }

  method NewNames(names: seq<string>, byName: map<string, nat>) returns (added: seq<string>)
    ensures added == Unknown(names, byName)
  {
    added := [];
    for i := 0 to |names|
      invariant added == Unknown(names[..i], byName)
    {
      assert names[..i + 1] == names[..i] + [names[i]];
      UnknownAppend(names[..i], names[i], byName);
      if names[i] !in byName { added := added + [names[i]]; }
    }
    assert names[..|names|] == names;
  }

  function PutAll(byName: map<string, nat>, names: seq<string>, k: nat): map<string, nat> {
    byName + map n | n in names :: k
  }

  /** Names given to one entity, new or not, are indexed there. */
  lemma {:induction false} NamesGiven(before: seq<Entity>, byName: map<string, nat>, after: seq<Entity>,
    added: seq<string>, k: nat)
    requires Indexed(before, byName) && forall n | n in added :: n !in byName
    requires |before| <= |after| <= |before| + 1 && k < |after|
    requires forall i | 0 <= i < |before| && i != k :: after[i].names == before[i].names
    requires |before| < |after| ==> k == |before|
    requires forall n :: n in after[k].names <==> n in added || (k < |before| && n in before[k].names)
    ensures Indexed(after, PutAll(byName, added, k))
  {
  }

  /** What adding one row does to the index. */
  ghost predicate IndexGrows(byName: map<string, nat>, names: map<string, nat>, item: Incoming) {
    && (forall n :: n in names <==> n in byName || n in item.names)
    && (forall n | n in byName :: names[n] == byName[n])
  }

  lemma {:induction false} PutAllGrows(byName: map<string, nat>, added: seq<string>, k: nat, item: Incoming)
    requires forall n :: n in added <==> n in item.names && n !in byName
    ensures IndexGrows(byName, PutAll(byName, added, k), item)
    ensures added == [] ==> IndexGrows(byName, byName, item)
  {
    if added == [] { assert forall n | n in item.names :: n in byName; }
  }

  lemma {:induction false} CloudsKept(before: seq<Entity>, after: seq<Entity>, byCloud: map<string, set<nat>>,
    cloud: string, k: nat)
    requires CloudIndexed(before, byCloud) && |before| <= |after|
    ensures CloudIndexed(after, byCloud)
    ensures k < |after| ==> CloudIndexed(after, Claim(byCloud, cloud, k))
  {
  }

  /** What a row leaves: the others untouched, the matches with its evidence, and its new names with
      the single match or with one entity more. */
  ghost predicate RowDone(entities: seq<Entity>, byName: map<string, nat>, matched: set<nat>, next: nat, item: Incoming,
    after: seq<Entity>, later: nat)
  {
    var added := Unknown(item.names, byName);
    && |entities| <= |after| && later == next + |after| - |entities|
    && (forall k: nat | k < |entities| && k !in matched :: after[k] == entities[k])
    && (forall k: nat | k in matched :: k < |entities| && Evidenced(entities[k], after[k], |matched|, item))
    && (forall k: nat | k in matched :: k < |entities| && after[k].names == entities[k].names + if |matched| == 1 then added else [])
    && after[|entities|..] == if matched == {} then [Entity(next, item.cloudId, item.names, item.gameIds)]
      else if |matched| > 1 && added != [] then [Entity(next, None, added, item.gameIds)]
      else []
  }

  /** The cloud index learns of an entity that has the row's cloud ID from this row on. */
  ghost predicate CloudsDone(entities: seq<Entity>, byCloud: map<string, set<nat>>, matched: set<nat>, item: Incoming,
    after: seq<Entity>, clouds: map<string, set<nat>>)
  {
    && (item.cloudId.None? || |matched| > 1 ==> clouds == byCloud)
    && (item.cloudId.Some? && matched == {} ==> clouds == Claim(byCloud, item.cloudId.value, |entities|))
    && (forall k: nat | k in matched && k < |after| && item.cloudId.Some? && |matched| == 1 ::
      clouds == if after[k].cloudId == item.cloudId then Claim(byCloud, item.cloudId.value, k) else byCloud)
  }

  lemma {:induction false} OnlyMatch(matched: set<nat>, k: nat, j: nat)
    requires |matched| == 1 && k in matched && j in matched
    ensures j == k
  {
    var rest := matched - {k};
    assert |rest| == 0;
    assert j != k ==> j in rest;
  }

  lemma {:induction false} NewRowDone(entities: seq<Entity>, byName: map<string, nat>, next: nat, item: Incoming)
    ensures RowDone(entities, byName, {}, next, item, entities + [Entity(next, item.cloudId, item.names, item.gameIds)], next + 1)
  {
  }

  lemma {:induction false} EvidenceDone(entities: seq<Entity>, evidence: seq<Entity>, byName: map<string, nat>,
    matched: set<nat>, next: nat, item: Incoming)
    requires |evidence| == |entities| && matched != {}
    requires forall k: nat | k < |entities| && k !in matched :: evidence[k] == entities[k]
    requires forall k: nat | k in matched :: k < |entities| && Evidenced(entities[k], evidence[k], |matched|, item)
    requires forall k: nat | k < |entities| :: evidence[k].names == entities[k].names
    ensures Unknown(item.names, byName) == [] ==> RowDone(entities, byName, matched, next, item, evidence, next)
    ensures Unknown(item.names, byName) != [] && |matched| > 1 ==>
      RowDone(entities, byName, matched, next, item, evidence + [Entity(next, None, Unknown(item.names, byName), item.gameIds)], next + 1)
    ensures forall k: nat | k in matched && |matched| == 1 ::
      RowDone(entities, byName, matched, next, item, evidence[k := evidence[k].(names := evidence[k].names + Unknown(item.names, byName))], next)
  {
    hide Unknown, SetOf, CloudAfter;
    forall k: nat | k in matched && |matched| == 1
      ensures RowDone(entities, byName, matched, next, item, evidence[k := evidence[k].(names := evidence[k].names + Unknown(item.names, byName))], next)
    {
      forall j: nat | j in matched ensures j == k { OnlyMatch(matched, k, j); }
    }
  }

  /** Give the new names of a row to its single match, or to an entity of their own. */
  method PlaceNames(entities: seq<Entity>, evidence: seq<Entity>, byName: map<string, nat>, matched: set<nat>, k: nat,
    next: nat, item: Incoming) returns (after: seq<Entity>, names: map<string, nat>, later: nat)
    requires Indexed(evidence, byName) && Numbered(evidence, next) && Grown(entities, evidence) && k in matched
    requires forall n | n in item.names && n in byName :: byName[n] in matched && byName[n] < |evidence|
    requires forall j: nat | j in matched :: j < |evidence| && forall x | x in item.gameIds :: x in evidence[j].gameIds
    requires |evidence| == |entities|
    requires forall j: nat | j < |entities| && j !in matched :: evidence[j] == entities[j]
    requires forall j: nat | j in matched :: Evidenced(entities[j], evidence[j], |matched|, item)
    requires forall j: nat | j < |entities| :: evidence[j].names == entities[j].names
    ensures Indexed(after, names) && Numbered(after, later) && Grown(entities, after) && Provided(after, names, item)
    ensures IndexGrows(byName, names, item) && |evidence| <= |after|
    ensures RowDone(entities, byName, matched, next, item, after, later)
  {
    hide Grown, Indexed, Numbered, Provided, IndexGrows, PutAll, RowDone, Evidenced, Unknown;
    after, names, later := evidence, byName, next;
    var added := NewNames(item.names, byName);
    UnknownAre(item.names, byName);
    EvidenceDone(entities, evidence, byName, matched, next, item);
    EvidenceProvides(evidence, byName, matched, item, added);
    PutAllGrows(byName, added, k, item);
    if added != [] {
      if |matched| == 1 {
        after := evidence[k := evidence[k].(names := evidence[k].names + added)];
        names := PutAll(byName, added, k);
        assert evidence[k := evidence[k].(names := evidence[k].names + added)] == after;
        RowJoins(entities, evidence, after, byName, next, item, k, added);
      } else {
        after := evidence + [Entity(next, None, added, item.gameIds)];
        names := PutAll(byName, added, |evidence|);
        PutAllGrows(byName, added, |evidence|, item);
        RowAdds(entities, evidence, after, byName, next, item, added);
        later := next + 1;
      }
    }
  }

  /** The row meets several entities and brings a cloud ID that none has: which of them gets it is not decided yet. */
  ghost predicate Ambiguous(byName: map<string, nat>, byCloud: map<string, set<nat>>, item: Incoming) {
    |MatchSet(byName, byCloud, item)| > 1 && item.cloudId.Some? && item.cloudId.value !in byCloud
  }

  /** Add one row; deferred says that its cloud ID is left for later. */
  method ImportRow(entities: seq<Entity>, byName: map<string, nat>, byCloud: map<string, set<nat>>, next: nat,
    item: Incoming)
    returns (after: seq<Entity>, names: map<string, nat>, clouds: map<string, set<nat>>, later: nat, deferred: bool)
    requires Indexed(entities, byName) && CloudIndexed(entities, byCloud) && Numbered(entities, next) && item.names != []
    ensures Indexed(after, names) && CloudIndexed(after, clouds) && Numbered(after, later)
    ensures Grown(entities, after) && Provided(after, names, item) && IndexGrows(byName, names, item)
    ensures RowDone(entities, byName, MatchSet(byName, byCloud, item), next, item, after, later)
    ensures CloudsDone(entities, byCloud, MatchSet(byName, byCloud, item), item, after, clouds)
    ensures deferred <==> Ambiguous(byName, byCloud, item)
  {
    hide Grown, Indexed, Numbered, Provided, IndexGrows, PutAll, CloudIndexed, Claim, MatchSet, RowDone, CloudsDone, Evidenced, Unknown;
    clouds := byCloud;
    var matched := Matches(entities, byName, byCloud, item);
    var cloud := if item.cloudId.Some? then item.cloudId.value else "";
    deferred := |matched| > 1 && item.cloudId.Some? && item.cloudId.value !in byCloud;
    if matched == {} {
      after := entities + [Entity(next, item.cloudId, item.names, item.gameIds)];
      later := next + 1;
      names := PutAll(byName, item.names, |entities|);
      CloudsKept(entities, after, byCloud, cloud, |entities|);
      if item.cloudId.Some? { clouds := Claim(byCloud, cloud, |entities|); }
      NoneKnown(byName, matched, item);
      RowIsNew(entities, byName, after, next, item);
      PutAllGrows(byName, item.names, |entities|, item);
      NewRowDone(entities, byName, next, item);
      CloudOfNew(entities, byCloud, item, after);
      return;
    }
    var evidence := AddEvidence(entities, matched, item);
    SameNamesIndexed(entities, evidence, byName);
    StillNumbered(entities, evidence, next);
    var k: nat :| k in matched;
    KnownBelow(entities, byName, item);
    EvidenceHasGames(entities, evidence, matched, item);
    after, names, later := PlaceNames(entities, evidence, byName, matched, k, next, item);
    CloudsKept(entities, after, byCloud, cloud, k);
    if |matched| == 1 && item.cloudId.Some? && evidence[k].cloudId == item.cloudId { clouds := Claim(byCloud, cloud, k); }
    CloudOfMatch(entities, byName, byCloud, matched, next, item, evidence, after, later, k);
  }

  lemma {:induction false} EvidenceHasGames(entities: seq<Entity>, evidence: seq<Entity>, matched: set<nat>, item: Incoming)
    requires forall k: nat | k in matched :: k < |entities| && k < |evidence|
    requires forall k: nat | k in matched :: Evidenced(entities[k], evidence[k], |matched|, item)
    ensures forall k: nat | k in matched :: forall x | x in item.gameIds :: x in evidence[k].gameIds
  {
    forall k: nat, x | k in matched && x in item.gameIds ensures x in evidence[k].gameIds {
      assert Evidenced(entities[k], evidence[k], |matched|, item);
      assert x in SetOf(item.gameIds);
      assert x in SetOf(evidence[k].gameIds);
    }
  }

  lemma {:induction false} CloudOfNew(entities: seq<Entity>, byCloud: map<string, set<nat>>, item: Incoming, after: seq<Entity>)
    ensures CloudsDone(entities, byCloud, {}, item, after,
      if item.cloudId.Some? then Claim(byCloud, item.cloudId.value, |entities|) else byCloud)
  {
  }

  lemma {:induction false} CloudOfMatch(entities: seq<Entity>, byName: map<string, nat>, byCloud: map<string, set<nat>>,
    matched: set<nat>, next: nat, item: Incoming, evidence: seq<Entity>, after: seq<Entity>, later: nat, k: nat)
    requires RowDone(entities, byName, matched, next, item, after, later) && k in matched && k < |evidence|
    requires Evidenced(entities[k], evidence[k], |matched|, item)
    ensures CloudsDone(entities, byCloud, matched, item, after,
      if |matched| == 1 && item.cloudId.Some? && evidence[k].cloudId == item.cloudId then Claim(byCloud, item.cloudId.value, k)
      else byCloud)
  {
    hide Claim, Unknown, SetOf;
    assert |after| >= |entities| && after[k].cloudId == evidence[k].cloudId;
    if |matched| == 1 {
      forall j: nat | j in matched ensures j == k { OnlyMatch(matched, k, j); }
    }
  }

  lemma {:induction false} NoneKnown(byName: map<string, nat>, matched: set<nat>, item: Incoming)
    requires matched == {} && forall n | n in item.names && n in byName :: byName[n] in matched
    ensures forall n | n in item.names :: n !in byName
  {
  }

  lemma {:induction false} KnownBelow(entities: seq<Entity>, byName: map<string, nat>, item: Incoming)
    requires Indexed(entities, byName)
    ensures forall n | n in item.names && n in byName :: byName[n] < |entities|
  {
  }

  function Claim(byCloud: map<string, set<nat>>, cloud: string, k: nat): map<string, set<nat>> {
    byCloud[cloud := (if cloud in byCloud then byCloud[cloud] else {}) + {k}]
  }

  lemma {:induction false} SameNamesIndexed(before: seq<Entity>, after: seq<Entity>, byName: map<string, nat>)
    requires Indexed(before, byName) && |after| == |before|
    requires forall k | 0 <= k < |after| :: after[k].names == before[k].names
    ensures Indexed(after, byName)
  {
  }

  lemma {:induction false} StillNumbered(before: seq<Entity>, after: seq<Entity>, next: nat)
    requires Numbered(before, next) && Grown(before, after) && |after| == |before|
    ensures Numbered(after, next)
  {
    forall k | 0 <= k < |after| ensures after[k].entityId < next && after[k].names != [] {
      assert GrownEntity(before[k], after[k]) && before[k] in before;
    }
    forall i, j | 0 <= i < j < |after| ensures after[i].entityId != after[j].entityId {
      assert GrownEntity(before[i], after[i]) && GrownEntity(before[j], after[j]);
    }
  }

  lemma {:induction false} NumberedWith(entities: seq<Entity>, next: nat, e: Entity)
    requires Numbered(entities, next) && e.entityId == next && e.names != []
    ensures Numbered(entities + [e], next + 1) && Grown(entities, entities + [e])
  {
    var after := entities + [e];
    forall i, j | 0 <= i < j < |after| ensures after[i].entityId != after[j].entityId {
      assert after[i] in entities;
    }
  }

  lemma {:induction false} RowIsNew(entities: seq<Entity>, byName: map<string, nat>, after: seq<Entity>, next: nat,
    item: Incoming)
    requires Indexed(entities, byName) && Numbered(entities, next) && item.names != []
    requires forall n | n in item.names :: n !in byName
    requires after == entities + [Entity(next, item.cloudId, item.names, item.gameIds)]
    ensures Indexed(after, PutAll(byName, item.names, |entities|)) && Numbered(after, next + 1)
    ensures Grown(entities, after) && Provided(after, PutAll(byName, item.names, |entities|), item)
  {
    hide Indexed, Numbered, Grown;
    NamesGiven(entities, byName, after, item.names, |entities|);
    NumberedWith(entities, next, Entity(next, item.cloudId, item.names, item.gameIds));
  }

  /** The old names of the row have its evidence; if none are new, all have. */
  lemma {:induction false} EvidenceProvides(after: seq<Entity>, byName: map<string, nat>, matched: set<nat>,
    item: Incoming, added: seq<string>)
    requires forall n | n in item.names && n in byName :: byName[n] in matched && byName[n] < |after|
    requires forall k: nat | k in matched :: k < |after| && forall x | x in item.gameIds :: x in after[k].gameIds
    requires forall n :: n in added <==> n in item.names && n !in byName
    ensures Provided(after, byName, item.(names := Known(item.names, byName)))
    ensures added == [] ==> Provided(after, byName, item)
  {
    KnownAre(item.names, byName);
    if added == [] { assert forall n | n in item.names :: n in byName; }
  }

  ghost function Known(names: seq<string>, byName: map<string, nat>): seq<string> {
    if names == [] then []
    else if names[0] in byName then [names[0]] + Known(names[1..], byName)
    else Known(names[1..], byName)
  }

  lemma {:induction false} KnownAre(names: seq<string>, byName: map<string, nat>)
    ensures forall n :: n in Known(names, byName) <==> n in names && n in byName
  {
    if names != [] { KnownAre(names[1..], byName); }
  }

  lemma {:induction false} ProvidedWith(before: seq<Entity>, byName: map<string, nat>, after: seq<Entity>,
    item: Incoming, added: seq<string>, k: nat)
    requires Provided(before, byName, item.(names := Known(item.names, byName))) && Grown(before, after)
    requires forall n :: n in added <==> n in item.names && n !in byName
    requires k < |after| && forall x | x in item.gameIds :: x in after[k].gameIds
    ensures Provided(after, PutAll(byName, added, k), item)
  {
    KnownAre(item.names, byName);
    StillProvided(before, byName, after, PutAll(byName, added, k), item.(names := Known(item.names, byName)));
  }

  lemma {:induction false} RowJoins(entities: seq<Entity>, after: seq<Entity>, grown: seq<Entity>,
    byName: map<string, nat>, next: nat, item: Incoming, k: nat, added: seq<string>)
    requires Indexed(after, byName) && Numbered(after, next) && Grown(entities, after) && k < |after|
    requires Provided(after, byName, item.(names := Known(item.names, byName)))
    requires forall n :: n in added <==> n in item.names && n !in byName
    requires forall x | x in item.gameIds :: x in after[k].gameIds
    requires grown == after[k := after[k].(names := after[k].names + added)]
    ensures Indexed(grown, PutAll(byName, added, k)) && Numbered(grown, next) && Grown(entities, grown)
    ensures Provided(grown, PutAll(byName, added, k), item)
  {
    hide Indexed, Provided;
    NamesGiven(after, byName, grown, added, k);
    assert Grown(after, grown);
    GrownOn(entities, after, grown);
    StillNumbered(after, grown, next);
    ProvidedWith(after, byName, grown, item, added, k);
  }

  lemma {:induction false} RowAdds(entities: seq<Entity>, after: seq<Entity>, grown: seq<Entity>,
    byName: map<string, nat>, next: nat, item: Incoming, added: seq<string>)
    requires Indexed(after, byName) && Numbered(after, next) && Grown(entities, after) && added != []
    requires Provided(after, byName, item.(names := Known(item.names, byName)))
    requires forall n :: n in added <==> n in item.names && n !in byName
    requires grown == after + [Entity(next, None, added, item.gameIds)]
    ensures Indexed(grown, PutAll(byName, added, |after|)) && Numbered(grown, next + 1) && Grown(entities, grown)
    ensures Provided(grown, PutAll(byName, added, |after|), item)
  {
    hide Indexed, Provided, Grown, Numbered;
    NamesGiven(after, byName, grown, added, |after|);
    NumberedWith(after, next, Entity(next, None, added, item.gameIds));
    GrownOn(entities, after, grown);
    ProvidedWith(after, byName, grown, item, added, |after|);
  }

  // ---- All rows ----

  /** How things stand between two rows. */
  datatype Stage = Stage(entities: seq<Entity>, byName: map<string, nat>, byCloud: map<string, set<nat>>, next: nat)

  ghost predicate StageDone(a: Stage, b: Stage, item: Incoming) {
    && RowDone(a.entities, a.byName, MatchSet(a.byName, a.byCloud, item), a.next, item, b.entities, b.next)
    && CloudsDone(a.entities, a.byCloud, MatchSet(a.byName, a.byCloud, item), item, b.entities, b.byCloud)
    && IndexGrows(a.byName, b.byName, item)
  }

  /** Row after row was added, each as RowDone says. */
  ghost predicate StagesDone(stages: seq<Stage>, incoming: seq<Incoming>) {
    && |stages| == |incoming| + 1
    && (forall i | 0 <= i < |incoming| :: StageDone(stages[i], stages[i + 1], incoming[i]))
  }

  /** The rows whose cloud IDs were left for later, in their order. */
  ghost function Deferred(stages: seq<Stage>, incoming: seq<Incoming>, n: nat): seq<Late>
    requires n <= |incoming| && n <= |stages|
  {
    if n == 0 then [] else
      var item := incoming[n - 1];
      Deferred(stages, incoming, n - 1) +
        if Ambiguous(stages[n - 1].byName, stages[n - 1].byCloud, item) then [Late(item.names, item.cloudId.value)] else []
  }

  lemma {:induction false} DeferredSame(stages: seq<Stage>, more: seq<Stage>, incoming: seq<Incoming>, n: nat)
    requires n <= |incoming| && n <= |stages| <= |more| && forall i | 0 <= i < n :: more[i] == stages[i]
    ensures Deferred(more, incoming, n) == Deferred(stages, incoming, n)
  {
    hide Ambiguous;
    if n > 0 { DeferredSame(stages, more, incoming, n - 1); }
  }

  lemma {:induction false} DeferredAre(stages: seq<Stage>, incoming: seq<Incoming>, n: nat)
    requires n <= |incoming| && n <= |stages|
    ensures forall row | row in Deferred(stages, incoming, n) :: exists item :: item in incoming && row.names == item.names
  {
    hide Ambiguous;
    if n > 0 {
      DeferredAre(stages, incoming, n - 1);
      assert incoming[n - 1] in incoming;
    }
  }

  method ImportRows(entities: seq<Entity>, byName: map<string, nat>, byCloud: map<string, set<nat>>, next: nat,
    incoming: seq<Incoming>) returns (after: seq<Entity>, ghost names: map<string, nat>, later: nat, late: seq<Late>, ghost stages: seq<Stage>)
    requires Indexed(entities, byName) && CloudIndexed(entities, byCloud) && Numbered(entities, next)
    requires forall item | item in incoming :: item.names != []
    ensures Indexed(after, names) && Numbered(after, later) && Grown(entities, after)
    ensures forall item | item in incoming :: Provided(after, names, item)
    ensures StagesDone(stages, incoming) && stages[0] == Stage(entities, byName, byCloud, next)
    ensures stages[|incoming|].entities == after && stages[|incoming|].byName == names
    ensures late == Deferred(stages, incoming, |incoming|)
  {
    hide Indexed, Numbered, Provided, Grown, CloudIndexed, StageDone, Ambiguous;
    var index, clouds := byName, byCloud;
    after, later := entities, next;
    stages := [Stage(entities, byName, byCloud, next)];
    late := [];
    GrownSame(entities);
    for i := 0 to |incoming|
      invariant Indexed(after, index) && CloudIndexed(after, clouds) && Numbered(after, later) && Grown(entities, after)
      invariant forall k | 0 <= k < i :: Provided(after, index, incoming[k])
      invariant |stages| == i + 1 && stages[0] == Stage(entities, byName, byCloud, next)
      invariant stages[i] == Stage(after, index, clouds, later) && late == Deferred(stages, incoming, i)
      invariant forall k | 0 <= k < i :: StageDone(stages[k], stages[k + 1], incoming[k])
    {
      var grown, names', clouds', next', deferred := ImportRow(after, index, clouds, later, incoming[i]);
      StageIsDone(Stage(after, index, clouds, later), Stage(grown, names', clouds', next'), incoming[i]);
      GrownOn(entities, after, grown);
      forall k | 0 <= k < i ensures Provided(grown, names', incoming[k]) {
        StillProvided(after, index, grown, names', incoming[k]);
      }
      if deferred { AmbiguousHasId(index, clouds, incoming[i]); }
      if deferred { late := late + [Late(incoming[i].names, incoming[i].cloudId.value)]; }
      after, index, clouds, later := grown, names', clouds', next';
      ghost var past := stages;
      stages := stages + [Stage(after, index, clouds, later)];
      DeferredSame(past, stages, incoming, i);
    }
    names := index;
  }

  lemma {:induction false} AmbiguousHasId(byName: map<string, nat>, byCloud: map<string, set<nat>>, item: Incoming)
    requires Ambiguous(byName, byCloud, item)
    ensures item.cloudId.Some?
  {
  }

  lemma {:induction false} StageIsDone(a: Stage, b: Stage, item: Incoming)
    requires RowDone(a.entities, a.byName, MatchSet(a.byName, a.byCloud, item), a.next, item, b.entities, b.next)
    requires CloudsDone(a.entities, a.byCloud, MatchSet(a.byName, a.byCloud, item), item, b.entities, b.byCloud)
    requires IndexGrows(a.byName, b.byName, item)
    ensures StageDone(a, b, item)
  {
    hide RowDone, CloudsDone, IndexGrows, MatchSet;
  }

  lemma {:induction false} GrownSame(entities: seq<Entity>)
    ensures Grown(entities, entities)
  {
  }

  // ---- With the automatic pass ----

  lemma {:induction false} IndexedUnique(entities: seq<Entity>, byName: map<string, nat>, next: nat)
    requires Indexed(entities, byName) && Numbered(entities, next)
    ensures Unique(entities)
  {
    forall e, f, n | e in entities && f in entities && n in e.names && n in f.names ensures e == f {
      var i :| 0 <= i < |entities| && entities[i] == e;
      var j :| 0 <= j < |entities| && entities[j] == f;
      assert byName[n] == i && byName[n] == j;
    }
    forall e, f | e in entities && f in entities && e.entityId == f.entityId ensures e == f {
      var i :| 0 <= i < |entities| && entities[i] == e;
      var j :| 0 <= j < |entities| && entities[j] == f;
    }
  }

  lemma {:induction false} FindIndexed(entities: seq<Entity>, byName: map<string, nat>, next: nat, n: string)
    requires Indexed(entities, byName) && Numbered(entities, next)
    ensures Find(entities, n).Some? <==> n in byName
    ensures n in byName ==> Find(entities, n) == Some(entities[byName[n]])
  {
    hide Find;
    IndexedUnique(entities, byName, next);
    FindFinds(entities, n);
    if n in byName { FindIs(entities, entities[byName[n]], n); }
  }

  /** A name that had an entity still has one, with all the game IDs it had. */
  ghost predicate Keeps(before: seq<Entity>, after: seq<Entity>, n: string) {
    Find(before, n).Some? ==>
      Find(after, n).Some? && SetOf(Find(before, n).value.gameIds) <= SetOf(Find(after, n).value.gameIds)
  }

  ghost predicate Offers(entities: seq<Entity>, item: Incoming) {
    forall n | n in item.names ::
      Find(entities, n).Some? && SetOf(item.gameIds) <= SetOf(Find(entities, n).value.gameIds)
  }

  lemma {:induction false} ImportedKeeps(before: seq<Entity>, oldNames: map<string, nat>, next: nat, after: seq<Entity>,
    names: map<string, nat>, later: nat, n: string)
    requires Indexed(before, oldNames) && Numbered(before, next) && Indexed(after, names) && Numbered(after, later)
    requires Grown(before, after)
    ensures Keeps(before, after, n)
  {
    hide Find, Numbered;
    FindIndexed(before, oldNames, next, n);
    FindIndexed(after, names, later, n);
    if n in oldNames {
      var k := oldNames[n];
      assert GrownEntity(before[k], after[k]);
      assert n in after[k].names;
    }
  }

  lemma {:induction false} ImportedOffers(after: seq<Entity>, names: map<string, nat>, later: nat, item: Incoming)
    requires Indexed(after, names) && Numbered(after, later) && Provided(after, names, item)
    ensures Offers(after, item)
  {
    hide Find, Numbered, Indexed;
    forall n | n in item.names
      ensures Find(after, n).Some? && SetOf(item.gameIds) <= SetOf(Find(after, n).value.gameIds)
    {
      FindIndexed(after, names, later, n);
    }
  }

  /** After the rows the names are those known before and those of the rows. */
  lemma {:induction false} StagesName(stages: seq<Stage>, incoming: seq<Incoming>, i: nat, n: string)
    requires StagesDone(stages, incoming) && i <= |incoming|
    ensures n in stages[i].byName <==> n in stages[0].byName || exists k :: 0 <= k < i && n in incoming[k].names
  {
    hide RowDone, CloudsDone, MatchSet;
    if i > 0 {
      StagesName(stages, incoming, i - 1, n);
      assert StageDone(stages[i - 1], stages[i], incoming[i - 1]);
    }
  }

  /** The game IDs of an entity are those it had and those of rows. */
  lemma {:induction false} StagesInventNoId(stages: seq<Stage>, incoming: seq<Incoming>, i: nat, e: Entity, x: nat)
    requires StagesDone(stages, incoming) && i <= |incoming| && e in stages[i].entities && x in e.gameIds
    ensures HasId(stages[0].entities, x) || exists k :: 0 <= k < i && x in incoming[k].gameIds
  {
    hide CloudsDone, MatchSet, IndexGrows, RowDone;
    if i > 0 {
      assert StageDone(stages[i - 1], stages[i], incoming[i - 1]);
      RowInventsNoId(stages[i - 1].entities, stages[i - 1].byName, MatchSet(stages[i - 1].byName, stages[i - 1].byCloud, incoming[i - 1]),
        stages[i - 1].next, incoming[i - 1], stages[i].entities, stages[i].next, e, x);
      if HasId(stages[i - 1].entities, x) {
        var f :| f in stages[i - 1].entities && x in f.gameIds;
        StagesInventNoId(stages, incoming, i - 1, f, x);
      }
    }
  }

  ghost predicate HasId(entities: seq<Entity>, x: nat) { exists e :: e in entities && x in e.gameIds }

  lemma {:induction false} RowInventsNoId(entities: seq<Entity>, byName: map<string, nat>, matched: set<nat>, next: nat,
    item: Incoming, after: seq<Entity>, later: nat, e: Entity, x: nat)
    requires RowDone(entities, byName, matched, next, item, after, later) && e in after && x in e.gameIds
    ensures HasId(entities, x) || x in item.gameIds
  {
    hide Unknown, CloudAfter;
    var k: nat :| k < |after| && after[k] == e;
    if k < |entities| {
      assert entities[k] in entities;
      if k in matched {
        assert Evidenced(entities[k], after[k], |matched|, item);
        assert x in SetOf(after[k].gameIds);
      }
    } else {
      assert e == after[|entities|..][k - |entities|];
    }
  }

  lemma {:induction false} ImportedNames(stages: seq<Stage>, incoming: seq<Incoming>, before: seq<Entity>, next: nat,
    after: seq<Entity>, names: map<string, nat>, later: nat, n: string)
    requires StagesDone(stages, incoming) && stages[0].entities == before && stages[|incoming|].byName == names
    requires Indexed(before, stages[0].byName) && Numbered(before, next) && Indexed(after, names) && Numbered(after, later)
    ensures Find(after, n).Some? <==> Find(before, n).Some? || exists item :: item in incoming && n in item.names
  {
    hide Find, Numbered, Indexed, StageDone;
    FindIndexed(before, stages[0].byName, next, n);
    FindIndexed(after, names, later, n);
    StagesName(stages, incoming, |incoming|, n);
    if item :| item in incoming && n in item.names {
      var k :| 0 <= k < |incoming| && incoming[k] == item;
      assert n in incoming[k].names;
    }
  }

  /** How an import went: the rows, the groups brought up to date, the automatic pass, and the cloud IDs attached after it. */
  datatype Course = Course(stages: seq<Stage>, synced: Library, joined: Library, late: seq<Late>, given: map<Source, string>)

  ghost predicate Went(s: Library, automatic: set<string>, first: Stage, incoming: seq<Incoming>, analyse: seq<Entity> -> seq<Candidate>,
    c: Course)
  {
    && StagesDone(c.stages, incoming) && c.stages[0] == first
    && Synced(Library(c.stages[|incoming|].entities, s.groups), c.synced, automatic)
    && Coalesced(c.synced.entities, c.joined.entities, analyse(c.synced.entities))
    && Regrouped(c.synced, c.joined, analyse(c.synced.entities)) && Remembered(c.synced, c.joined, analyse(c.synced.entities))
    && (Grouped(c.synced) ==> Grouped(c.joined) && SameHomes(c.synced, c.joined)) && Unique(c.joined.entities)
    && c.late == Deferred(c.stages, incoming, |incoming|)
  }

  lemma {:induction false} ItWent(s: Library, automatic: set<string>, first: Stage, incoming: seq<Incoming>,
    analyse: seq<Entity> -> seq<Candidate>, c: Course)
    requires StagesDone(c.stages, incoming) && c.stages[0] == first
    requires Synced(Library(c.stages[|incoming|].entities, s.groups), c.synced, automatic)
    requires Coalesced(c.synced.entities, c.joined.entities, analyse(c.synced.entities))
    requires Regrouped(c.synced, c.joined, analyse(c.synced.entities)) && Remembered(c.synced, c.joined, analyse(c.synced.entities))
    requires (Grouped(c.synced) ==> Grouped(c.joined) && SameHomes(c.synced, c.joined)) && Unique(c.joined.entities)
    requires c.late == Deferred(c.stages, incoming, |incoming|)
    ensures Went(s, automatic, first, incoming, analyse, c)
  {
    hide StagesDone, Synced, Coalesced, Remembered, Regrouped, Grouped, SameHomes, Deferred, Unique;
  }

  /** Attaching cloud IDs changes no name and no game ID. */
  lemma {:induction false} AttachedSame(before: seq<Entity>, rows: seq<Late>, after: seq<Entity>, n: string)
    requires EntitiesAfter(before, rows, after)
    ensures Find(after, n).Some? <==> Find(before, n).Some?
    ensures forall first | Keeps(first, before, n) :: Keeps(first, after, n)
  {
    hide Find, CloudFor, EntitiesAfter;
    AttachedEntity(before, rows, after, n);
  }

  lemma {:induction false} AttachedOffers(before: seq<Entity>, rows: seq<Late>, after: seq<Entity>, item: Incoming)
    requires EntitiesAfter(before, rows, after) && Offers(before, item)
    ensures Offers(after, item)
  {
    hide Find, CloudFor, EntitiesAfter;
    forall n | n in item.names ensures Find(after, n).Some? && SetOf(item.gameIds) <= SetOf(Find(after, n).value.gameIds) {
      AttachedEntity(before, rows, after, n);
    }
  }

  lemma {:induction false} LateAreKnown(entities: seq<Entity>, stages: seq<Stage>, incoming: seq<Incoming>)
    requires |stages| >= |incoming| && forall item | item in incoming :: item.names != [] && Offers(entities, item)
    ensures forall row | row in Deferred(stages, incoming, |incoming|) :: row.names != []
    ensures forall row, n | row in Deferred(stages, incoming, |incoming|) && n in row.names :: Find(entities, n).Some?
  {
    hide Find, Deferred;
    DeferredAre(stages, incoming, |incoming|);
  }

  /** Import the rows one after the other, bring the groups up to date, join what belongs together, and attach
      the cloud IDs that waited for that; it is refused exactly if these clash. The names afterwards are
      those there were and those of the rows; no name and no ID that was there before is gone, and
      every row's names have all the row's IDs. The joining forgets nothing that the rows left known. */
  method Import(s: Library, automatic: set<string>, next: nat, byName: map<string, nat>, byCloud: map<string, set<nat>>,
    incoming: seq<Incoming>, analyse: seq<Entity> -> seq<Candidate>) returns (r: Option<Library>, ghost course: Course)
    requires Indexed(s.entities, byName) && CloudIndexed(s.entities, byCloud) && Numbered(s.entities, next)
    requires DistinctIds(s.groups) && forall item | item in incoming :: item.names != []
    requires forall entities | Unique(entities) :: AreCandidates(entities, analyse(entities))
    ensures Went(s, automatic, Stage(s.entities, byName, byCloud, next), incoming, analyse, course)
    ensures r.None? <==> Clashes(course.joined, course.late)
    ensures r.Some? ==> Unique(r.value.entities) && Attached(course.joined, course.late, course.given, r.value)
    ensures r.Some? ==> forall n :: Find(r.value.entities, n).Some? <==>
      Find(s.entities, n).Some? || exists item :: item in incoming && n in item.names
    ensures r.Some? ==> forall n :: Keeps(s.entities, r.value.entities, n)
    ensures r.Some? ==> forall item | item in incoming :: Offers(r.value.entities, item)
  {
    hide Find, Indexed, Numbered, Grown, Provided, Unique, AreCandidates, Coalesced, Grouped, PartsFit, EntitiesFit, Home, StageDone,
      Remembered, Regrouped, Synced, Deferred, Attached, Clashes, DistinctIds, Went, StagesDone, EntitiesAfter;
    var after, names, later, late, stages := ImportRows(s.entities, byName, byCloud, next, incoming);
    IndexedUnique(after, names, later);
    var synced := Synchronize(Library(after, s.groups), automatic);
    SyncedDistinct(Library(after, s.groups), synced, automatic);
    SyncedSame(Library(after, s.groups), synced, automatic);
    var t := Coalesce(synced, analyse(synced.entities));
    forall n ensures Keeps(s.entities, t.entities, n) {
      ImportedKeeps(s.entities, byName, next, after, names, later, n);
    }
    forall n ensures Find(t.entities, n).Some? <==>
      Find(s.entities, n).Some? || exists item :: item in incoming && n in item.names
    {
      ImportedNames(stages, incoming, s.entities, next, after, names, later, n);
    }
    forall item | item in incoming ensures Offers(t.entities, item) { ImportedOffers(after, names, later, item); }
    StagesLong(stages, incoming);
    LateAreKnown(t.entities, stages, incoming);
    ghost var given;
    r, given := Attach(t, late);
    course := Course(stages, synced, t, late, given);
    ItWent(s, automatic, Stage(s.entities, byName, byCloud, next), incoming, analyse, course);
    if r.Some? {
      AttachedParts(t, late, given, r.value);
      AttachedUnique(t.entities, late, r.value.entities);
      forall n ensures (Find(r.value.entities, n).Some? <==> Find(t.entities, n).Some?) && Keeps(s.entities, r.value.entities, n) {
        AttachedSame(t.entities, late, r.value.entities, n);
      }
      forall item | item in incoming ensures Offers(r.value.entities, item) {
        AttachedOffers(t.entities, late, r.value.entities, item);
      }
    }
  }

  lemma {:induction false} SyncedSame(s: Library, t: Library, automatic: set<string>)
    requires Synced(s, t, automatic)
    ensures t.entities == s.entities
  {
  }

  lemma {:induction false} StagesLong(stages: seq<Stage>, incoming: seq<Incoming>)
    requires StagesDone(stages, incoming)
    ensures |stages| == |incoming| + 1
  {
  }

  lemma {:induction false} InDeferred(stages: seq<Stage>, incoming: seq<Incoming>, i: nat, n: nat)
    requires i < n <= |incoming| && n <= |stages| && Ambiguous(stages[i].byName, stages[i].byCloud, incoming[i])
    ensures Late(incoming[i].names, incoming[i].cloudId.value) in Deferred(stages, incoming, n)
  {
    hide Ambiguous;
    AmbiguousHasId(stages[i].byName, stages[i].byCloud, incoming[i]);
    if i < n - 1 { InDeferred(stages, incoming, i, n - 1); }
  }

  /** The cloud ID of a row that met several entities is kept if its names are one entity after the automatic
      pass: the entity has a cloud ID, and the row's own waits for a split with the row's least name. */
  lemma {:induction false} AmbiguousIdIsKept(s: Library, automatic: set<string>, first: Stage, incoming: seq<Incoming>,
    analyse: seq<Entity> -> seq<Candidate>, c: Course, t: Library, i: nat)
    requires Went(s, automatic, first, incoming, analyse, c)
    requires Attached(c.joined, c.late, c.given, t) && !Clashes(c.joined, c.late)
    requires i < |incoming| && Ambiguous(c.stages[i].byName, c.stages[i].byCloud, incoming[i]) && incoming[i].names != []
    requires Unified(c.joined.entities, Late(incoming[i].names, incoming[i].cloudId.value))
    ensures var n := Least(incoming[i].names);
      && Find(t.entities, n).Some? && Find(t.entities, n).value.cloudId.Some?
      && (Home(c.joined, n).Some? ==> Home(t, n) == Some(Home(c.joined, n).value.(cloudId := incoming[i].cloudId)))
  {
    hide Synced, Coalesced, Remembered, Regrouped, Grouped, SameHomes, Unique, Attached, Clashes, Ambiguous, Unified, Find, Home, StageDone;
    AmbiguousHasId(c.stages[i].byName, c.stages[i].byCloud, incoming[i]);
    InDeferred(c.stages, incoming, i, |incoming|);
    DeferredIdIsKept(c.joined, c.late, c.given, t, Late(incoming[i].names, incoming[i].cloudId.value));
  }
}
