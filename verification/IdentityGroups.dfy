/** Players' alias entries and the groups of names they fall into: what an identity
    analysis is, and what both ways of computing it are proved to return. */
module IdentityGroups {
  import opened Ordering
  import opened CliqueCover

  const SHARED_ID_THRESHOLD := 5

  datatype AliasEntry = AliasEntry(name: string, ids: seq<string>)

  datatype IdentityGroup = IdentityGroup(groupId: string, names: seq<string>)

  datatype OverlapSuggestion = OverlapSuggestion(
    leftName: string, rightName: string, commonIdCount: nat, commonIdCountIsLowerBound: bool)

  datatype WeakIdEvidence = WeakIdEvidence(canonicalKey: string, names: seq<string>)

  datatype IdentityAnalysis = IdentityAnalysis(
    exactGroups: seq<IdentityGroup>,
    overlapSuggestions: seq<OverlapSuggestion>,
    weakIdEvidence: seq<WeakIdEvidence>,
    overlapSuggestionsTruncated: bool)

  /** The stable ID a group gets from its sorted names, a hash in the program. */
  type GroupIdOf = seq<string> -> string

  type CanonicalKey = string -> string

  predicate EntryLe(a: AliasEntry, b: AliasEntry) {
    if a.name != b.name then TextLe(a.name, b.name) else TextsLe(a.ids, b.ids)
  }

  predicate GroupLe(a: IdentityGroup, b: IdentityGroup) { TextsLe(a.names, b.names) }

  lemma {:induction false} EntryOrder()
    ensures TotalOrder(EntryLe)
  {
    TextOrders();
  }

  // ---- The specification ----

  ghost predicate Strong<T>(a: set<T>, b: set<T>) {
    |a * b| >= SHARED_ID_THRESHOLD
  }

  ghost function KeysOf(ids: seq<string>, key: CanonicalKey): set<string> {
    set id | id in ids && id != "" && key(id) != "" :: key(id)
  }

  ghost function Keys(e: AliasEntry, key: CanonicalKey): set<string> { KeysOf(e.ids, key) }

  /** Two entries are adjacent when they share at least five keys. */
  ghost function KeyAdjacency(es: seq<AliasEntry>, key: CanonicalKey): Adjacency {
    (j: nat, i: nat) => j < |es| && i < |es| && Strong(Keys(es[j], key), Keys(es[i], key))
  }

  ghost function GroupNumbers(es: seq<AliasEntry>, key: CanonicalKey): (g: seq<nat>)
    ensures |g| == |es|
  {
    Cover(KeyAdjacency(es, key), |es|)
  }

  ghost function NamesOf(es: seq<AliasEntry>): (names: seq<string>)
    ensures |names| == |es|
    ensures forall i | 0 <= i < |es| :: names[i] == es[i].name
  {
    seq(|es|, i requires 0 <= i < |es| => es[i].name)
  }

  function Singles(names: seq<string>): (lists: seq<seq<string>>)
    ensures |lists| == |names|
    ensures forall i | 0 <= i < |names| :: lists[i] == [names[i]]
  {
    seq(|names|, i requires 0 <= i < |names| => [names[i]])
  }

  /** The names listed under group s among the first n items, in item order. */
  function Gather(lists: seq<seq<string>>, g: seq<nat>, s: nat, n: nat): seq<string>
    requires n <= |lists| && n <= |g|
  {
    if n == 0 then []
    else if g[n - 1] == s then Gather(lists, g, s, n - 1) + lists[n - 1]
    else Gather(lists, g, s, n - 1)
  }

  /** The group numbered s, if it gathers two names or more. */
  function GroupAt(gid: GroupIdOf, lists: seq<seq<string>>, g: seq<nat>, s: nat): (r: seq<IdentityGroup>)
    requires |lists| == |g|
  {
    var names := SortBy(TextLe, Gather(lists, g, s, |g|));
    if |names| < 2 then [] else [IdentityGroup(gid(names), names)]
  }

  function Emit(gid: GroupIdOf, lists: seq<seq<string>>, g: seq<nat>, k: nat): seq<IdentityGroup>
    requires k <= |lists| == |g|
  {
    if k == 0 then [] else Emit(gid, lists, g, k - 1) + GroupAt(gid, lists, g, k - 1)
  }

  ghost function ExactGroups(gid: GroupIdOf, key: CanonicalKey, entries: seq<AliasEntry>)
    : seq<IdentityGroup>
  {
    var es := SortBy(EntryLe, entries);
    SortBy(GroupLe, Emit(gid, Singles(NamesOf(es)), GroupNumbers(es, key), |es|))
  }

  function MinText(a: string, b: string): string { if TextLe(a, b) then a else b }

  function MaxText(a: string, b: string): string { if TextLe(a, b) then b else a }

  /** s shows entries p and q of different groups, with the number of keys they share,
      or with a lower bound on it when s says so. */
  ghost predicate Shows(es: seq<AliasEntry>, key: CanonicalKey, s: OverlapSuggestion, p: nat, q: nat) {
    && p < |es| && q < |es| && GroupNumbers(es, key)[p] != GroupNumbers(es, key)[q]
    && s.leftName == MinText(es[p].name, es[q].name) && s.rightName == MaxText(es[p].name, es[q].name)
    && 0 < s.commonIdCount <= |Keys(es[p], key) * Keys(es[q], key)|
    && (!s.commonIdCountIsLowerBound ==> s.commonIdCount == |Keys(es[p], key) * Keys(es[q], key)|)
  }

  ghost predicate SuggestionsMean(es: seq<AliasEntry>, key: CanonicalKey, suggestions: seq<OverlapSuggestion>) {
    forall s | s in suggestions :: exists p: nat, q: nat :: Shows(es, key, s, p, q)
  }

  ghost predicate Suggested(es: seq<AliasEntry>, key: CanonicalKey, suggestions: seq<OverlapSuggestion>, p: nat, q: nat) {
    exists s :: s in suggestions && (Shows(es, key, s, p, q) || Shows(es, key, s, q, p))
  }

  /** The suggestions are exact: one for every two entries of different groups that share a key, with
      the number of keys they share, and no others. */
  ghost predicate ShowsAll(es: seq<AliasEntry>, key: CanonicalKey, suggestions: seq<OverlapSuggestion>) {
    && SuggestionsMean(es, key, suggestions)
    && (forall s | s in suggestions :: !s.commonIdCountIsLowerBound)
    && (forall p: nat, q: nat | p < |es| && q < |es| && Keys(es[p], key) * Keys(es[q], key) != {} &&
        GroupNumbers(es, key)[p] != GroupNumbers(es, key)[q] ::
      Suggested(es, key, suggestions, p, q))
  }

  /** The two entries are in different groups and share a key. */
  ghost predicate Linked(es: seq<AliasEntry>, key: CanonicalKey, p: nat, q: nat) {
    p < |es| && q < |es| && GroupNumbers(es, key)[p] != GroupNumbers(es, key)[q] && Keys(es[p], key) * Keys(es[q], key) != {}
  }

  ghost function Shown(es: seq<AliasEntry>, key: CanonicalKey, p: nat, q: nat): OverlapSuggestion
    requires p < |es| && q < |es|
  {
    OverlapSuggestion(MinText(es[p].name, es[q].name), MaxText(es[p].name, es[q].name),
      |Keys(es[p], key) * Keys(es[q], key)|, false)
  }

  ghost function PairsShown(es: seq<AliasEntry>, key: CanonicalKey, s: OverlapSuggestion): set<(nat, nat)> {
    set p: nat, q: nat | p < |es| && q < |es| && p < q && Linked(es, key, p, q) && Shown(es, key, p, q) == s :: (p, q)
  }

  /** There is one suggestion for every two linked entries, even if others look the same, and no more. */
  ghost predicate ListsPairs(es: seq<AliasEntry>, key: CanonicalKey, suggestions: seq<OverlapSuggestion>) {
    forall s :: multiset(suggestions)[s] == |PairsShown(es, key, s)|
  }

  /** An evidence row lists exactly the names of the entries that have its key. */
  ghost predicate RowMeans(es: seq<AliasEntry>, key: CanonicalKey, row: WeakIdEvidence) {
    forall name :: name in row.names <==> exists p: nat :: p < |es| && row.canonicalKey in Keys(es[p], key) && es[p].name == name
  }

  ghost predicate InOneRow(rows: seq<WeakIdEvidence>, k: string, a: string, b: string) {
    exists row :: row in rows && row.canonicalKey == k && a in row.names && b in row.names
  }

  // ---- What the specification means ----

  /** Entries of one group share at least five keys of their own: evidence never chains. */
  lemma {:induction false} GroupedEntriesShareKeys(es: seq<AliasEntry>, key: CanonicalKey, i: nat, j: nat)
    requires i < |es| && j < |es| && i != j
    requires GroupNumbers(es, key)[i] == GroupNumbers(es, key)[j]
    ensures |Keys(es[i], key) * Keys(es[j], key)| >= SHARED_ID_THRESHOLD
  {
    assert Keys(es[i], key) * Keys(es[j], key) == Keys(es[j], key) * Keys(es[i], key);
    if i < j {
      GroupsAreCliques(KeyAdjacency(es, key), |es|, j, i);
    } else {
      GroupsAreCliques(KeyAdjacency(es, key), |es|, i, j);
    }
  }

  /** An entry outside an earlier group shares fewer than five keys with one of its members. */
  lemma {:induction false} EntryOutsideEarlierGroup(es: seq<AliasEntry>, key: CanonicalKey, s: nat, i: nat)
    returns (j: nat)
    requires s < |es| && i < |es|
    requires GroupNumbers(es, key)[s] == s && s < GroupNumbers(es, key)[i]
    ensures j < i && GroupNumbers(es, key)[j] == s
    ensures |Keys(es[i], key) * Keys(es[j], key)| < SHARED_ID_THRESHOLD
  {
    CoverIsFirstFit(KeyAdjacency(es, key), |es|);
    assert FitsFirst(KeyAdjacency(es, key), GroupNumbers(es, key), i);
    j := LaterItemsMissSomeMember(KeyAdjacency(es, key), |es|, s, i);
    assert Keys(es[i], key) * Keys(es[j], key) == Keys(es[j], key) * Keys(es[i], key);
  }

  // ---- Which groups are reported ----

  ghost function MembersOf(g: seq<nat>, s: nat): set<nat> { set p: nat | p < |g| && g[p] == s }

  ghost function MembersNamed(names: seq<string>, g: seq<nat>, s: nat, name: string): set<nat>
    requires |names| == |g|
  {
    set p: nat | p < |g| && g[p] == s && names[p] == name
  }

  /** The group has the names of all entries with number s, as often as there are such entries, in
      order, and the ID that belongs to these names. */
  ghost predicate IsGroupOf(gid: GroupIdOf, names: seq<string>, g: seq<nat>, s: nat, group: IdentityGroup)
    requires |names| == |g|
  {
    && group.groupId == gid(group.names) && SortedBy(TextLe, group.names)
    && (forall name :: multiset(group.names)[name] == |MembersNamed(names, g, s, name)|)
  }

  /** The numbers that at least two entries have. */
  ghost function SharedNumbers(g: seq<nat>): set<nat> { set s: nat | s in g && |MembersOf(g, s)| >= 2 }

  ghost function NumbersOf(gid: GroupIdOf, names: seq<string>, g: seq<nat>, group: IdentityGroup): set<nat>
    requires |names| == |g|
  {
    set s | s in SharedNumbers(g) && IsGroupOf(gid, names, g, s, group)
  }

  /** There is one group for every number that at least two entries have, and no other. */
  ghost predicate ReportsGroups(gid: GroupIdOf, names: seq<string>, g: seq<nat>, groups: seq<IdentityGroup>)
    requires |names| == |g|
  {
    && SortedBy(GroupLe, groups)
    && (forall group :: multiset(groups)[group] == |NumbersOf(gid, names, g, group)|)
  }

  lemma {:induction false} GatherCounts(names: seq<string>, g: seq<nat>, s: nat, n: nat, name: string)
    requires n <= |names| == |g|
    ensures multiset(Gather(Singles(names), g, s, n))[name] == |set p: nat | p < n && g[p] == s && names[p] == name|
  {
    if n > 0 {
      GatherCounts(names, g, s, n - 1, name);
      var fewer, all := set p: nat | p < n - 1 && g[p] == s && names[p] == name, set p: nat | p < n && g[p] == s && names[p] == name;
      if g[n - 1] == s && names[n - 1] == name { assert all == fewer + {n - 1}; } else { assert all == fewer; }
    }
  }

  lemma {:induction false} GatherSize(names: seq<string>, g: seq<nat>, s: nat, n: nat)
    requires n <= |names| == |g|
    ensures |Gather(Singles(names), g, s, n)| == |set p: nat | p < n && g[p] == s|
  {
    if n > 0 {
      GatherSize(names, g, s, n - 1);
      var fewer, all := set p: nat | p < n - 1 && g[p] == s, set p: nat | p < n && g[p] == s;
      if g[n - 1] == s { assert all == fewer + {n - 1}; } else { assert all == fewer; }
    }
  }

  lemma {:induction false} GatheredMembers(names: seq<string>, g: seq<nat>, s: nat)
    requires |names| == |g|
    ensures forall name :: multiset(Gather(Singles(names), g, s, |g|))[name] == |MembersNamed(names, g, s, name)|
    ensures |Gather(Singles(names), g, s, |g|)| == |MembersOf(g, s)|
  {
    hide Gather;
    forall name ensures multiset(Gather(Singles(names), g, s, |g|))[name] == |MembersNamed(names, g, s, name)| {
      GatherCounts(names, g, s, |g|, name);
      assert MembersNamed(names, g, s, name) == set p: nat | p < |g| && g[p] == s && names[p] == name;
    }
    GatherSize(names, g, s, |g|);
    assert MembersOf(g, s) == set p: nat | p < |g| && g[p] == s;
  }

  lemma {:induction false} NoMembers(g: seq<nat>, s: nat)
    requires s !in g
    ensures |MembersOf(g, s)| == 0
  {
    assert MembersOf(g, s) == {};
  }

  /** A number has a group exactly if two entries have it, and then the group is theirs. */
  lemma {:induction false} GroupAtMembers(gid: GroupIdOf, names: seq<string>, g: seq<nat>, s: nat, group: IdentityGroup)
    requires |names| == |g|
    ensures |GroupAt(gid, Singles(names), g, s)| <= 1
    ensures group in GroupAt(gid, Singles(names), g, s) <==> s in NumbersOf(gid, names, g, group)
  {
    hide SortBy, Gather, MembersOf, MembersNamed, TextLe;
    GatheredMembers(names, g, s);
    var gathered := Gather(Singles(names), g, s, |g|);
    SortByMembers(TextLe, gathered);
    TextOrders();
    SortBySorts(TextLe, gathered);
    if s !in g { NoMembers(g, s); }
    if s in NumbersOf(gid, names, g, group) {
      assert forall name :: multiset(group.names)[name] == multiset(gathered)[name];
      SortedUnique(TextLe, group.names, SortBy(TextLe, gathered));
    }
  }

  lemma {:induction false} OneAtMost(list: seq<IdentityGroup>, group: IdentityGroup)
    requires |list| <= 1
    ensures multiset(list)[group] == if group in list then 1 else 0
  {
    assert list == [] || list == [list[0]];
  }

  lemma {:induction false} EmitCounts(gid: GroupIdOf, names: seq<string>, g: seq<nat>, k: nat, group: IdentityGroup)
    requires k <= |names| == |g|
    ensures multiset(Emit(gid, Singles(names), g, k))[group] == |set s | s in NumbersOf(gid, names, g, group) && s < k|
  {
    hide GroupAt, NumbersOf, Emit;
    var numbers := NumbersOf(gid, names, g, group);
    EmitUnfolds(gid, Singles(names), g, k);
    if k == 0 {
      assert (set s | s in numbers && s < 0) == {};
    } else {
      EmitCounts(gid, names, g, k - 1, group);
      GroupAtMembers(gid, names, g, k - 1, group);
      var fewer, all := set s | s in numbers && s < k - 1, set s | s in numbers && s < k;
      var last := GroupAt(gid, Singles(names), g, k - 1);
      OneAtMost(last, group);
      if group in last { assert all == fewer + {k - 1}; } else { assert all == fewer; }
    }
  }

  lemma {:induction false} NumbersInBounds(es: seq<AliasEntry>, key: CanonicalKey)
    ensures forall p | 0 <= p < |es| :: GroupNumbers(es, key)[p] <= p
  {
    CoverIsFirstFit(KeyAdjacency(es, key), |es|);
    forall p | 0 <= p < |es| ensures GroupNumbers(es, key)[p] <= p {
      assert FitsFirst(KeyAdjacency(es, key), GroupNumbers(es, key), p);
    }
  }

  lemma {:induction false} GroupOrder()
    ensures forall a, b :: GroupLe(a, b) || GroupLe(b, a)
    ensures forall a, b, c | GroupLe(a, b) && GroupLe(b, c) :: GroupLe(a, c)
  {
    hide TextsLe;
    TextOrders();
  }

  /** The groups reported are exactly those: one for every number that two entries or more have, with the
      names of all of them and the ID of these names, in the order of the names. */
  lemma {:induction false} ExactGroupsAre(gid: GroupIdOf, key: CanonicalKey, entries: seq<AliasEntry>)
    ensures var es := SortBy(EntryLe, entries);
      ReportsGroups(gid, NamesOf(es), GroupNumbers(es, key), ExactGroups(gid, key, entries))
  {
    hide SortBy, Emit, NumbersOf, GroupLe, GroupNumbers;
    var es := SortBy(EntryLe, entries);
    var names, g := NamesOf(es), GroupNumbers(es, key);
    var emitted := Emit(gid, Singles(names), g, |es|);
    GroupOrder();
    SortBySorts(GroupLe, emitted);
    NumbersInBounds(es, key);
    forall group ensures multiset(emitted)[group] == |NumbersOf(gid, names, g, group)| {
      EmitCounts(gid, names, g, |es|, group);
      NumbersStand(gid, names, g, group);
      assert NumbersOf(gid, names, g, group) == set s | s in NumbersOf(gid, names, g, group) && s < |es|;
    }
  }

  lemma {:induction false} NumbersStand(gid: GroupIdOf, names: seq<string>, g: seq<nat>, group: IdentityGroup)
    requires |names| == |g|
    ensures forall s | s in NumbersOf(gid, names, g, group) :: s in g
  {
  }

  /** Two entries with one number are named together in a reported group. */
  lemma {:induction false} GroupedAreReported(gid: GroupIdOf, key: CanonicalKey, entries: seq<AliasEntry>, i: nat, j: nat)
    returns (group: IdentityGroup)
    requires var es := SortBy(EntryLe, entries);
      i < j < |es| && GroupNumbers(es, key)[i] == GroupNumbers(es, key)[j]
    ensures group in ExactGroups(gid, key, entries) && group.groupId == gid(group.names)
    ensures var es := SortBy(EntryLe, entries);
      es[i].name in group.names && es[j].name in group.names
  {
    hide SortBy, ExactGroups, GroupNumbers, Gather, TextLe;
    var es := SortBy(EntryLe, entries);
    var names, g := NamesOf(es), GroupNumbers(es, key);
    var s := g[i];
    ExactGroupsAre(gid, key, entries);
    GatheredMembers(names, g, s);
    var gathered := Gather(Singles(names), g, s, |g|);
    TextOrders();
    SortBySorts(TextLe, gathered);
    group := IdentityGroup(gid(SortBy(TextLe, gathered)), SortBy(TextLe, gathered));
    TwoMembers(g, i, j);
    assert s in NumbersOf(gid, names, g, group);
    assert multiset(ExactGroups(gid, key, entries))[group] > 0;
    assert i in MembersNamed(names, g, s, names[i]) && j in MembersNamed(names, g, s, names[j]);
    assert multiset(group.names)[names[i]] > 0 && multiset(group.names)[names[j]] > 0;
  }

  lemma {:induction false} TwoMembers(g: seq<nat>, i: nat, j: nat)
    requires i < j < |g| && g[i] == g[j]
    ensures |MembersOf(g, g[i])| >= 2
  {
    assert {i, j} <= MembersOf(g, g[i]);
    assert MembersOf(g, g[i]) == {i, j} + (MembersOf(g, g[i]) - {i, j});
  }

  /** A reported group has the names of at least two entries that share their number. */
  lemma {:induction false} ReportedAreGrouped(gid: GroupIdOf, key: CanonicalKey, entries: seq<AliasEntry>, group: IdentityGroup)
    returns (s: nat)
    requires group in ExactGroups(gid, key, entries)
    ensures var es := SortBy(EntryLe, entries);
      |MembersOf(GroupNumbers(es, key), s)| >= 2 && IsGroupOf(gid, NamesOf(es), GroupNumbers(es, key), s, group)
  {
    hide SortBy, ExactGroups, GroupNumbers, IsGroupOf, MembersOf;
    var es := SortBy(EntryLe, entries);
    ExactGroupsAre(gid, key, entries);
    assert multiset(ExactGroups(gid, key, entries))[group] > 0;
    s :| s in NumbersOf(gid, NamesOf(es), GroupNumbers(es, key), group);
  }

  /** The order in which entries are taken: by name, and under one name by IDs. */
  lemma {:induction false} EntriesByName(entries: seq<AliasEntry>, i: nat, j: nat)
    requires i < j < |SortBy(EntryLe, entries)|
    ensures var es := SortBy(EntryLe, entries);
      TextLe(es[i].name, es[j].name) && (es[i].name == es[j].name ==> TextsLe(es[i].ids, es[j].ids))
  {
    hide SortBy, TextLe, TextsLe;
    EntryOrder();
    TextOrders();
    SortBySorts(EntryLe, entries);
  }

  /** A suggestion has the two names in their order. */
  lemma {:induction false} NamesInOrder(a: string, b: string)
    ensures TextLe(MinText(a, b), MaxText(a, b))
    ensures (MinText(a, b) == a && MaxText(a, b) == b) || (MinText(a, b) == b && MaxText(a, b) == a)
  {
    hide TextLe;
    TextOrders();
  }

  /** Neither the order of the entries nor that of equal ones changes the groups. */
  lemma {:induction false} ExactGroupsIgnoreInputOrder(gid: GroupIdOf, key: CanonicalKey,
    entries: seq<AliasEntry>, shuffled: seq<AliasEntry>)
    requires multiset(entries) == multiset(shuffled)
    ensures ExactGroups(gid, key, entries) == ExactGroups(gid, key, shuffled)
  {
    EntryOrder();
    SortByCanonical(EntryLe, entries, shuffled);
  }

  // ---- Compressing entries into clusters keeps the groups ----

  /** The names of the first k items of class c, in item order. */
  function ClassNames(names: seq<string>, f: seq<int>, c: int, k: nat): seq<string>
    requires k <= |names| && k <= |f|
  {
    if k == 0 then []
    else if f[k - 1] == c then ClassNames(names, f, c, k - 1) + [names[k - 1]]
    else ClassNames(names, f, c, k - 1)
  }

  lemma {:induction false} ClassNamesExtend(names: seq<string>, f: seq<int>, x: int, c: int, k: nat)
    requires k <= |names| && k <= |f|
    ensures ClassNames(names, f + [x], c, k) == ClassNames(names, f, c, k)
  {
    if k > 0 { ClassNamesExtend(names, f, x, c, k - 1); }
  }

  lemma {:induction false} NoClassNames(names: seq<string>, f: seq<int>, c: int, k: nat)
    requires k <= |names| && k <= |f|
    requires forall i | 0 <= i < k :: f[i] != c
    ensures ClassNames(names, f, c, k) == []
  {
    if k > 0 { NoClassNames(names, f, c, k - 1); }
  }

  ghost function ClassLists(names: seq<string>, f: seq<int>, m: nat, k: nat): (lists: seq<seq<string>>)
    requires k <= |names| && k <= |f|
    ensures |lists| == m
    ensures forall c | 0 <= c < m :: lists[c] == ClassNames(names, f, c, k)
  {
    seq(m, c requires 0 <= c < m => ClassNames(names, f, c, k))
  }

  lemma {:induction false} GatherOneMore(lists: seq<seq<string>>, h: seq<nat>, d: nat, n: nat, x: nat, name: string)
    requires n <= |lists| && n <= |h| && x < |lists|
    ensures x < n && h[x] == d ==>
      multiset(Gather(lists[x := lists[x] + [name]], h, d, n)) == multiset(Gather(lists, h, d, n)) + multiset{name}
    ensures !(x < n && h[x] == d) ==>
      Gather(lists[x := lists[x] + [name]], h, d, n) == Gather(lists, h, d, n)
  {
    if n > 0 {
      GatherOneMore(lists, h, d, n - 1, x, name);
      if h[n - 1] == d && x == n - 1 {
        var before := Gather(lists, h, d, n - 1);
        assert before + (lists[x] + [name]) == (before + lists[x]) + [name];
      }
    }
  }

  /** f, first and h describe a compression whose cover is h, as far as gathering needs. */
  ghost predicate Liftable(names: seq<string>, h: seq<nat>, f: seq<int>, first: seq<nat>) {
    && |f| == |names| && |first| == |h|
    && (forall i | 0 <= i < |f| :: -1 <= f[i] < |h|)
    && (forall c | 0 <= c < |h| :: h[c] < |h| && first[c] < |f| && f[first[c]] == c)
    && (forall i | 0 <= i < |f| && 0 <= f[i] :: first[f[i]] <= i)
    && (forall c, d | 0 <= c < d < |h| :: first[c] < first[d])
  }

  lemma {:induction false} GatherLifted(names: seq<string>, h: seq<nat>, f: seq<int>, first: seq<nat>, d: nat, k: nat)
    requires Liftable(names, h, f, first) && d < |h| && k <= |names|
    ensures multiset(Gather(Singles(names), Lifted(h, f, first), first[d], k)) ==
      multiset(Gather(ClassLists(names, f, |h|, k), h, d, |h|))
  {
    hide ClassNames, Liftable;
    LiftableBounds(names, h, f, first);
    var g := Lifted(h, f, first);
    if k == 0 {
      NoClassLists(names, f, |h|);
      GatherEmpty(ClassLists(names, f, |h|, 0), h, d, |h|);
    } else {
      GatherLifted(names, h, f, first, d, k - 1);
      ClassListsStep(names, f, |h|, k);
      LiftedMember(names, h, f, first, d, k - 1);
      if 0 <= f[k - 1] {
        GatherOneMore(ClassLists(names, f, |h|, k - 1), h, d, |h|, f[k - 1], names[k - 1]);
      }
    }
  }

  lemma {:induction false} LiftableBounds(names: seq<string>, h: seq<nat>, f: seq<int>, first: seq<nat>)
    requires Liftable(names, h, f, first)
    ensures |f| == |names| && |first| == |h|
    ensures forall i | 0 <= i < |f| :: f[i] < |h|
    ensures forall c | 0 <= c < |h| :: h[c] < |first|
  {}

  /** An item is lifted to the group of class d exactly when its class is in that group. */
  lemma {:induction false} LiftedMember(names: seq<string>, h: seq<nat>, f: seq<int>, first: seq<nat>, d: nat, i: nat)
    requires Liftable(names, h, f, first) && d < |h| && i < |f|
    ensures Lifted(h, f, first)[i] == first[d] <==> 0 <= f[i] && h[f[i]] == d
  {
    assert f[first[d]] == d;
    if 0 <= f[i] { assert f[first[h[f[i]]]] == h[f[i]]; }
  }

  lemma {:induction false} NoClassLists(names: seq<string>, f: seq<int>, m: nat)
    ensures forall c | 0 <= c < m :: ClassLists(names, f, m, 0)[c] == []
  {}

  lemma {:induction false} ClassListsStep(names: seq<string>, f: seq<int>, m: nat, k: nat)
    requires 0 < k <= |names| && k <= |f| && f[k - 1] < m
    ensures var lists := ClassLists(names, f, m, k - 1);
      ClassLists(names, f, m, k) ==
        if 0 <= f[k - 1] then lists[f[k - 1] := lists[f[k - 1]] + [names[k - 1]]] else lists
  {}

  lemma {:induction false} GatherEmpty(lists: seq<seq<string>>, h: seq<nat>, d: nat, n: nat)
    requires n <= |lists| && n <= |h|
    requires forall c | 0 <= c < n && h[c] == d :: lists[c] == []
    ensures Gather(lists, h, d, n) == []
  {
    if n > 0 { GatherEmpty(lists, h, d, n - 1); }
  }

  /** An item that is not the first of its class names at most itself. */
  lemma {:induction false} GatherOther(names: seq<string>, g: seq<nat>, s: nat, n: nat)
    requires n <= |names| == |g|
    requires forall i | 0 <= i < n && g[i] == s :: i == s
    ensures |Gather(Singles(names), g, s, n)| <= if s < n then 1 else 0
  {
    if n > 0 { GatherOther(names, g, s, n - 1); }
  }

  lemma {:induction false} GroupAtFirst(gid: GroupIdOf, names: seq<string>, h: seq<nat>, f: seq<int>, first: seq<nat>, d: nat)
    requires Liftable(names, h, f, first) && d < |h|
    ensures GroupAt(gid, Singles(names), Lifted(h, f, first), first[d]) ==
      GroupAt(gid, ClassLists(names, f, |h|, |names|), h, d)
  {
    hide SortBy;
    hide Gather;
    GatherLifted(names, h, f, first, d, |names|);
    TextOrders();
    SortByCanonical(TextLe, Gather(Singles(names), Lifted(h, f, first), first[d], |names|),
      Gather(ClassLists(names, f, |h|, |names|), h, d, |h|));
  }

  lemma {:induction false} GroupAtOther(gid: GroupIdOf, names: seq<string>, h: seq<nat>, f: seq<int>, first: seq<nat>, s: nat)
    requires Liftable(names, h, f, first) && s < |names| && s !in first
    ensures GroupAt(gid, Singles(names), Lifted(h, f, first), s) == []
  {
    hide SortBy;
    hide Gather;
    var g := Lifted(h, f, first);
    assert forall i | 0 <= i < |names| && 0 <= f[i] :: g[i] == first[h[f[i]]] && g[i] in first;
    GatherOther(names, g, s, |names|);
    SortByMembers(TextLe, Gather(Singles(names), g, s, |names|));
  }

  lemma {:induction false} EmitUnfolds(gid: GroupIdOf, lists: seq<seq<string>>, g: seq<nat>, s: nat)
    requires s <= |lists| == |g|
    ensures Emit(gid, lists, g, 0) == []
    ensures s > 0 ==> Emit(gid, lists, g, s) == Emit(gid, lists, g, s - 1) + GroupAt(gid, lists, g, s - 1)
  {}

  /** Emitting skips the numbers that have no group. */
  lemma {:induction false} EmitSkips(gid: GroupIdOf, lists: seq<seq<string>>, g: seq<nat>,
    others: seq<seq<string>>, h: seq<nat>, first: seq<nat>, s: nat, d: nat)
    requires |lists| == |g| && |others| == |h| == |first| && s <= |g| && d <= |h|
    requires forall c | 0 <= c < |h| :: first[c] < |g| && GroupAt(gid, lists, g, first[c]) == GroupAt(gid, others, h, c)
    requires forall t: nat | t < |g| && t !in first :: GroupAt(gid, lists, g, t) == []
    requires forall c, e | 0 <= c < e < |h| :: first[c] < first[e]
    requires forall c | 0 <= c < |h| :: c < d <==> first[c] < s
    ensures Emit(gid, lists, g, s) == Emit(gid, others, h, d)
    decreases s
  {
    hide GroupAt, Emit;
    EmitUnfolds(gid, lists, g, s);
    EmitUnfolds(gid, others, h, d);
    if s == 0 {
      var least := if |h| > 0 then first[0] else 0;
    } else if d > 0 && first[d - 1] == s - 1 {
      EmitSkips(gid, lists, g, others, h, first, s - 1, d - 1);
    } else {
      assert forall c | 0 <= c < d - 1 :: first[c] < first[d - 1];
      EmitSkips(gid, lists, g, others, h, first, s - 1, d);
      assert s - 1 !in first;
    }
  }

  /** Grouping the clusters emits the groups of the entries. */
  lemma {:induction false} CompressionKeepsGroups(gid: GroupIdOf, names: seq<string>, h: seq<nat>, f: seq<int>, first: seq<nat>)
    requires Liftable(names, h, f, first)
    ensures Emit(gid, Singles(names), Lifted(h, f, first), |names|) ==
      Emit(gid, ClassLists(names, f, |h|, |names|), h, |h|)
  {
    hide GroupAt, Emit;
    var g := Lifted(h, f, first);
    var lists := ClassLists(names, f, |h|, |names|);
    forall c | 0 <= c < |h|
      ensures GroupAt(gid, Singles(names), g, first[c]) == GroupAt(gid, lists, h, c)
    {
      GroupAtFirst(gid, names, h, f, first, c);
    }
    forall t: nat | t < |g| && t !in first ensures GroupAt(gid, Singles(names), g, t) == [] {
      GroupAtOther(gid, names, h, f, first, t);
    }
    EmitSkips(gid, Singles(names), g, lists, h, first, |names|, |h|);
  }
}
