/** The entities of a library that replaces another: names joined by parent links, and the
    connected components they make. */
module LibraryComponents {

  type Parents = map<string, string>

  ghost function All(names: seq<string>): set<string> { set n | n in names }

  // ---- What it means to belong together ----

  /** Some list holds both names. */
  ghost predicate Linked(names: set<string>, lists: seq<seq<string>>, a: string, b: string) {
    a in names && b in names && exists list :: list in lists && a in list && b in list
  }

  ghost predicate Chain(names: set<string>, lists: seq<seq<string>>, path: seq<string>) {
    forall k | 0 <= k < |path| - 1 :: Linked(names, lists, path[k], path[k + 1])
  }

  ghost predicate ChainFrom(names: set<string>, lists: seq<seq<string>>, path: seq<string>, a: string, b: string) {
    path != [] && path[0] == a && path[|path| - 1] == b && Chain(names, lists, path)
  }

  /** A chain of names leads from one to the other, each with the next in some list. */
  ghost predicate Connected(names: set<string>, lists: seq<seq<string>>, a: string, b: string) {
    exists path :: ChainFrom(names, lists, path, a, b)
  }

  lemma {:induction false} ConnectedSelf(names: set<string>, lists: seq<seq<string>>, a: string)
    ensures Connected(names, lists, a, a)
  {
    assert ChainFrom(names, lists, [a], a, a);
  }

  lemma {:induction false} LinkedConnects(names: set<string>, lists: seq<seq<string>>, a: string, b: string)
    requires Linked(names, lists, a, b)
    ensures Connected(names, lists, a, b)
  {
    assert ChainFrom(names, lists, [a, b], a, b);
  }

  function Reversed(path: seq<string>): (r: seq<string>)
    ensures |r| == |path| && forall k | 0 <= k < |path| :: r[k] == path[|path| - 1 - k]
  {
    seq(|path|, k requires 0 <= k < |path| => path[|path| - 1 - k])
  }

  lemma {:induction false} ConnectedBack(names: set<string>, lists: seq<seq<string>>, a: string, b: string)
    requires Connected(names, lists, a, b)
    ensures Connected(names, lists, b, a)
  {
    var path :| ChainFrom(names, lists, path, a, b);
    var back := Reversed(path);
    forall k | 0 <= k < |back| - 1 ensures Linked(names, lists, back[k], back[k + 1]) {
      assert Linked(names, lists, path[|path| - 2 - k], path[|path| - 1 - k]);
    }
    assert ChainFrom(names, lists, back, b, a);
  }

  lemma {:induction false} ConnectedOn(names: set<string>, lists: seq<seq<string>>, a: string, b: string, c: string)
    requires Connected(names, lists, a, b) && Connected(names, lists, b, c)
    ensures Connected(names, lists, a, c)
  {
    hide Linked;
    var p :| ChainFrom(names, lists, p, a, b);
    var q :| ChainFrom(names, lists, q, b, c);
    var path := p + q[1..];
    forall k | 0 <= k < |path| - 1 ensures Linked(names, lists, path[k], path[k + 1]) {
      if k >= |p| - 1 {
        var j := k - (|p| - 1);
        assert path[k] == q[j] && path[k + 1] == q[j + 1];
      }
    }
    assert ChainFrom(names, lists, path, a, c);
  }

  lemma {:induction false} ConnectedStill(names: set<string>, lists: seq<seq<string>>, more: seq<string>, a: string, b: string)
    requires Connected(names, lists, a, b)
    ensures Connected(names, lists + [more], a, b)
  {
    var path :| ChainFrom(names, lists, path, a, b);
    forall k | 0 <= k < |path| - 1 ensures Linked(names, lists + [more], path[k], path[k + 1]) {
      assert Linked(names, lists, path[k], path[k + 1]);
      var list :| list in lists && path[k] in list && path[k + 1] in list;
      assert list in lists + [more];
    }
    assert ChainFrom(names, lists + [more], path, a, b);
  }

  // ---- Parent links ----

  /** The link of a name leads towards the root of its tree, and ever less deep. */
  ghost predicate LinkFits(parent: Parents, root: map<string, string>, depth: map<string, nat>, n: string) {
    && n in parent && n in root && n in depth
    && parent[n] in parent && parent[n] in root && parent[n] in depth && root[n] in parent
    && root[parent[n]] == root[n] && parent[root[n]] == root[n]
    && (if parent[n] == n then root[n] == n else depth[parent[n]] < depth[n])
  }

  ghost predicate Forest(parent: Parents, root: map<string, string>, depth: map<string, nat>) {
    && parent.Keys == root.Keys == depth.Keys
    && forall n | n in parent :: LinkFits(parent, root, depth, n)
  }

  /** Follow the links up to the root. */
  method FindRoot(parent: Parents, from: string, ghost root: map<string, string>, ghost depth: map<string, nat>)
    returns (name: string)
    requires Forest(parent, root, depth) && from in parent
    ensures name == root[from]
  {
    name := from;
    while parent[name] != name
      invariant name in parent && root[name] == root[from]
      decreases depth[name]
    {
      assert LinkFits(parent, root, depth, name);
      name := parent[name];
    }
    assert LinkFits(parent, root, depth, name);
  }

  ghost function Reroot(root: map<string, string>, lower: string, upper: string): map<string, string> {
    map n | n in root :: if root[n] == lower then upper else root[n]
  }

  ghost function Deepen(root: map<string, string>, depth: map<string, nat>, lower: string, extra: nat): map<string, nat>
    requires root.Keys == depth.Keys
  {
    map n | n in root :: if root[n] == lower then depth[n] + extra else depth[n]
  }

  lemma {:induction false} RootOfRoot(parent: Parents, root: map<string, string>, depth: map<string, nat>, n: string)
    requires Forest(parent, root, depth) && n in parent
    ensures root[n] in parent && root[root[n]] == root[n]
  {
    assert LinkFits(parent, root, depth, n) && LinkFits(parent, root, depth, root[n]);
  }

  lemma {:induction false} LinkStillFits(parent: Parents, root: map<string, string>, depth: map<string, nat>, lower: string,
    upper: string, n: string)
    requires LinkFits(parent, root, depth, n) && LinkFits(parent, root, depth, lower) && LinkFits(parent, root, depth, upper)
    requires LinkFits(parent, root, depth, parent[n]) && LinkFits(parent, root, depth, root[n])
    requires root[lower] == lower && root[upper] == upper && lower != upper && root.Keys == depth.Keys
    ensures LinkFits(parent[lower := upper], Reroot(root, lower, upper), Deepen(root, depth, lower, depth[upper] + 1), n)
  {
  }

  lemma {:induction false} RootsJoin(parent: Parents, root: map<string, string>, depth: map<string, nat>, lower: string, upper: string)
    requires Forest(parent, root, depth) && lower in parent && upper in parent
    requires root[lower] == lower && root[upper] == upper
    ensures lower == upper ==> Forest(parent[lower := upper], root, depth)
    ensures lower != upper ==>
      Forest(parent[lower := upper], Reroot(root, lower, upper), Deepen(root, depth, lower, depth[upper] + 1))
  {
    hide LinkFits, Reroot, Deepen;
    if lower == upper {
      SelfLink(parent, root, depth, lower);
    } else {
      KeysOfReroot(root, depth, lower, upper, depth[upper] + 1);
      KeysStay(parent, lower, upper);
      forall n | n in parent
        ensures LinkFits(parent[lower := upper], Reroot(root, lower, upper), Deepen(root, depth, lower, depth[upper] + 1), n)
      {
        LinkKnown(parent, root, depth, n);
        LinkStillFits(parent, root, depth, lower, upper, n);
      }
    }
  }

  lemma {:induction false} LinkKnown(parent: Parents, root: map<string, string>, depth: map<string, nat>, n: string)
    requires LinkFits(parent, root, depth, n)
    ensures parent[n] in parent && root[n] in parent
  {
  }

  lemma {:induction false} SelfLink(parent: Parents, root: map<string, string>, depth: map<string, nat>, n: string)
    requires Forest(parent, root, depth) && n in parent && root[n] == n
    ensures parent[n := n] == parent
  {
    assert LinkFits(parent, root, depth, n);
  }

  lemma {:induction false} KeysOfReroot(root: map<string, string>, depth: map<string, nat>, lower: string, upper: string, extra: nat)
    requires root.Keys == depth.Keys
    ensures Reroot(root, lower, upper).Keys == root.Keys == Deepen(root, depth, lower, extra).Keys
  {
  }

  // ---- Joining lists ----

  /** The roots tell which names the lists connect. */
  ghost predicate RootsTell(names: set<string>, lists: seq<seq<string>>, root: map<string, string>) {
    && root.Keys == names
    && (forall n | n in names :: Connected(names, lists, n, root[n]))
    && (forall a, b | Linked(names, lists, a, b) :: root[a] == root[b])
  }

  lemma {:induction false} ChainSameRoot(names: set<string>, lists: seq<seq<string>>, root: map<string, string>, path: seq<string>)
    requires RootsTell(names, lists, root) && Chain(names, lists, path) && path != [] && path[0] in names
    ensures path[|path| - 1] in names && root[path[|path| - 1]] == root[path[0]]
  {
    hide Connected;
    if |path| > 1 {
      assert Linked(names, lists, path[0], path[1]);
      forall k | 0 <= k < |path[1..]| - 1 ensures Linked(names, lists, path[1..][k], path[1..][k + 1]) {
        assert Linked(names, lists, path[k + 1], path[k + 2]);
      }
      ChainSameRoot(names, lists, root, path[1..]);
    }
  }

  /** Two names have one root exactly when they are connected. */
  lemma {:induction false} SameRootMeansConnected(names: set<string>, lists: seq<seq<string>>, root: map<string, string>, a: string, b: string)
    requires RootsTell(names, lists, root) && a in names && b in names
    ensures root[a] == root[b] <==> Connected(names, lists, a, b)
  {
    if Connected(names, lists, a, b) {
      var path :| ChainFrom(names, lists, path, a, b);
      ChainSameRoot(names, lists, root, path);
    } else if root[a] == root[b] {
      ConnectedBack(names, lists, b, root[b]);
      ConnectedOn(names, lists, a, root[a], b);
    }
  }

  /** Where joining one list stands: the names seen so far have the root of the first. */
  ghost predicate Joining(names: set<string>, lists: seq<seq<string>>, list: seq<string>, i: nat, first: string,
    root: map<string, string>)
  {
    && i <= |list| && root.Keys == names
    && (forall n | n in names :: Connected(names, lists + [list], n, root[n]))
    && (forall a, b | Linked(names, lists, a, b) :: root[a] == root[b])
    && (first == "" ==> forall n | n in list[..i] :: n !in names)
    && (first != "" ==> first in list && first in names && forall n | n in list[..i] && n in names :: root[n] == root[first])
  }

  lemma {:induction false} JoiningStarts(names: set<string>, lists: seq<seq<string>>, list: seq<string>, root: map<string, string>)
    requires RootsTell(names, lists, root)
    ensures Joining(names, lists, list, 0, "", root)
  {
    hide Connected, Linked;
    forall n | n in names ensures Connected(names, lists + [list], n, root[n]) {
      ConnectedStill(names, lists, list, n, root[n]);
    }
  }

  lemma {:induction false} JoiningEnds(names: set<string>, lists: seq<seq<string>>, list: seq<string>, first: string,
    root: map<string, string>)
    requires Joining(names, lists, list, |list|, first, root)
    ensures RootsTell(names, lists + [list], root)
  {
    hide Connected;
    assert list[..|list|] == list;
    forall a, b | Linked(names, lists + [list], a, b) ensures root[a] == root[b] {
      var common :| common in lists + [list] && a in common && b in common;
      if common in lists { assert Linked(names, lists, a, b); }
    }
  }

  lemma {:induction false} JoiningSkips(names: set<string>, lists: seq<seq<string>>, list: seq<string>, i: nat, first: string,
    root: map<string, string>)
    requires Joining(names, lists, list, i, first, root) && i < |list| && "" !in names
    ensures list[i] !in names ==> Joining(names, lists, list, i + 1, first, root)
    ensures list[i] in names && first == "" ==> Joining(names, lists, list, i + 1, list[i], root)
  {
    hide Connected, Linked;
    assert list[..i + 1] == list[..i] + [list[i]];
  }

  lemma {:induction false} JoiningJoins(names: set<string>, lists: seq<seq<string>>, list: seq<string>, i: nat, first: string,
    root: map<string, string>)
    requires Joining(names, lists, list, i, first, root) && i < |list| && first != "" && list[i] in names
    ensures Joining(names, lists, list, i + 1, first, Reroot(root, root[list[i]], root[first]))
    ensures root[list[i]] == root[first] ==> Joining(names, lists, list, i + 1, first, root)
  {
    hide Connected, Linked;
    var n, lower, upper := list[i], root[list[i]], root[first];
    assert list[..i + 1] == list[..i] + [n];
    var after := Reroot(root, lower, upper);
    forall m | m in names ensures Connected(names, lists + [list], m, after[m]) {
      if root[m] == lower { RerootConnects(names, lists + [list], list, m, n, first, root); }
    }
  }

  lemma {:induction false} RerootConnects(names: set<string>, lists: seq<seq<string>>, list: seq<string>, m: string, n: string,
    first: string, root: map<string, string>)
    requires list in lists && n in list && first in list && n in names && first in names && m in names
    requires root.Keys == names && root[m] == root[n]
    requires forall k | k in names :: Connected(names, lists, k, root[k])
    ensures Connected(names, lists, m, root[first])
  {
    hide Connected;
    assert Linked(names, lists, n, first);
    LinkedConnects(names, lists, n, first);
    ConnectedBack(names, lists, n, root[n]);
    ConnectedOn(names, lists, m, root[m], n);
    ConnectedOn(names, lists, m, n, first);
    ConnectedOn(names, lists, m, first, root[first]);
  }

  /** Join the names of one list that the library has. */
  method JoinList(parent: Parents, list: seq<string>, ghost names: set<string>, ghost lists: seq<seq<string>>,
    ghost root: map<string, string>, ghost depth: map<string, nat>)
    returns (parent': Parents, ghost root': map<string, string>, ghost depth': map<string, nat>)
    requires Forest(parent, root, depth) && RootsTell(names, lists, root) && parent.Keys == names && "" !in names
    ensures Forest(parent', root', depth') && RootsTell(names, lists + [list], root') && parent'.Keys == names
  {
    hide Forest, RootsTell, Joining, Reroot, Deepen;
    parent', root', depth' := parent, root, depth;
    var first := "";
    JoiningStarts(names, lists, list, root);
    for i := 0 to |list|
      invariant Forest(parent', root', depth') && parent'.Keys == names
      invariant Joining(names, lists, list, i, first, root')
    {
      var n := list[i];
      JoiningSkips(names, lists, list, i, first, root');
      if n !in parent' { continue; }
      if first == "" {
        first := n;
      } else {
        FirstIsKnown(names, lists, list, i, first, root');
        var lower := FindRoot(parent', n, root', depth');
        var upper := FindRoot(parent', first, root', depth');
        RootsAreRoots(parent', root', depth');
        RootsJoin(parent', root', depth', lower, upper);
        JoiningJoins(names, lists, list, i, first, root');
        KeysStay(parent', lower, upper);
        if lower != upper { root', depth' := Reroot(root', lower, upper), Deepen(root', depth', lower, depth'[upper] + 1); }
        parent' := parent'[lower := upper];
      }
    }
    JoiningEnds(names, lists, list, first, root');
  }

  lemma {:induction false} FirstIsKnown(names: set<string>, lists: seq<seq<string>>, list: seq<string>, i: nat, first: string,
    root: map<string, string>)
    requires Joining(names, lists, list, i, first, root) && first != ""
    ensures first in names
  {
    hide Connected, Linked;
  }

  lemma {:induction false} RootsAreRoots(parent: Parents, root: map<string, string>, depth: map<string, nat>)
    requires Forest(parent, root, depth)
    ensures parent.Keys == root.Keys == depth.Keys
    ensures forall n | n in parent :: root[n] in parent && root[root[n]] == root[n]
  {
    hide LinkFits;
    forall n | n in parent ensures root[n] in parent && root[root[n]] == root[n] { RootOfRoot(parent, root, depth, n); }
  }

  lemma {:induction false} KeysStay(parent: Parents, lower: string, upper: string)
    requires lower in parent
    ensures parent[lower := upper].Keys == parent.Keys
  {
  }

  // ---- The components ----

  /** The names with the given root, in order. */
  function Class(names: seq<string>, root: map<string, string>, r: string): seq<string> {
    if names == [] then []
    else
      var n := names[|names| - 1];
      Class(names[..|names| - 1], root, r) + OneOf(n, root, r)
  }

  function OneOf(n: string, root: map<string, string>, r: string): seq<string> {
    if n in root && root[n] == r then [n] else []
  }

  lemma {:induction false} ClassMembers(names: seq<string>, root: map<string, string>, r: string)
    ensures forall n :: n in Class(names, root, r) <==> n in names && n in root && root[n] == r
  {
    if names != [] {
      ClassMembers(names[..|names| - 1], root, r);
      assert names == names[..|names| - 1] + [names[|names| - 1]];
    }
  }

  predicate ListedInOrder(part: seq<string>, at: seq<nat>, names: seq<string>) {
    && |at| == |part|
    && (forall k | 0 <= k < |at| :: at[k] < |names| && names[at[k]] == part[k])
    && (forall k, l | 0 <= k < l < |at| :: at[k] < at[l])
  }

  lemma {:induction false} InOrderWith(part: seq<string>, at: seq<nat>, names: seq<string>, last: nat)
    requires last < |names| && ListedInOrder(part, at, names[..last])
    ensures ListedInOrder(part, at, names) && ListedInOrder(part + [names[last]], at + [last], names)
  {
  }

  lemma {:induction false} ClassInOrder(names: seq<string>, root: map<string, string>, r: string) returns (at: seq<nat>)
    ensures ListedInOrder(Class(names, root, r), at, names)
  {
    hide ListedInOrder;
    if names == [] {
      at := [];
      NothingInOrder();
    } else {
      var last := |names| - 1;
      at := ClassInOrder(names[..last], root, r);
      var front := Class(names[..last], root, r);
      InOrderWith(front, at, names, last);
      assert front + [] == front;
      if names[last] in root && root[names[last]] == r { at := at + [last]; }
    }
  }

  lemma {:induction false} NothingInOrder()
    ensures ListedInOrder([], [], [])
  {
  }

  /** Each component is one class of connected names, its names in their order; together they hold
      every name. */
  ghost predicate AreComponents(names: seq<string>, lists: seq<seq<string>>, components: map<string, seq<string>>) {
    && (forall n | n in names :: exists r :: r in components && n in components[r])
    && (forall r | r in components :: components[r] != [] && exists at :: ListedInOrder(components[r], at, names))
    && (forall r, n, m | r in components && n in components[r] && m in names ::
      m in components[r] <==> Connected(All(names), lists, n, m))
    && (forall r, q, n | r in components && q in components && n in components[r] && n in components[q] :: r == q)
  }

  /** The classes are by root, and not empty. */
  ghost predicate ByRoot(names: seq<string>, root: map<string, string>, components: map<string, seq<string>>) {
    && (forall n | n in names :: n in root)
    && (forall r :: r in components <==> exists n :: n in names && n in root && root[n] == r)
    && (forall r | r in components :: components[r] == Class(names, root, r))
  }

  lemma {:induction false} InComponent(names: seq<string>, root: map<string, string>, components: map<string, seq<string>>, r: string, n: string)
    requires ByRoot(names, root, components)
    ensures r in components && n in components[r] <==> n in names && root[n] == r
  {
    ClassMembers(names, root, r);
  }

  lemma {:induction false} ComponentInOrder(names: seq<string>, root: map<string, string>, components: map<string, seq<string>>, r: string)
    requires ByRoot(names, root, components) && r in components
    ensures components[r] != [] && exists at :: ListedInOrder(components[r], at, names)
  {
    ClassMembers(names, root, r);
    var at := ClassInOrder(names, root, r);
  }

  lemma {:induction false} ClassesAreComponents(names: seq<string>, lists: seq<seq<string>>, root: map<string, string>,
    components: map<string, seq<string>>)
    requires RootsTell(All(names), lists, root) && ByRoot(names, root, components)
    ensures AreComponents(names, lists, components)
  {
    hide Connected, RootsTell, Class, ByRoot, ListedInOrder;
    RootsKnown(All(names), lists, root);
    forall r, n ensures r in components && n in components[r] <==> n in names && root[n] == r {
      InComponent(names, root, components, r, n);
    }
    forall r | r in components ensures components[r] != [] && exists at :: ListedInOrder(components[r], at, names) {
      ComponentInOrder(names, root, components, r);
    }
    forall n | n in names ensures exists r :: r in components && n in components[r] {
      assert root[n] in components && n in components[root[n]];
    }
    forall r, n, m | r in components && n in components[r] && m in names
      ensures m in components[r] <==> Connected(All(names), lists, n, m)
    {
      SameRootMeansConnected(All(names), lists, root, n, m);
    }
    forall r, q, n | r in components && q in components && n in components[r] && n in components[q] ensures r == q {
      InComponent(names, root, components, r, n);
      InComponent(names, root, components, q, n);
    }
  }

  lemma {:induction false} RootsKnown(names: set<string>, lists: seq<seq<string>>, root: map<string, string>)
    requires RootsTell(names, lists, root)
    ensures root.Keys == names
  {
  }

  lemma {:induction false} AloneAtFirst(names: seq<string>, parent: Parents)
    requires forall n :: n in parent <==> n in names
    requires forall n | n in parent :: parent[n] == n
    ensures Forest(parent, parent, map n | n in parent :: 0)
    ensures RootsTell(All(names), [], parent)
  {
    hide Connected;
    var all := All(names);
    forall n | n in all ensures Connected(all, [], n, parent[n]) { ConnectedSelf(all, [], n); }
  }

  /** Every name is its own parent; the lists are joined one after the other; and the names are
      gathered by their roots. */
  method Components(names: seq<string>, lists: seq<seq<string>>) returns (components: map<string, seq<string>>)
    requires "" !in names
    ensures AreComponents(names, lists, components)
  {
    hide Forest, RootsTell, AreComponents, ByRoot;
    ghost var all := All(names);
    var parent: Parents := map n | n in names :: n;
    ghost var root, depth: map<string, nat> := parent, map n | n in parent :: 0;
    AloneAtFirst(names, parent);
    for i := 0 to |lists|
      invariant Forest(parent, root, depth) && RootsTell(all, lists[..i], root) && parent.Keys == all
    {
      var joined, root', depth' := JoinList(parent, lists[i], all, lists[..i], root, depth);
      parent, root, depth := joined, root', depth';
      assert lists[..i + 1] == lists[..i] + [lists[i]];
    }
    assert lists[..|lists|] == lists;
    RootsKnown(all, lists, root);
    components := map[];
    NothingByRoot(root);
    for i := 0 to |names|
      invariant ByRoot(names[..i], root, components)
    {
      var n := names[i];
      assert n in all && n in parent;
      var r := FindRoot(parent, n, root, depth);
      OneMoreByRoot(names, i, root, components);
      var before := if r in components then components[r] else [];
      components := components[r := before + [n]];
    }
    assert names[..|names|] == names;
    ClassesAreComponents(names, lists, root, components);
  }

  lemma {:induction false} NothingByRoot(root: map<string, string>)
    ensures ByRoot([], root, map[])
  {
  }

  lemma {:induction false} OneMoreByRoot(names: seq<string>, i: nat, root: map<string, string>, components: map<string, seq<string>>)
    requires i < |names| && names[i] in root && ByRoot(names[..i], root, components)
    ensures var r := root[names[i]];
      ByRoot(names[..i + 1], root, components[r := (if r in components then components[r] else []) + [names[i]]])
  {
    hide Class;
    ClassGrows(names, i, root);
    var r := root[names[i]];
    if r !in components { NoClass(names[..i], root, r); }
  }

  lemma {:induction false} ClassGrows(names: seq<string>, i: nat, root: map<string, string>)
    requires i < |names|
    ensures forall n :: n in names[..i + 1] <==> n in names[..i] || n == names[i]
    ensures forall r ::
      Class(names[..i + 1], root, r) == Class(names[..i], root, r) + OneOf(names[i], root, r)
  {
    assert names[..i + 1] == names[..i] + [names[i]];
    assert names[..i + 1][..i] == names[..i];
  }

  lemma {:induction false} NoClass(names: seq<string>, root: map<string, string>, r: string)
    requires forall n | n in names :: n in root
    ensures (forall n | n in names :: root[n] != r) ==> Class(names, root, r) == []
  {
    ClassMembers(names, root, r);
    if forall n | n in names :: root[n] != r {
      assert Class(names, root, r) == [] || Class(names, root, r)[0] in Class(names, root, r);
    }
  }
}
