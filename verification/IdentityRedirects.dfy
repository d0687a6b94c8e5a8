/** Redirects between cloud identities: every source is pointed straight at the end of its chain. */
module IdentityRedirects {
  import opened Options

  type Redirects = map<string, string>

  /** Following n redirects from x ends at e, which is not itself redirected. */
  predicate EndsIn(redirects: Redirects, x: string, e: string, n: nat)
    decreases n
  {
    if n == 0 then x == e && e !in redirects else x in redirects && EndsIn(redirects, redirects[x], e, n - 1)
  }

  ghost predicate Ends(redirects: Redirects, x: string, e: string) { exists n: nat :: EndsIn(redirects, x, e, n) }

  /** Every chain comes to an end among the identities supplied. */
  ghost predicate AllEndIn(redirects: Redirects, seen: set<string>) {
    forall x | x in redirects :: exists e :: e in seen && Ends(redirects, x, e)
  }

  /** Following n > 0 redirects from x leads to y. */
  predicate Leads(redirects: Redirects, x: string, y: string, n: nat)
    decreases n
  {
    if n == 0 then x == y else x in redirects && Leads(redirects, redirects[x], y, n - 1)
  }

  lemma {:induction false} EndIsUnique(redirects: Redirects, x: string, e: string, f: string, n: nat, k: nat)
    requires EndsIn(redirects, x, e, n) && EndsIn(redirects, x, f, k)
    ensures e == f && n == k
    decreases n
  {
    if n > 0 && k > 0 { EndIsUnique(redirects, redirects[x], e, f, n - 1, k - 1); }
  }

  lemma {:induction false} LeadsThenEnds(redirects: Redirects, x: string, y: string, e: string, n: nat, k: nat)
    requires Leads(redirects, x, y, n) && EndsIn(redirects, y, e, k)
    ensures EndsIn(redirects, x, e, n + k)
    decreases n
  {
    if n > 0 { LeadsThenEnds(redirects, redirects[x], y, e, n - 1, k); }
  }

  lemma {:induction false} EndsAfterLeading(redirects: Redirects, x: string, y: string, e: string, n: nat, k: nat)
    requires Leads(redirects, x, y, n) && EndsIn(redirects, x, e, k)
    ensures n <= k && EndsIn(redirects, y, e, k - n)
    decreases n
  {
    if n > 0 { EndsAfterLeading(redirects, redirects[x], y, e, n - 1, k - 1); }
  }

  lemma {:induction false} LeadsFurther(redirects: Redirects, x: string, y: string, n: nat)
    requires Leads(redirects, x, y, n) && y in redirects
    ensures Leads(redirects, x, redirects[y], n + 1)
    decreases n
  {
    if n > 0 { LeadsFurther(redirects, redirects[x], y, n - 1); }
  }

  /** A chain that returns to itself has no end. */
  lemma {:induction false} CycleNeverEnds(redirects: Redirects, x: string, e: string, n: nat, k: nat)
    requires n > 0 && Leads(redirects, x, x, n)
    ensures !EndsIn(redirects, x, e, k)
    decreases k
  {
    if EndsIn(redirects, x, e, k) {
      EndsAfterLeading(redirects, x, x, e, n, k);
      CycleNeverEnds(redirects, x, e, n, k - n);
    }
  }

  /** Two maps with the same sources send every chain to the same end. */
  ghost predicate SameEnds(a: Redirects, b: Redirects) {
    a.Keys == b.Keys && forall x, e :: Ends(a, x, e) <==> Ends(b, x, e)
  }

  lemma {:induction false} ShortcutKeepsEnd(redirects: Redirects, x: string, end: string, y: string, e: string, n: nat)
    requires x in redirects && Ends(redirects, x, end) && EndsIn(redirects, y, e, n)
    ensures Ends(redirects[x := end], y, e)
    decreases n
  {
    var short := redirects[x := end];
    if n == 0 {
      assert EndsIn(short, y, e, 0);
    } else if y == x {
      var k: nat :| EndsIn(redirects, x, end, k);
      EndIsUnique(redirects, x, e, end, n, k);
      EndIsFree(redirects, x, end, k);
      assert EndsIn(short, end, e, 0);
      assert EndsIn(short, y, e, 1);
    } else {
      ShortcutKeepsEnd(redirects, x, end, redirects[y], e, n - 1);
      var k: nat :| EndsIn(short, redirects[y], e, k);
      assert EndsIn(short, y, e, k + 1);
    }
  }

  lemma {:induction false} EndIsFree(redirects: Redirects, x: string, e: string, n: nat)
    requires EndsIn(redirects, x, e, n)
    ensures e !in redirects
    decreases n
  {
    if n > 0 { EndIsFree(redirects, redirects[x], e, n - 1); }
  }

  lemma {:induction false} ShortcutHadEnd(redirects: Redirects, x: string, end: string, y: string, e: string, n: nat)
    requires x in redirects && Ends(redirects, x, end) && EndsIn(redirects[x := end], y, e, n)
    ensures Ends(redirects, y, e)
    decreases n
  {
    var short := redirects[x := end];
    if n == 0 {
      assert EndsIn(redirects, y, e, 0);
    } else if y == x {
      var k: nat :| EndsIn(redirects, x, end, k);
      EndIsFree(redirects, x, end, k);
      assert EndsIn(short, end, e, n - 1);
      assert end == e;
    } else {
      ShortcutHadEnd(redirects, x, end, redirects[y], e, n - 1);
      var k: nat :| EndsIn(redirects, redirects[y], e, k);
      assert EndsIn(redirects, y, e, k + 1);
    }
  }

  /** Path compression: pointing a source at the end of its chain changes no chain's end. */
  lemma {:induction false} ShortcutSameEnds(redirects: Redirects, x: string, end: string)
    requires x in redirects && Ends(redirects, x, end)
    ensures SameEnds(redirects, redirects[x := end])
  {
    hide EndsIn;
    assert redirects[x := end].Keys == redirects.Keys;
    forall y, e ensures Ends(redirects, y, e) <==> Ends(redirects[x := end], y, e) {
      if Ends(redirects, y, e) {
        var n: nat :| EndsIn(redirects, y, e, n);
        ShortcutKeepsEnd(redirects, x, end, y, e, n);
      }
      if Ends(redirects[x := end], y, e) {
        var n: nat :| EndsIn(redirects[x := end], y, e, n);
        ShortcutHadEnd(redirects, x, end, y, e, n);
      }
    }
  }

  // ---- Walking one chain ----

  /** Each identity on the path leads on to the target. */
  ghost predicate PathLeads(redirects: Redirects, path: set<string>, target: string) {
    path <= redirects.Keys && forall p | p in path :: exists n: nat :: n > 0 && Leads(redirects, p, target, n)
  }

  lemma {:induction false} PathGrows(redirects: Redirects, path: set<string>, target: string)
    requires PathLeads(redirects, path, target) && target in redirects
    ensures PathLeads(redirects, path + {target}, redirects[target])
  {
    forall p | p in path + {target} ensures exists n: nat :: n > 0 && Leads(redirects, p, redirects[target], n) {
      if p in path {
        var n: nat :| n > 0 && Leads(redirects, p, target, n);
        LeadsFurther(redirects, p, target, n);
        assert Leads(redirects, p, redirects[target], n + 1);
      } else {
        assert Leads(redirects, redirects[target], redirects[target], 0);
        assert Leads(redirects, target, redirects[target], 1);
      }
    }
  }

  lemma {:induction false} PathEnds(redirects: Redirects, path: set<string>, target: string, p: string)
    requires PathLeads(redirects, path, target) && target !in redirects && p in path
    ensures Ends(redirects, p, target)
  {
    var n: nat :| n > 0 && Leads(redirects, p, target, n);
    assert EndsIn(redirects, target, target, 0);
    LeadsThenEnds(redirects, p, target, target, n, 0);
  }

  lemma {:induction false} PathCycles(redirects: Redirects, path: set<string>, target: string, from: string, e: string)
    requires PathLeads(redirects, path, target) && target in path && from in path
    ensures !Ends(redirects, from, e)
  {
    hide EndsIn, Leads;
    var n: nat :| n > 0 && Leads(redirects, target, target, n);
    var m: nat :| m > 0 && Leads(redirects, from, target, m);
    if Ends(redirects, from, e) {
      var k: nat :| EndsIn(redirects, from, e, k);
      EndsAfterLeading(redirects, from, target, e, m, k);
      CycleNeverEnds(redirects, target, e, n, k - m);
    }
  }

  lemma {:induction false} EndsOnce(redirects: Redirects, x: string, e: string, f: string)
    requires Ends(redirects, x, e) && Ends(redirects, x, f)
    ensures e == f
  {
    hide EndsIn;
    var n: nat :| EndsIn(redirects, x, e, n);
    var k: nat :| EndsIn(redirects, x, f, k);
    EndIsUnique(redirects, x, e, f, n, k);
  }

  /** Follow the chain from one source to its end; nothing if it comes back to itself. */
  method Walk(redirects: Redirects, from: string) returns (path: set<string>, target: Option<string>)
    requires from in redirects
    ensures from in path && path <= redirects.Keys
    ensures target.Some? ==> forall p | p in path :: Ends(redirects, p, target.value)
    ensures target.None? ==> forall e :: !Ends(redirects, from, e)
  {
    hide Leads, Ends, EndsIn;
    OnceAround(redirects, from);
    path := {from};
    var next := redirects[from];
    while next in redirects
      invariant from in path && PathLeads(redirects, path, next)
      decreases redirects.Keys - path
    {
      if next in path {
        forall e ensures !Ends(redirects, from, e) { PathCycles(redirects, path, next, from, e); }
        return path, None;
      }
      PathGrows(redirects, path, next);
      path := path + {next};
      next := redirects[next];
    }
    forall p | p in path ensures Ends(redirects, p, next) { PathEnds(redirects, path, next, p); }
    target := Some(next);
  }

  lemma {:induction false} OnceAround(redirects: Redirects, from: string)
    requires from in redirects
    ensures PathLeads(redirects, {from}, redirects[from])
  {
    assert Leads(redirects, redirects[from], redirects[from], 0);
    assert Leads(redirects, from, redirects[from], 1);
  }

  // ---- All chains ----

  /** Compress one path: every identity on it now points at the end. */
  method Compress(redirects: Redirects, path: set<string>, end: string) returns (short: Redirects)
    requires path <= redirects.Keys && forall p | p in path :: Ends(redirects, p, end)
    ensures SameEnds(redirects, short)
    ensures forall x | x in redirects :: short[x] == if x in path then end else redirects[x]
  {
    hide Ends, EndsIn;
    short := redirects;
    var left := path;
    while left != {}
      invariant left <= path && SameEnds(redirects, short)
      invariant forall x | x in redirects :: short[x] == if x in path && x !in left then end else redirects[x]
      decreases left
    {
      var step :| step in left;
      assert Ends(short, step, end);
      ShortcutSameEnds(short, step, end);
      short := short[step := end];
      left := left - {step};
    }
  }

  /** The same sources, each pointed at the end of its own chain. */
  ghost predicate Resolves(redirects: Redirects, resolved: Redirects) {
    resolved.Keys == redirects.Keys && forall x | x in redirects :: Ends(redirects, x, resolved[x])
  }

  /** The redirect loop of an import. It fails exactly when some chain is cyclic or ends outside the
      identities supplied; otherwise every source points at the end of its own chain. */
  method Resolve(redirects: Redirects, seen: set<string>) returns (resolved: Option<Redirects>)
    ensures resolved.Some? <==> AllEndIn(redirects, seen)
    ensures resolved.Some? ==> Resolves(redirects, resolved.value)
    ensures resolved.Some? ==> resolved.value.Values <= seen
  {
    hide Ends, EndsIn;
    var current, left := redirects, redirects.Keys;
    while left != {}
      invariant left <= redirects.Keys && SameEnds(redirects, current)
      invariant forall x | x in redirects && x !in left :: Ends(redirects, x, current[x]) && current[x] in seen
      decreases left
    {
      var from :| from in left;
      var path, target := Walk(current, from);
      if target.None? || target.value !in seen {
        NotAllEnd(redirects, seen, from, target);
        return None;
      }
      var before := current;
      current := Compress(current, path, target.value);
      left := left - {from};
      forall x | x in redirects && x !in left ensures Ends(redirects, x, current[x]) && current[x] in seen {
        if x in path { assert Ends(before, x, target.value); }
      }
    }
    resolved := Some(current);
    forall x | x in redirects ensures exists e :: e in seen && Ends(redirects, x, e) {
      assert Ends(redirects, x, current[x]) && current[x] in seen;
    }
  }

  lemma {:induction false} NotAllEnd(redirects: Redirects, seen: set<string>, from: string, target: Option<string>)
    requires from in redirects
    requires target.None? ==> forall e :: !Ends(redirects, from, e)
    requires target.Some? ==> target.value !in seen && Ends(redirects, from, target.value)
    ensures !AllEndIn(redirects, seen)
  {
    hide Ends;
    if AllEndIn(redirects, seen) {
      var e :| e in seen && Ends(redirects, from, e);
      if target.Some? { EndsOnce(redirects, from, e, target.value); }
    }
  }

  function Canonical(redirects: Redirects, id: string): string {
    if id in redirects then redirects[id] else id
  }

  /** After a successful import the canonical identity is final: looking it up again changes nothing,
      and it is the end of the chain that the payload described. */
  lemma {:induction false} CanonicalIsFinal(redirects: Redirects, resolved: Redirects, id: string)
    requires Resolves(redirects, resolved)
    ensures Canonical(resolved, Canonical(resolved, id)) == Canonical(resolved, id)
    ensures Ends(redirects, id, Canonical(resolved, id))
  {
    hide EndsIn;
    if id in resolved {
      var n: nat :| EndsIn(redirects, id, resolved[id], n);
      EndIsFree(redirects, id, resolved[id], n);
    } else {
      FreeEndsAtOnce(redirects, id);
    }
  }

  lemma {:induction false} FreeEndsAtOnce(redirects: Redirects, id: string)
    requires id !in redirects
    ensures Ends(redirects, id, id)
  {
    assert EndsIn(redirects, id, id, 0);
  }

  // ---- Reading the mappings ----

  ghost predicate WellFormed(mappings: seq<(string, string)>, seen: set<string>, valid: string -> bool) {
    && (forall i | 0 <= i < |mappings| :: valid(mappings[i].0) && valid(mappings[i].1))
    && (forall i | 0 <= i < |mappings| :: mappings[i].0 != mappings[i].1 && mappings[i].0 !in seen)
    && (forall i, j | 0 <= i < j < |mappings| :: mappings[i].0 != mappings[j].0)
  }

  /** Collect the mappings, refusing an invalid or a repeated one. */
  method ReadMappings(mappings: seq<(string, string)>, seen: set<string>, valid: string -> bool)
    returns (redirects: Option<Redirects>)
    ensures redirects.Some? <==> WellFormed(mappings, seen, valid)
    ensures redirects.Some? ==> forall x, y :: (x, y) in mappings <==> x in redirects.value && redirects.value[x] == y
  {
    var read: Redirects := map[];
    var i := 0;
    while i < |mappings|
      invariant 0 <= i <= |mappings| && WellFormed(mappings[..i], seen, valid)
      invariant forall x, y :: (x, y) in mappings[..i] <==> x in read && read[x] == y
    {
      var (from, to) := mappings[i];
      if !valid(from) || !valid(to) || from == to || from in seen { return None; }
      if from in read {
        assert (from, read[from]) in mappings[..i];
        return None;
      }
      assert mappings[..i + 1] == mappings[..i] + [mappings[i]];
      read := read[from := to];
      i := i + 1;
    }
    assert mappings[..i] == mappings;
    redirects := Some(read);
  }
}
