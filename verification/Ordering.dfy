/** Total orders on texts and sorting by a given order.
    The program sorts names, ID lists and groups with std::sort and operator<;
    operator< on strings and on vectors is the lexicographic order below. */
module Ordering {

  /** le is a total preorder on the elements of s. */
  ghost predicate OrdersAll<T>(le: (T, T) -> bool, s: set<T>) {
    && (forall x, y | x in s && y in s :: le(x, y) || le(y, x))
    && (forall x, y, z | x in s && y in s && z in s && le(x, y) && le(y, z) :: le(x, z))
  }

  ghost predicate TotalOrder<T(!new)>(le: (T, T) -> bool) {
    && (forall x, y :: le(x, y) || le(y, x))
    && (forall x, y, z | le(x, y) && le(y, z) :: le(x, z))
    && (forall x, y | le(x, y) && le(y, x) :: x == y)
  }

  ghost predicate SortedBy<T>(le: (T, T) -> bool, s: seq<T>) {
    forall i, j | 0 <= i < j < |s| :: le(s[i], s[j])
  }

  ghost function Elements<T>(s: seq<T>): set<T> {
    set x | x in s
  }

  predicate LexLe<T(==)>(le: (T, T) -> bool, a: seq<T>, b: seq<T>) {
    a == [] || (b != [] && if a[0] == b[0] then LexLe(le, a[1..], b[1..]) else le(a[0], b[0]))
  }

  predicate CharLe(a: char, b: char) { a <= b }

  predicate TextLe(a: string, b: string) { LexLe(CharLe, a, b) }

  predicate TextsLe(a: seq<string>, b: seq<string>) { LexLe(TextLe, a, b) }

  lemma {:induction false} LexOrder<T(!new)>(le: (T, T) -> bool, a: seq<T>, b: seq<T>, c: seq<T>)
    requires TotalOrder(le)
    ensures LexLe(le, a, b) || LexLe(le, b, a)
    ensures LexLe(le, a, b) && LexLe(le, b, c) ==> LexLe(le, a, c)
    ensures LexLe(le, a, b) && LexLe(le, b, a) ==> a == b
  {
    if a != [] && b != [] {
      assert a == [a[0]] + a[1..] && b == [b[0]] + b[1..];
      LexOrder(le, a[1..], b[1..], if c == [] then [] else c[1..]);
    }
  }

  lemma {:induction false} LexTotalOrder<T(!new)>(le: (T, T) -> bool)
    requires TotalOrder(le)
    ensures TotalOrder<seq<T>>((a, b) => LexLe(le, a, b))
  {
    forall a: seq<T>, b: seq<T>, c: seq<T>
      ensures LexLe(le, a, b) || LexLe(le, b, a)
      ensures LexLe(le, a, b) && LexLe(le, b, c) ==> LexLe(le, a, c)
      ensures LexLe(le, a, b) && LexLe(le, b, a) ==> a == b
    {
      LexOrder(le, a, b, c);
    }
  }

  lemma {:induction false} TextOrders()
    ensures TotalOrder(TextLe)
    ensures TotalOrder(TextsLe)
  {
    assert TotalOrder(CharLe);
    LexTotalOrder(CharLe);
    forall a: string, b: string, c: string
      ensures TextLe(a, b) || TextLe(b, a)
      ensures TextLe(a, b) && TextLe(b, c) ==> TextLe(a, c)
      ensures TextLe(a, b) && TextLe(b, a) ==> a == b
    {
      LexOrder(CharLe, a, b, c);
    }
    forall a: seq<string>, b: seq<string>, c: seq<string>
      ensures TextsLe(a, b) || TextsLe(b, a)
      ensures TextsLe(a, b) && TextsLe(b, c) ==> TextsLe(a, c)
      ensures TextsLe(a, b) && TextsLe(b, a) ==> a == b
    {
      LexOrder(TextLe, a, b, c);
    }
  }

  function Insert<T(==)>(le: (T, T) -> bool, x: T, s: seq<T>): (r: seq<T>)
    ensures multiset(r) == multiset{x} + multiset(s)
  {
    if s == [] then [x]
    else if le(x, s[0]) then
      assert [x] + s == [x] + s[..];
      [x] + s
    else
      assert s == [s[0]] + s[1..];
      [s[0]] + Insert(le, x, s[1..])
  }

  /** std::sort, as a function of the sequence it is given. */
  function SortBy<T(==)>(le: (T, T) -> bool, s: seq<T>): (r: seq<T>)
    ensures multiset(r) == multiset(s)
  {
    if s == [] then [] else
      assert s == [s[0]] + s[1..];
      Insert(le, s[0], SortBy(le, s[1..]))
  }

  lemma {:induction false} InsertSorts<T>(le: (T, T) -> bool, x: T, s: seq<T>)
    requires SortedBy(le, s)
    requires OrdersAll(le, Elements(s) + {x})
    ensures SortedBy(le, Insert(le, x, s))
  {
    if s != [] && !le(x, s[0]) {
      InsertSorts(le, x, s[1..]);
      var r := Insert(le, x, s[1..]);
      forall y | y in r ensures le(s[0], y) {
        assert y in multiset(r);
        assert y == x || y in s[1..];
      }
    } else if s != [] {
      forall y | y in s ensures le(x, y) {
        assert y in Elements(s);
        assert s[0] in Elements(s);
      }
    }
  }

  lemma {:induction false} SameMembers<T>(a: seq<T>, b: seq<T>)
    requires multiset(a) == multiset(b)
    ensures Elements(a) == Elements(b)
    ensures |a| == |b|
  {
    forall x ensures x in a <==> x in b {
      assert x in a <==> x in multiset(a);
    }
    assert |multiset(a)| == |a| && |multiset(b)| == |b|;
  }

  lemma {:induction false} SortByMembers<T>(le: (T, T) -> bool, s: seq<T>)
    ensures Elements(SortBy(le, s)) == Elements(s)
    ensures |SortBy(le, s)| == |s|
  {
    SameMembers(SortBy(le, s), s);
  }

  lemma {:induction false} SortBySorts<T>(le: (T, T) -> bool, s: seq<T>)
    requires OrdersAll(le, Elements(s))
    ensures SortedBy(le, SortBy(le, s))
  {
    if s != [] {
      assert Elements(s[1..]) <= Elements(s);
      SortBySorts(le, s[1..]);
      SortByMembers(le, s[1..]);
      InsertSorts(le, s[0], SortBy(le, s[1..]));
    }
  }

  lemma {:induction false} SameHead<T(!new)>(le: (T, T) -> bool, a: seq<T>, b: seq<T>)
    requires TotalOrder(le) && SortedBy(le, a) && SortedBy(le, b)
    requires a != [] && b != [] && Elements(a) == Elements(b)
    ensures a[0] == b[0]
  {
    assert a[0] in Elements(b) && b[0] in Elements(a);
    var p :| 0 <= p < |b| && b[p] == a[0];
    var q :| 0 <= q < |a| && a[q] == b[0];
    assert le(b[0], a[0]) && le(a[0], b[0]);
  }

  lemma {:induction false} TailMultiset<T>(a: seq<T>)
    requires a != []
    ensures multiset(a[1..]) == multiset(a) - multiset{a[0]}
  {
    assert a == [a[0]] + a[1..];
  }

  /** Two sorted arrangements of the same elements under a total order are equal. */
  lemma {:induction false} SortedUnique<T(!new)>(le: (T, T) -> bool, a: seq<T>, b: seq<T>)
    requires TotalOrder(le)
    requires SortedBy(le, a) && SortedBy(le, b)
    requires multiset(a) == multiset(b)
    ensures a == b
    decreases |a|
  {
    hide TotalOrder;
    SameMembers(a, b);
    if a != [] {
      SameHead(le, a, b);
      TailMultiset(a);
      TailMultiset(b);
      assert multiset(a[1..]) == multiset(b[1..]);
      SortedUnique(le, a[1..], b[1..]);
      assert a == [a[0]] + a[1..] && b == [b[0]] + b[1..];
    }
  }

  /** Sorting forgets the order of its input. */
  lemma {:induction false} SortByCanonical<T(!new)>(le: (T, T) -> bool, a: seq<T>, b: seq<T>)
    requires TotalOrder(le)
    requires multiset(a) == multiset(b)
    ensures SortBy(le, a) == SortBy(le, b)
  {
    SortBySorts(le, a);
    SortBySorts(le, b);
    SortedUnique(le, SortBy(le, a), SortBy(le, b));
  }

  lemma {:induction false} AddToCommon<T>(a: set<T>, b: set<T>, x: T)
    requires x !in a
    ensures |(a + {x}) * b| == |a * b| + if x in b then 1 else 0
  {
    if x in b {
      assert (a + {x}) * b == a * b + {x};
    } else {
      assert (a + {x}) * b == a * b;
    }
  }

  lemma {:induction false} ElementsOneMore<T>(s: seq<T>, k: nat)
    requires k < |s|
    ensures Elements(s[..k + 1]) == Elements(s[..k]) + {s[k]}
  {
    assert s[..k + 1] == s[..k] + [s[k]];
  }

  lemma {:induction false} ElementsAppend<T>(s: seq<T>, x: T)
    ensures Elements(s + [x]) == Elements(s) + {x}
  {}
}
