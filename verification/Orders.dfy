/** Total orders, the stable sort behind Python's `sorted`, and the ORDER BY
    listing of a table's keys. */
module Orders {

  type Id = string

  ghost predicate Total<T(!new)>(le: (T, T) -> bool) {
    forall x, y :: le(x, y) || le(y, x)
  }

  ghost predicate Transitive<T(!new)>(le: (T, T) -> bool) {
    forall x, y, z :: le(x, y) && le(y, z) ==> le(x, z)
  }

  ghost predicate Antisymmetric<T(!new)>(le: (T, T) -> bool) {
    forall x, y :: le(x, y) && le(y, x) ==> x == y
  }

  /** What a sort key gives: elements with equal keys may differ. */
  ghost predicate Preorder<T(!new)>(le: (T, T) -> bool) {
    Total(le) && Transitive(le)
  }

  ghost predicate TotalOrder<T(!new)>(le: (T, T) -> bool) {
    Preorder(le) && Antisymmetric(le)
  }

  ghost predicate SortedBy<T>(le: (T, T) -> bool, xs: seq<T>) {
    forall i, j :: 0 <= i < j < |xs| ==> le(xs[i], xs[j])
  }

  ghost predicate Distinct<T>(xs: seq<T>) {
    forall i, j :: 0 <= i < j < |xs| ==> xs[i] != xs[j]
  }

  // ---------------------------------------------------------------- strings

  /** Code-point order on identifiers, as Python and SQLite compare text. */
  predicate LexLe(a: Id, b: Id) {
    a == "" || (b != "" && (a[0] < b[0] || (a[0] == b[0] && LexLe(a[1..], b[1..]))))
  }

  lemma LexLeTotal(a: Id, b: Id)
    ensures LexLe(a, b) || LexLe(b, a)
  {
  }

  lemma {:induction false} LexLeTransitive(a: Id, b: Id, c: Id)
    requires LexLe(a, b) && LexLe(b, c)
    ensures LexLe(a, c)
  {
    if a != "" && a[0] == b[0] && b[0] == c[0] {
      LexLeTransitive(a[1..], b[1..], c[1..]);
    }
  }

  lemma {:induction false} LexLeAntisymmetric(a: Id, b: Id)
    requires LexLe(a, b) && LexLe(b, a)
    ensures a == b
  {
    if a != "" && b != "" {
      LexLeAntisymmetric(a[1..], b[1..]);
      assert a == [a[0]] + a[1..] && b == [b[0]] + b[1..];
    }
  }

  lemma LexLeIsTotalOrder()
    ensures TotalOrder(LexLe)
  {
    forall a, b ensures LexLe(a, b) || LexLe(b, a) { LexLeTotal(a, b); }
    forall a, b, c | LexLe(a, b) && LexLe(b, c) ensures LexLe(a, c) { LexLeTransitive(a, b, c); }
    forall a, b | LexLe(a, b) && LexLe(b, a) ensures a == b { LexLeAntisymmetric(a, b); }
  }

  /** The first difference decides: a smaller character at position i. */
  predicate FirstDifference(a: Id, b: Id, i: nat) {
    i < |a| && i < |b| && a[..i] == b[..i] && a[i] < b[i]
  }

  lemma SameHead(a: Id, b: Id, i: nat)
    requires 0 < i <= |a| && i <= |b| && a[..i] == b[..i]
    ensures a[0] == b[0]
  {
    assert a[..i][0] == a[0] && b[..i][0] == b[0];
  }

  /** One identifier is before another if and only if it is a prefix of it or
      has the smaller character where they first differ. */
  lemma {:induction false} LexLeExactlyWhen(a: Id, b: Id)
    ensures LexLe(a, b) <==> a <= b || exists i: nat :: FirstDifference(a, b, i)
  {
    if a != "" && b != "" && a[0] == b[0] {
      LexLeExactlyWhen(a[1..], b[1..]);
      assert a == [a[0]] + a[1..] && b == [b[0]] + b[1..];
      if i: nat :| FirstDifference(a[1..], b[1..], i) {
        assert a[..i + 1] == [a[0]] + a[1..][..i] && b[..i + 1] == [b[0]] + b[1..][..i];
        assert FirstDifference(a, b, i + 1);
      }
      if i: nat :| FirstDifference(a, b, i) {
        assert i > 0 && a[1..][..i - 1] == a[..i][1..] && b[1..][..i - 1] == b[..i][1..];
        assert FirstDifference(a[1..], b[1..], i - 1);
      }
    } else if a != "" && b != "" {
      if i: nat :| FirstDifference(a, b, i) {
        if i > 0 { SameHead(a, b, i); }
      }
      if a[0] < b[0] { assert FirstDifference(a, b, 0); }
    }
  }

  predicate NatLe(a: nat, b: nat) { a <= b }

  // ------------------------------------------------------------ stable sort

  function Insert<T>(x: T, xs: seq<T>, le: (T, T) -> bool): (r: seq<T>)
    ensures multiset(r) == multiset{x} + multiset(xs)
    ensures |r| == |xs| + 1
  {
    if xs == [] || le(x, xs[0]) then [x] + xs
    else
      assert xs == [xs[0]] + xs[1..];
      [xs[0]] + Insert(x, xs[1..], le)
  }

  function Sort<T>(xs: seq<T>, le: (T, T) -> bool): (r: seq<T>)
    ensures multiset(r) == multiset(xs)
    ensures |r| == |xs|
  {
    if xs == [] then []
    else
      assert xs == [xs[0]] + xs[1..];
      Insert(xs[0], Sort(xs[1..], le), le)
  }

  lemma SortedMembers<T>(xs: seq<T>, le: (T, T) -> bool)
    ensures forall x :: x in Sort(xs, le) <==> x in xs
  {
    forall x ensures x in Sort(xs, le) <==> x in xs {
      assert x in multiset(Sort(xs, le)) <==> x in multiset(xs);
    }
  }

  lemma {:induction false} InsertSorted<T(!new)>(x: T, xs: seq<T>, le: (T, T) -> bool)
    requires Preorder(le) && SortedBy(le, xs)
    ensures SortedBy(le, Insert(x, xs, le))
  {
    if xs != [] && !le(x, xs[0]) {
      InsertSorted(x, xs[1..], le);
      var rest := Insert(x, xs[1..], le);
      forall j | 0 <= j < |rest| ensures le(xs[0], rest[j]) {
        assert rest[j] in multiset(rest);
      }
    }
  }

  lemma {:induction false} SortSorted<T(!new)>(xs: seq<T>, le: (T, T) -> bool)
    requires Preorder(le)
    ensures SortedBy(le, Sort(xs, le))
  {
    if xs != [] {
      SortSorted(xs[1..], le);
      InsertSorted(xs[0], Sort(xs[1..], le), le);
    }
  }

  /** The elements of xs with the sort key of k, in their order. */
  function Alike<T>(k: T, xs: seq<T>, le: (T, T) -> bool): seq<T> {
    if xs == [] then []
    else if le(k, xs[0]) && le(xs[0], k) then [xs[0]] + Alike(k, xs[1..], le)
    else Alike(k, xs[1..], le)
  }

  lemma {:induction false} InsertKeepsAlike<T(!new)>(k: T, x: T, xs: seq<T>, le: (T, T) -> bool)
    requires Preorder(le)
    ensures Alike(k, Insert(x, xs, le), le) == Alike(k, [x] + xs, le)
  {
    assert ([x] + xs)[1..] == xs;
    if xs != [] && !le(x, xs[0]) {
      var rest := Insert(x, xs[1..], le);
      assert ([xs[0]] + rest)[1..] == rest && ([x] + xs[1..])[1..] == xs[1..];
      InsertKeepsAlike(k, x, xs[1..], le);
    }
  }

  /** The sort is stable: elements with equal keys keep their order. */
  lemma {:induction false} SortIsStable<T(!new)>(k: T, xs: seq<T>, le: (T, T) -> bool)
    requires Preorder(le)
    ensures Alike(k, Sort(xs, le), le) == Alike(k, xs, le)
  {
    if xs != [] {
      SortIsStable(k, xs[1..], le);
      InsertKeepsAlike(k, xs[0], Sort(xs[1..], le), le);
      assert ([xs[0]] + Sort(xs[1..], le))[1..] == Sort(xs[1..], le);
    }
  }

  /** No two elements of xs share a sort key. */
  ghost predicate DistinctKeys<T>(le: (T, T) -> bool, xs: multiset<T>) {
    forall x, y :: x in xs && y in xs && le(x, y) && le(y, x) ==> x == y
  }

  lemma FirstIsLeast<T(!new)>(xs: seq<T>, y: T, le: (T, T) -> bool)
    requires Total(le) && SortedBy(le, xs) && xs != [] && y in multiset(xs)
    ensures le(xs[0], y)
  {
    var i :| 0 <= i < |xs| && xs[i] == y;
    assert le(xs[0], xs[0]);
  }

  lemma SameTails<T>(xs: seq<T>, ys: seq<T>)
    requires xs != [] && ys != [] && multiset(xs) == multiset(ys) && xs[0] == ys[0]
    ensures multiset(xs[1..]) == multiset(ys[1..]) && multiset(xs[1..]) <= multiset(xs)
  {
    assert xs == [xs[0]] + xs[1..] && ys == [ys[0]] + ys[1..];
    assert multiset(xs) == multiset{xs[0]} + multiset(xs[1..]);
    assert multiset(ys) == multiset{xs[0]} + multiset(ys[1..]);
    assert multiset(xs[1..]) == multiset(xs) - multiset{xs[0]} == multiset(ys[1..]);
  }

  lemma SameFirst<T(!new)>(xs: seq<T>, ys: seq<T>, le: (T, T) -> bool)
    requires Total(le) && SortedBy(le, xs) && SortedBy(le, ys)
    requires multiset(xs) == multiset(ys) && xs != [] && ys != []
    requires DistinctKeys(le, multiset(xs))
    ensures xs[0] == ys[0]
  {
    assert xs[0] in multiset(xs) && ys[0] in multiset(ys);
    FirstIsLeast(xs, ys[0], le);
    FirstIsLeast(ys, xs[0], le);
  }

  /** Two sorted arrangements of the same elements with distinct keys are the
      same sequence. */
  lemma {:induction false} SortedUnique<T(!new)>(xs: seq<T>, ys: seq<T>, le: (T, T) -> bool)
    requires Total(le) && SortedBy(le, xs) && SortedBy(le, ys)
    requires multiset(xs) == multiset(ys)
    requires DistinctKeys(le, multiset(xs))
    ensures xs == ys
    decreases |xs|
  {
    assert |xs| == |multiset(xs)| == |multiset(ys)| == |ys|;
    if xs != [] {
      SameFirst(xs, ys, le);
      SameTails(xs, ys);
      SortedUnique(xs[1..], ys[1..], le);
      assert xs == [xs[0]] + xs[1..] == ys;
    } else {
      assert ys == [];
    }
  }

  /** A sort with distinct keys does not depend on the input order. */
  lemma SortOrderFree<T(!new)>(xs: seq<T>, ys: seq<T>, le: (T, T) -> bool)
    requires Preorder(le)
    requires multiset(xs) == multiset(ys)
    requires DistinctKeys(le, multiset(xs))
    ensures Sort(xs, le) == Sort(ys, le)
  {
    SortSorted(xs, le);
    SortSorted(ys, le);
    SortedUnique(Sort(xs, le), Sort(ys, le), le);
  }

  // ------------------------------------------------------- ordered listings

  predicate IsLeast<T(!new, ==)>(le: (T, T) -> bool, s: set<T>, x: T) {
    x in s && forall y :: y in s ==> le(x, y)
  }

  lemma LeastExtends<T(!new)>(s: set<T>, x: T, m: T, le: (T, T) -> bool)
    requires TotalOrder(le) && x in s && IsLeast(le, s - {x}, m)
    ensures IsLeast(le, s, if le(x, m) then x else m)
  {
    assert le(x, x) && (le(x, m) || le(m, x));
    var w := if le(x, m) then x else m;
    forall y | y in s ensures le(w, y) {
      assert y == x || y in s - {x};
    }
  }

  lemma {:induction false} LeastExists<T(!new)>(s: set<T>, le: (T, T) -> bool) returns (m: T)
    requires TotalOrder(le) && s != {}
    ensures IsLeast(le, s, m)
    decreases |s|
  {
    m :| m in s;
    if s - {m} == {} {
      assert le(m, m) && s == {m};
    } else {
      var n := LeastExists(s - {m}, le);
      LeastExtends(s, m, n, le);
      m := if le(m, n) then m else n;
    }
  }

  lemma LeastUnique<T(!new)>(s: set<T>, le: (T, T) -> bool)
    requires TotalOrder(le) && s != {}
    ensures exists x :: IsLeast(le, s, x)
    ensures forall x, y :: IsLeast(le, s, x) && IsLeast(le, s, y) ==> x == y
  {
    var m := LeastExists(s, le);
  }

  /** The keys of a table in ORDER BY order. */
  function Listing<T(!new, ==)>(s: set<T>, le: (T, T) -> bool): (r: seq<T>)
    requires TotalOrder(le)
    ensures forall x :: x in r <==> x in s
    ensures Distinct(r)
    ensures SortedBy(le, r)
    decreases |s|
  {
    if s == {} then []
    else
      LeastUnique(s, le);
      var x :| x in s && IsLeast(le, s, x);
      [x] + Listing(s - {x}, le)
  }

  function IdListing(s: set<Id>): (r: seq<Id>)
    ensures forall x :: x in r <==> x in s
    ensures Distinct(r)
    ensures SortedBy(LexLe, r)
  {
    LexLeIsTotalOrder();
    Listing(s, LexLe)
  }

  function NatListing(s: set<nat>): (r: seq<nat>)
    ensures forall x :: x in r <==> x in s
    ensures Distinct(r)
    ensures SortedBy(NatLe, r)
  {
    Listing(s, NatLe)
  }
}
