/** Sums over sequences and over maps, and what reordering does to them. */
module Sums {
  import opened Orders
  import opened Reals

  function Without<T>(xs: seq<T>, i: nat): seq<T>
    requires i < |xs|
  {
    xs[..i] + xs[i + 1..]
  }

  lemma WithoutRest<T>(xs: seq<T>, i: nat)
    requires i < |xs|
    ensures multiset(xs) == multiset{xs[i]} + multiset(Without(xs, i))
  {
    assert xs == xs[..i] + [xs[i]] + xs[i + 1..];
  }

  /** The first element of xs sits at some place of its permutation ys, and
      what is left of both still matches. */
  lemma HeadInPermutation<T>(xs: seq<T>, ys: seq<T>) returns (i: nat)
    requires multiset(xs) == multiset(ys) && xs != []
    ensures i < |ys| && ys[i] == xs[0]
    ensures multiset(xs[1..]) == multiset(Without(ys, i))
    ensures |Without(ys, i)| == |xs| - 1
  {
    assert |multiset(xs)| == |xs| && |multiset(ys)| == |ys|;
    assert xs[0] in multiset(ys);
    i :| 0 <= i < |ys| && ys[i] == xs[0];
    WithoutRest(ys, i);
    WithoutRest(xs, 0);
    assert Without(xs, 0) == xs[1..];
    assert multiset(xs[1..]) == multiset(xs) - multiset{xs[0]};
    assert multiset(Without(ys, i)) == multiset(ys) - multiset{ys[i]};
  }

  lemma PermutedEmpty<T>(xs: seq<T>, ys: seq<T>)
    requires multiset(xs) == multiset(ys) && xs == []
    ensures ys == []
  {
    assert |multiset(ys)| == |ys|;
  }

  // ------------------------------------------------------- sums of sequences

  function Sum<T>(f: T -> real, xs: seq<T>): real {
    if xs == [] then 0.0 else f(xs[0]) + Sum(f, xs[1..])
  }

  lemma {:induction false} SumConcat<T>(f: T -> real, xs: seq<T>, ys: seq<T>)
    ensures Sum(f, xs + ys) == Sum(f, xs) + Sum(f, ys)
  {
    if xs == [] {
      assert xs + ys == ys;
    } else {
      assert (xs + ys)[1..] == xs[1..] + ys;
      SumConcat(f, xs[1..], ys);
    }
  }

  lemma SumSnoc<T>(f: T -> real, xs: seq<T>, x: T)
    ensures Sum(f, xs + [x]) == Sum(f, xs) + f(x)
  {
    SumConcat(f, xs, [x]);
    assert [x][1..] == [];
  }

  lemma {:induction false} SumAgree<T>(f: T -> real, g: T -> real, xs: seq<T>)
    requires forall x :: x in xs ==> f(x) == g(x)
    ensures Sum(f, xs) == Sum(g, xs)
  {
    if xs != [] {
      assert xs[0] in xs;
      SumAgree(f, g, xs[1..]);
    }
  }

  lemma {:induction false} SumMatched<T, U>(f: T -> real, xs: seq<T>, g: U -> real, ys: seq<U>)
    requires |xs| == |ys|
    requires forall i :: 0 <= i < |xs| ==> f(xs[i]) == g(ys[i])
    ensures Sum(f, xs) == Sum(g, ys)
  {
    if xs != [] {
      SumMatched(f, xs[1..], g, ys[1..]);
    }
  }

  lemma {:induction false} SumConstant<T>(f: T -> real, xs: seq<T>, c: real)
    requires forall x :: x in xs ==> f(x) == c
    ensures Sum(f, xs) == Times(|xs|, c)
  {
    if xs != [] {
      assert xs[0] in xs;
      SumConstant(f, xs[1..], c);
    }
  }

  lemma {:induction false} SumLe<T>(f: T -> real, g: T -> real, xs: seq<T>)
    requires forall x :: x in xs ==> f(x) <= g(x)
    ensures Sum(f, xs) <= Sum(g, xs)
  {
    if xs != [] {
      assert xs[0] in xs;
      SumLe(f, g, xs[1..]);
    }
  }

  lemma {:induction false} SumScaled<T>(f: T -> real, g: T -> real, xs: seq<T>, c: real)
    requires forall x :: x in xs ==> g(x) == Product(c, f(x))
    ensures Sum(g, xs) == Product(c, Sum(f, xs))
  {
    if xs == [] {
      assert Product(c, 0.0) == 0.0;
    } else {
      assert xs[0] in xs;
      SumScaled(f, g, xs[1..], c);
      ProductAdd(c, f(xs[0]), Sum(f, xs[1..]));
    }
  }

  lemma SumAround<T>(f: T -> real, front: seq<T>, x: T, back: seq<T>)
    ensures Sum(f, front + ([x] + back)) == f(x) + Sum(f, front + back)
  {
    SumConcat(f, front, [x] + back);
    SumConcat(f, front, back);
    assert ([x] + back)[1..] == back;
  }

  lemma {:induction false} SumWithout<T>(f: T -> real, xs: seq<T>, i: nat)
    requires i < |xs|
    ensures Sum(f, xs) == f(xs[i]) + Sum(f, Without(xs, i))
  {
    SumAround(f, xs[..i], xs[i], xs[i + 1..]);
    Reassembled(xs, i);
  }

  lemma {:induction false} SumPermuted<T>(f: T -> real, xs: seq<T>, ys: seq<T>)
    requires multiset(xs) == multiset(ys)
    ensures Sum(f, xs) == Sum(f, ys)
  {
    if xs == [] {
      PermutedEmpty(xs, ys);
    } else {
      var i := HeadInPermutation(xs, ys);
      SumWithout(f, ys, i);
      SumPermuted(f, xs[1..], Without(ys, i));
    }
  }

  // -------------------------------------------------------- counting matches

  function Count<T>(p: T -> bool, xs: seq<T>): (n: nat)
    ensures n <= |xs|
  {
    if xs == [] then 0 else (if p(xs[0]) then 1 else 0) + Count(p, xs[1..])
  }

  lemma {:induction false} CountConcat<T>(p: T -> bool, xs: seq<T>, ys: seq<T>)
    ensures Count(p, xs + ys) == Count(p, xs) + Count(p, ys)
  {
    if xs == [] {
      assert xs + ys == ys;
    } else {
      assert (xs + ys)[1..] == xs[1..] + ys;
      CountConcat(p, xs[1..], ys);
    }
  }

  lemma CountAround<T>(p: T -> bool, front: seq<T>, x: T, back: seq<T>)
    ensures Count(p, front + ([x] + back)) == (if p(x) then 1 else 0) + Count(p, front + back)
  {
    CountConcat(p, front, [x] + back);
    CountConcat(p, front, back);
    assert ([x] + back)[1..] == back;
  }

  lemma CountWithout<T>(p: T -> bool, xs: seq<T>, i: nat)
    requires i < |xs|
    ensures Count(p, xs) == (if p(xs[i]) then 1 else 0) + Count(p, Without(xs, i))
  {
    CountAround(p, xs[..i], xs[i], xs[i + 1..]);
    Reassembled(xs, i);
  }

  lemma Reassembled<T>(xs: seq<T>, i: nat)
    requires i < |xs|
    ensures xs[..i] + ([xs[i]] + xs[i + 1..]) == xs
  {
  }

  lemma {:induction false} CountPermuted<T>(p: T -> bool, xs: seq<T>, ys: seq<T>)
    requires multiset(xs) == multiset(ys)
    ensures Count(p, xs) == Count(p, ys)
  {
    if xs == [] {
      PermutedEmpty(xs, ys);
    } else {
      var i := HeadInPermutation(xs, ys);
      CountWithout(p, ys, i);
      CountPermuted(p, xs[1..], Without(ys, i));
    }
  }

  lemma {:induction false} CountNone<T>(p: T -> bool, xs: seq<T>)
    requires forall x :: x in xs ==> !p(x)
    ensures Count(p, xs) == 0
  {
    if xs != [] {
      assert xs[0] in xs;
      CountNone(p, xs[1..]);
    }
  }

  lemma {:induction false} CountAll<T>(p: T -> bool, xs: seq<T>)
    requires forall x :: x in xs ==> p(x)
    ensures Count(p, xs) == |xs|
  {
    if xs != [] {
      assert xs[0] in xs;
      CountAll(p, xs[1..]);
    }
  }

  lemma {:induction false} CountSome<T>(p: T -> bool, xs: seq<T>, x: T)
    requires x in xs && p(x)
    ensures Count(p, xs) >= 1
  {
    if x != xs[0] {
      assert x in xs[1..];
      CountSome(p, xs[1..], x);
    }
  }

  lemma {:induction false} CountLe<T>(p: T -> bool, q: T -> bool, xs: seq<T>)
    requires forall x :: x in xs && p(x) ==> q(x)
    ensures Count(p, xs) <= Count(q, xs)
  {
    if xs != [] {
      assert xs[0] in xs;
      CountLe(p, q, xs[1..]);
    }
  }

  // ---------------------------------------------------------- sums over maps

  ghost function MapTotal<K>(m: map<K, int>): int
    decreases |m|
  {
    if m == map[] then 0
    else
      var k :| k in m;
      m[k] + MapTotal(m - {k})
  }

  lemma {:induction false} MapTotalWithout<K>(m: map<K, int>, k: K)
    requires k in m
    ensures MapTotal(m) == m[k] + MapTotal(m - {k})
    decreases |m|
  {
    var j :| j in m && MapTotal(m) == m[j] + MapTotal(m - {j});
    if j != k {
      MapTotalWithout(m - {j}, k);
      MapTotalWithout(m - {k}, j);
      assert (m - {j}) - {k} == (m - {k}) - {j};
    }
  }

  lemma MapTotalUpdated<K>(m: map<K, int>, k: K, v: int)
    ensures MapTotal(m[k := v]) == MapTotal(m) + v - (if k in m then m[k] else 0)
  {
    MapTotalWithout(m[k := v], k);
    if k in m {
      MapTotalWithout(m, k);
      assert m[k := v] - {k} == m - {k};
    } else {
      assert m[k := v] - {k} == m;
    }
  }

  lemma MapTotalDropped<K>(m: map<K, int>, k: K)
    ensures MapTotal(m - {k}) == MapTotal(m) - (if k in m then m[k] else 0)
  {
    if k in m { MapTotalWithout(m, k); } else { assert m - {k} == m; }
  }

  lemma {:induction false} MapTotalNonNegative<K>(m: map<K, int>)
    requires forall k :: k in m ==> m[k] >= 0
    ensures MapTotal(m) >= 0
    decreases |m|
  {
    if m != map[] {
      var k :| k in m && MapTotal(m) == m[k] + MapTotal(m - {k});
      MapTotalNonNegative(m - {k});
    }
  }

  /** The sum of a map's values along a list of its keys. */
  function ListTotal<K>(m: map<K, int>, ks: seq<K>): int
    requires forall k :: k in ks ==> k in m
  {
    if ks == [] then 0 else ListTotal(m, ks[..|ks| - 1]) + m[ks[|ks| - 1]]
  }

  lemma {:induction false} ListTotalAgree<K>(m: map<K, int>, n: map<K, int>, ks: seq<K>)
    requires forall k :: k in ks ==> k in m && k in n && m[k] == n[k]
    ensures ListTotal(m, ks) == ListTotal(n, ks)
    decreases |ks|
  {
    if ks != [] { ListTotalAgree(m, n, ks[..|ks| - 1]); }
  }

  lemma {:induction false} ListTotalIsMapTotal<K>(m: map<K, int>, ks: seq<K>)
    requires Distinct(ks) && forall k :: k in ks <==> k in m
    ensures MapTotal(m) == ListTotal(m, ks)
    decreases |ks|
  {
    if ks == [] {
      assert m == map[] by { forall k ensures k !in m { assert k !in ks; } }
    } else {
      var init, k := ks[..|ks| - 1], ks[|ks| - 1];
      assert ks == init + [k];
      assert k in ks;
      ListTotalIsMapTotal(m - {k}, init);
      ListTotalAgree(m, m - {k}, init);
      MapTotalWithout(m, k);
    }
  }
}
