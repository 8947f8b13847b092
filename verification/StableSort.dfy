/** The stable sort of the JavaScript library, and when its result depends on the order of its input. */
module StableSort {
  predicate Chains<T>(cmp: (T, T) -> int, a: T, b: T, c: T) {
    cmp(a, b) <= 0 && cmp(b, c) <= 0 ==> cmp(a, c) <= 0
  }

  predicate Flips<T>(cmp: (T, T) -> int, a: T, b: T) {
    cmp(a, b) < 0 <==> cmp(b, a) > 0
  }

  /** A consistent comparator: swapping the arguments flips the sign, and the order is transitive. */
  ghost predicate Consistent<T(!new)>(cmp: (T, T) -> int) {
    && (forall a, b :: Flips(cmp, a, b))
    && (forall a, b, c :: Chains(cmp, a, b, c))
  }

  /** Equal items stay in the order they came in. */
  function Insert<T>(x: T, s: seq<T>, cmp: (T, T) -> int): seq<T> {
    if s == [] || cmp(x, s[0]) <= 0 then [x] + s else [s[0]] + Insert(x, s[1..], cmp)
  }

  function Sort<T>(xs: seq<T>, cmp: (T, T) -> int): seq<T> {
    if xs == [] then [] else Insert(xs[0], Sort(xs[1..], cmp), cmp)
  }

  function Filter<T>(xs: seq<T>, p: T -> bool): seq<T> {
    if xs == [] then [] else (if p(xs[0]) then [xs[0]] else []) + Filter(xs[1..], p)
  }

  ghost predicate Sorted<T>(s: seq<T>, cmp: (T, T) -> int) {
    forall i, j :: 0 <= i < j < |s| ==> cmp(s[i], s[j]) <= 0
  }

  ghost predicate NoTies<T(!new)>(s: seq<T>, cmp: (T, T) -> int) {
    forall a, b :: a in s && b in s && cmp(a, b) == 0 ==> a == b
  }

  /** The items that tie with `a`. */
  function Ties<T>(xs: seq<T>, a: T, cmp: (T, T) -> int): seq<T> { Filter(xs, x => cmp(x, a) == 0) }

  lemma {:induction false} InsertItems<T(!new)>(x: T, s: seq<T>, cmp: (T, T) -> int)
    ensures multiset(Insert(x, s, cmp)) == multiset{x} + multiset(s)
  {
    if s != [] {
      assert s == [s[0]] + s[1..];
      InsertItems(x, s[1..], cmp);
    }
  }

  lemma {:induction false} InsertShape<T(!new)>(x: T, s: seq<T>, cmp: (T, T) -> int)
    requires Consistent(cmp) && Sorted(s, cmp)
    ensures multiset(Insert(x, s, cmp)) == multiset{x} + multiset(s)
    ensures Sorted(Insert(x, s, cmp), cmp)
  {
    InsertItems(x, s, cmp);
    if s != [] {
      if cmp(x, s[0]) > 0 {
        InsertShape(x, s[1..], cmp);
        var r := Insert(x, s[1..], cmp);
        assert Flips(cmp, s[0], x);
        forall k | 0 <= k < |r| ensures cmp(s[0], r[k]) <= 0 {
          assert r[k] in multiset(r);
          if r[k] != x { assert r[k] in s[1..]; }
        }
      } else {
        forall k | 0 <= k < |s| ensures cmp(x, s[k]) <= 0 {
          assert Chains(cmp, x, s[0], s[k]);
        }
      }
    }
  }

  lemma {:induction false} SortShape<T(!new)>(xs: seq<T>, cmp: (T, T) -> int)
    requires Consistent(cmp)
    ensures multiset(Sort(xs, cmp)) == multiset(xs) && Sorted(Sort(xs, cmp), cmp)
  {
    if xs != [] {
      SortShape(xs[1..], cmp);
      InsertShape(xs[0], Sort(xs[1..], cmp), cmp);
      assert xs == [xs[0]] + xs[1..];
    }
  }

  lemma SameItems<T>(s: seq<T>, t: seq<T>)
    requires multiset(s) == multiset(t)
    ensures forall x :: x in s <==> x in t
    ensures |s| == |t|
  {
    forall x ensures x in s <==> x in t {
      assert x in s <==> x in multiset(s);
      assert x in t <==> x in multiset(t);
    }
    assert |multiset(s)| == |s| && |multiset(t)| == |t|;
  }

  lemma LeastFirst<T(!new)>(s: seq<T>, x: T, cmp: (T, T) -> int)
    requires Consistent(cmp) && Sorted(s, cmp) && x in s
    ensures cmp(s[0], x) <= 0
  {
    var i :| 0 <= i < |s| && s[i] == x;
    assert Flips(cmp, x, x);
  }

  lemma TailItems<T>(s: seq<T>, t: seq<T>)
    requires s != [] && t != [] && s[0] == t[0] && multiset(s) == multiset(t)
    ensures multiset(s[1..]) == multiset(t[1..])
  {
    assert s == [s[0]] + s[1..] && t == [t[0]] + t[1..];
    assert multiset(s[1..]) == multiset(s) - multiset{s[0]};
    assert multiset(t[1..]) == multiset(t) - multiset{t[0]};
  }

  /** Without ties there is one sorted arrangement. */
  lemma {:induction false} SortedUnique<T(!new)>(s: seq<T>, t: seq<T>, cmp: (T, T) -> int)
    requires Consistent(cmp) && Sorted(s, cmp) && Sorted(t, cmp) && multiset(s) == multiset(t) && NoTies(s, cmp)
    ensures s == t
  {
    SameItems(s, t);
    if s != [] {
      assert t[0] in s && s[0] in t;
      LeastFirst(s, t[0], cmp);
      LeastFirst(t, s[0], cmp);
      assert Flips(cmp, s[0], t[0]) && Flips(cmp, t[0], s[0]);
      TailItems(s, t);
      SortedUnique(s[1..], t[1..], cmp);
      assert s == [s[0]] + s[1..] && t == [t[0]] + t[1..];
    }
  }

  lemma {:induction false} InsertStable<T(!new)>(x: T, s: seq<T>, a: T, cmp: (T, T) -> int)
    requires Consistent(cmp) && Sorted(s, cmp)
    ensures Filter(Insert(x, s, cmp), y => cmp(y, a) == 0) == Filter([x] + s, y => cmp(y, a) == 0)
  {
    var p := y => cmp(y, a) == 0;
    assert ([x] + s)[1..] == s;
    if s != [] && cmp(x, s[0]) > 0 {
      InsertStable(x, s[1..], a, cmp);
      assert ([x] + s[1..])[1..] == s[1..];
      assert !(p(x) && p(s[0])) by {
        assert Flips(cmp, s[0], a) && Flips(cmp, a, s[0]) && Chains(cmp, x, a, s[0]);
      }
    }
  }

  lemma {:induction false} SortStable<T(!new)>(xs: seq<T>, a: T, cmp: (T, T) -> int)
    requires Consistent(cmp)
    ensures Ties(Sort(xs, cmp), a, cmp) == Ties(xs, a, cmp)
  {
    if xs != [] {
      SortStable(xs[1..], a, cmp);
      SortShape(xs[1..], cmp);
      InsertStable(xs[0], Sort(xs[1..], cmp), a, cmp);
    }
  }

  lemma TakeOne<T>(xs: seq<T>, a: T) returns (rest: seq<T>)
    requires a in xs
    ensures multiset(xs) == multiset([a] + rest)
  {
    var i :| 0 <= i < |xs| && xs[i] == a;
    rest := xs[..i] + xs[i + 1..];
    assert xs == xs[..i] + [a] + xs[i + 1..];
  }

  lemma OrderOfTieShows<T(!new)>(a: T, b: T, rest: seq<T>, cmp: (T, T) -> int)
    requires Consistent(cmp) && cmp(a, b) == 0 && a != b
    ensures Sort([a, b] + rest, cmp) != Sort([b, a] + rest, cmp)
  {
    var s, t := [a, b] + rest, [b, a] + rest;
    SortStable(s, a, cmp);
    SortStable(t, a, cmp);
    assert Flips(cmp, a, a) && Flips(cmp, a, b) && Flips(cmp, b, a);
    assert Ties(s, a, cmp)[0] == a && Ties(t, a, cmp)[0] == b;
  }

  lemma SortPermuted<T(!new)>(xs: seq<T>, ys: seq<T>, cmp: (T, T) -> int)
    requires Consistent(cmp) && multiset(xs) == multiset(ys) && NoTies(xs, cmp)
    ensures Sort(xs, cmp) == Sort(ys, cmp)
  {
    SortShape(xs, cmp);
    SortShape(ys, cmp);
    SameItems(xs, Sort(xs, cmp));
    SortedUnique(Sort(xs, cmp), Sort(ys, cmp), cmp);
  }

  lemma TakeTwo<T>(xs: seq<T>, a: T, b: T) returns (rest: seq<T>)
    requires a in xs && b in xs && a != b
    ensures multiset([a, b] + rest) == multiset(xs) && multiset([b, a] + rest) == multiset(xs)
  {
    var r := TakeOne(xs, a);
    assert b in [a] + r by { SameItems(xs, [a] + r); }
    rest := TakeOne(r, b);
    assert multiset([a, b] + rest) == multiset{a} + multiset([b] + rest);
    assert multiset([b, a] + rest) == multiset{a} + multiset([b] + rest);
    assert multiset([a] + r) == multiset{a} + multiset(r);
  }

  lemma TieBreaksOrder<T(!new)>(xs: seq<T>, a: T, b: T, cmp: (T, T) -> int) returns (ys: seq<T>)
    requires Consistent(cmp) && a in xs && b in xs && cmp(a, b) == 0 && a != b
    ensures multiset(ys) == multiset(xs) && Sort(ys, cmp) != Sort(xs, cmp)
  {
    var rest := TakeTwo(xs, a, b);
    OrderOfTieShows(a, b, rest, cmp);
    ys := if Sort([a, b] + rest, cmp) == Sort(xs, cmp) then [b, a] + rest else [a, b] + rest;
  }

  /** The result is the same for every order of the input exactly when no two different items tie. */
  lemma OrderIgnoredExactly<T(!new)>(xs: seq<T>, cmp: (T, T) -> int)
    requires Consistent(cmp)
    ensures (forall ys :: multiset(ys) == multiset(xs) ==> Sort(ys, cmp) == Sort(xs, cmp)) <==> NoTies(xs, cmp)
  {
    if NoTies(xs, cmp) {
      forall ys | multiset(ys) == multiset(xs) ensures Sort(ys, cmp) == Sort(xs, cmp) {
        SortPermuted(xs, ys, cmp);
      }
    } else {
      var a, b :| a in xs && b in xs && cmp(a, b) == 0 && a != b;
      var ys := TieBreaksOrder(xs, a, b, cmp);
    }
  }

  /** Filtering commutes with rearranging. */
  lemma {:induction false} FilterCounts<T>(xs: seq<T>, p: T -> bool, x: T)
    ensures multiset(Filter(xs, p))[x] == if p(x) then multiset(xs)[x] else 0
  {
    if xs != [] {
      FilterCounts(xs[1..], p, x);
      assert xs == [xs[0]] + xs[1..];
    }
  }

  lemma FilterPermuted<T(!new)>(xs: seq<T>, ys: seq<T>, p: T -> bool)
    requires multiset(xs) == multiset(ys)
    ensures multiset(Filter(xs, p)) == multiset(Filter(ys, p))
  {
    forall x ensures multiset(Filter(xs, p))[x] == multiset(Filter(ys, p))[x] {
      FilterCounts(xs, p, x);
      FilterCounts(ys, p, x);
    }
  }

  lemma FilterMembers<T(!new)>(xs: seq<T>, p: T -> bool)
    ensures forall x :: x in Filter(xs, p) <==> x in xs && p(x)
  {
    forall x ensures x in Filter(xs, p) <==> x in xs && p(x) {
      FilterCounts(xs, p, x);
      assert x in xs <==> multiset(xs)[x] > 0;
      assert x in Filter(xs, p) <==> multiset(Filter(xs, p))[x] > 0;
    }
  }
}
