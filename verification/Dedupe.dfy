/** Keeping the first item of every key, the loop shared by the string, link and indicator lists. */
module Dedupe {
  function FirstByKey<T, K(==)>(xs: seq<T>, key: T -> K, seen: set<K>): seq<T> {
    if xs == [] then []
    else if key(xs[0]) in seen then FirstByKey(xs[1..], key, seen)
    else [xs[0]] + FirstByKey(xs[1..], key, seen + {key(xs[0])})
  }

  ghost function Keys<T, K>(xs: seq<T>, key: T -> K): set<K> { set x | x in xs :: key(x) }

  /** Every kept item was there, no two share a key, and every key still has its item. */
  lemma {:induction false} FirstByKeySound<T, K>(xs: seq<T>, key: T -> K, seen: set<K>)
    ensures var r := FirstByKey(xs, key, seen);
            && (forall x :: x in r ==> x in xs && key(x) !in seen)
            && (forall i, j :: 0 <= i < j < |r| ==> key(r[i]) != key(r[j]))
            && Keys(r, key) == Keys(xs, key) - seen
  {
    if xs != [] {
      var seen' := if key(xs[0]) in seen then seen else seen + {key(xs[0])};
      FirstByKeySound(xs[1..], key, seen');
      assert xs == [xs[0]] + xs[1..];
      var rest := FirstByKey(xs[1..], key, seen');
      assert Keys(xs, key) == {key(xs[0])} + Keys(xs[1..], key);
      assert Keys([xs[0]] + rest, key) == {key(xs[0])} + Keys(rest, key);
    }
  }

  /** An item whose key is its own is kept. */
  lemma SoleOfItsKey<T, K>(xs: seq<T>, key: T -> K, item: T)
    requires item in xs && forall x :: x in xs && key(x) == key(item) ==> x == item
    ensures item in FirstByKey(xs, key, {})
  {
    FirstByKeySound(xs, key, {});
    var r := FirstByKey(xs, key, {});
    assert key(item) in Keys(xs, key);
    assert key(item) in Keys(r, key);
    var y :| y in r && key(y) == key(item);
  }

  /** What comes later cannot displace what came before. */
  lemma {:induction false} FirstByKeyAppend<T, K>(xs: seq<T>, ys: seq<T>, key: T -> K, seen: set<K>)
    ensures FirstByKey(xs + ys, key, seen) == FirstByKey(xs, key, seen) + FirstByKey(ys, key, seen + Keys(xs, key))
  {
    if xs == [] {
      assert xs + ys == ys && seen + Keys(xs, key) == seen;
    } else {
      assert (xs + ys)[1..] == xs[1..] + ys;
      var seen' := if key(xs[0]) in seen then seen else seen + {key(xs[0])};
      FirstByKeyAppend(xs[1..], ys, key, seen');
      assert seen' + Keys(xs[1..], key) == seen + Keys(xs, key) by {
        assert xs == [xs[0]] + xs[1..];
      }
    }
  }

  /** A list without repeated keys is kept as it is; so deduplicating twice changes nothing. */
  lemma {:induction false} FirstByKeyFixed<T, K>(xs: seq<T>, key: T -> K, seen: set<K>)
    ensures FirstByKey(xs, key, seen) == xs
       <==> Keys(xs, key) !! seen && forall i, j :: 0 <= i < j < |xs| ==> key(xs[i]) != key(xs[j])
  {
    FirstByKeySound(xs, key, seen);
    if Keys(xs, key) !! seen && forall i, j :: 0 <= i < j < |xs| ==> key(xs[i]) != key(xs[j]) {
      if xs != [] {
        assert xs[0] in xs;
        var rest := xs[1..];
        assert Keys(rest, key) !! seen + {key(xs[0])};
        FirstByKeyFixed(rest, key, seen + {key(xs[0])});
      }
    }
  }

  method DedupeBy<T, K(==)>(xs: seq<T>, key: T -> K) returns (out: seq<T>)
    ensures out == FirstByKey(xs, key, {})
  {
    var seen: set<K> := {};
    out := [];
    for i := 0 to |xs|
      invariant FirstByKey(xs, key, {}) == out + FirstByKey(xs[i..], key, seen)
    {
      assert xs[i..][1..] == xs[i + 1..];
      if key(xs[i]) !in seen {
        seen := seen + {key(xs[i])};
        out := out + [xs[i]];
      }
    }
  }
}
