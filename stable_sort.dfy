/**
 * Python's `list.sort(key=...)` for keys that are pairs of integers compared lexicographically:
 * the result is ordered by key, holds the same elements, and elements with equal keys keep
 * their original order (the sort is stable).
 */
module StableSort {
  type Key = (int, int)

  /** Tuple comparison `a <= b`. */
  predicate KeyLe(a: Key, b: Key) {
    a.0 < b.0 || (a.0 == b.0 && a.1 <= b.1)
  }

  predicate SortedBy<T>(xs: seq<T>, key: T -> Key) {
    forall i, j :: 0 <= i < j < |xs| ==> KeyLe(key(xs[i]), key(xs[j]))
  }

  /** The elements of `xs` whose key is `k`, in order: `[x for x in xs if key(x) == k]`. */
  function WithKey<T>(xs: seq<T>, key: T -> Key, k: Key): seq<T> {
    if xs == [] then []
    else (if key(xs[0]) == k then [xs[0]] else []) + WithKey(xs[1..], key, k)
  }

  lemma {:induction false} WithKeyConcat<T>(xs: seq<T>, ys: seq<T>, key: T -> Key, k: Key)
    ensures WithKey(xs + ys, key, k) == WithKey(xs, key, k) + WithKey(ys, key, k)
  {
    if xs == [] {
      assert xs + ys == ys;
    } else {
      assert (xs + ys)[1..] == xs[1..] + ys;
      WithKeyConcat(xs[1..], ys, key, k);
    }
  }

  /** Places `x` after every element whose key is not greater than its own. */
  function Insert<T>(xs: seq<T>, x: T, key: T -> Key): (r: seq<T>)
    ensures |r| == |xs| + 1
    ensures multiset(r) == multiset(xs) + multiset{x}
  {
    if xs == [] then [x]
    else if !KeyLe(key(xs[0]), key(x)) then [x] + xs
    else
      assert xs == [xs[0]] + xs[1..];
      [xs[0]] + Insert(xs[1..], x, key)
  }

  /** Every element of the insertion is bounded below by `b` when `x` and all of `xs` are. */
  lemma {:induction false} InsertBounded<T>(xs: seq<T>, x: T, key: T -> Key, b: Key)
    requires forall i :: 0 <= i < |xs| ==> KeyLe(b, key(xs[i]))
    requires KeyLe(b, key(x))
    ensures forall i :: 0 <= i < |Insert(xs, x, key)| ==> KeyLe(b, key(Insert(xs, x, key)[i]))
  {
    if xs != [] && KeyLe(key(xs[0]), key(x)) {
      InsertBounded(xs[1..], x, key, b);
      var r := Insert(xs, x, key);
      assert forall i :: 1 <= i < |r| ==> r[i] == Insert(xs[1..], x, key)[i - 1];
    }
  }

  /** Insertion keeps a sorted sequence sorted. */
  lemma {:induction false} InsertSorted<T>(xs: seq<T>, x: T, key: T -> Key)
    requires SortedBy(xs, key)
    ensures SortedBy(Insert(xs, x, key), key)
  {
    if xs != [] && KeyLe(key(xs[0]), key(x)) {
      var tail := xs[1..];
      var rest := Insert(tail, x, key);
      assert SortedBy(tail, key) by {
        forall i, j | 0 <= i < j < |tail| ensures KeyLe(key(tail[i]), key(tail[j])) {
          assert tail[i] == xs[i + 1] && tail[j] == xs[j + 1];
        }
      }
      InsertSorted(tail, x, key);
      assert forall i :: 0 <= i < |tail| ==> tail[i] == xs[i + 1];
      InsertBounded(tail, x, key, key(xs[0]));
      var r := [xs[0]] + rest;
      forall i, j | 0 <= i < j < |r| ensures KeyLe(key(r[i]), key(r[j])) {
        assert r[j] == rest[j - 1];
        if i > 0 {
          assert r[i] == rest[i - 1];
        }
      }
    }
  }

  /** Insertion sort, the reference the sorting method is proved against. */
  function Sorted<T>(xs: seq<T>, key: T -> Key): seq<T> {
    if xs == [] then [] else Insert(Sorted(xs[..|xs| - 1], key), xs[|xs| - 1], key)
  }

  /** The sort orders by key and is a permutation. */
  lemma {:induction false} SortedProperties<T>(xs: seq<T>, key: T -> Key)
    ensures SortedBy(Sorted(xs, key), key)
    ensures multiset(Sorted(xs, key)) == multiset(xs)
    ensures |Sorted(xs, key)| == |xs|
  {
    if xs != [] {
      SortedProperties(xs[..|xs| - 1], key);
      InsertSorted(Sorted(xs[..|xs| - 1], key), xs[|xs| - 1], key);
      assert xs == xs[..|xs| - 1] + [xs[|xs| - 1]];
    }
  }

  /** In a sorted sequence whose head has a key greater than `k`, nothing has key `k`. */
  lemma AllAbove<T>(xs: seq<T>, key: T -> Key, k: Key)
    requires SortedBy(xs, key) && xs != [] && !KeyLe(key(xs[0]), k)
    ensures WithKey(xs, key, k) == []
  {
    forall i | 0 <= i < |xs| ensures key(xs[i]) != k {
      if i > 0 {
        assert KeyLe(key(xs[0]), key(xs[i]));
      }
    }
    NoneWithKey(xs, key, k);
  }

  lemma {:induction false} NoneWithKey<T>(xs: seq<T>, key: T -> Key, k: Key)
    requires forall i :: 0 <= i < |xs| ==> key(xs[i]) != k
    ensures WithKey(xs, key, k) == []
  {
    if xs != [] {
      assert forall i :: 0 <= i < |xs| - 1 ==> xs[1..][i] == xs[i + 1];
      NoneWithKey(xs[1..], key, k);
    }
  }

  /** Inserting `x` puts it after the elements that share its key. */
  lemma {:induction false} InsertWithKey<T>(xs: seq<T>, x: T, key: T -> Key, k: Key)
    requires SortedBy(xs, key)
    ensures WithKey(Insert(xs, x, key), key, k) == WithKey(xs, key, k) + (if key(x) == k then [x] else [])
  {
    if xs == [] {
    } else if !KeyLe(key(xs[0]), key(x)) {
      InsertFrontWithKey(xs, x, key, k);
    } else {
      SortedTail(xs, key);
      InsertWithKey(xs[1..], x, key, k);
      InsertLaterWithKey(xs, x, key, k);
    }
  }

  /** When `x` goes in front of a sorted sequence, nothing before it shares its key. */
  lemma InsertFrontWithKey<T>(xs: seq<T>, x: T, key: T -> Key, k: Key)
    requires SortedBy(xs, key) && xs != [] && !KeyLe(key(xs[0]), key(x))
    ensures WithKey(Insert(xs, x, key), key, k) == WithKey(xs, key, k) + (if key(x) == k then [x] else [])
  {
    if key(x) == k {
      AllAbove(xs, key, k);
    }
    assert ([x] + xs)[1..] == xs;
  }

  /** When `x` goes after the head, the head's entry comes first and the rest follows from the tail. */
  lemma InsertLaterWithKey<T>(xs: seq<T>, x: T, key: T -> Key, k: Key)
    requires xs != [] && KeyLe(key(xs[0]), key(x))
    requires WithKey(Insert(xs[1..], x, key), key, k) == WithKey(xs[1..], key, k) + (if key(x) == k then [x] else [])
    ensures WithKey(Insert(xs, x, key), key, k) == WithKey(xs, key, k) + (if key(x) == k then [x] else [])
  {
    var rest := Insert(xs[1..], x, key);
    var h := if key(xs[0]) == k then [xs[0]] else [];
    var t := if key(x) == k then [x] else [];
    calc {
      WithKey(Insert(xs, x, key), key, k);
      WithKey([xs[0]] + rest, key, k);
      { assert ([xs[0]] + rest)[1..] == rest; }
      h + WithKey(rest, key, k);
      h + (WithKey(xs[1..], key, k) + t);
      { AppendAssoc(h, WithKey(xs[1..], key, k), t); }
      (h + WithKey(xs[1..], key, k)) + t;
      { WithKeyCons(xs, key, k); }
      WithKey(xs, key, k) + t;
    }
  }

  lemma AppendAssoc<T>(a: seq<T>, b: seq<T>, c: seq<T>)
    ensures a + (b + c) == (a + b) + c
  {
  }

  lemma WithKeyCons<T>(xs: seq<T>, key: T -> Key, k: Key)
    requires xs != []
    ensures WithKey(xs, key, k) == (if key(xs[0]) == k then [xs[0]] else []) + WithKey(xs[1..], key, k)
  {
  }

  lemma SortedTail<T>(xs: seq<T>, key: T -> Key)
    requires SortedBy(xs, key) && xs != []
    ensures SortedBy(xs[1..], key)
  {
    forall i, j | 0 <= i < j < |xs| - 1 ensures KeyLe(key(xs[1..][i]), key(xs[1..][j])) {
      assert xs[1..][i] == xs[i + 1] && xs[1..][j] == xs[j + 1];
    }
  }

  /** Stability: for every key, the elements carrying it come out in their input order. */
  lemma {:induction false} SortedIsStable<T>(xs: seq<T>, key: T -> Key, k: Key)
    ensures WithKey(Sorted(xs, key), key, k) == WithKey(xs, key, k)
  {
    if xs != [] {
      var init, last := xs[..|xs| - 1], xs[|xs| - 1];
      var tag := if key(last) == k then [last] else [];
      assert WithKey([last], key, k) == tag by {
        assert [last][1..] == [];
      }
      SortedProperties(init, key);
      calc {
        WithKey(Sorted(xs, key), key, k);
        WithKey(Insert(Sorted(init, key), last, key), key, k);
        { InsertWithKey(Sorted(init, key), last, key, k); }
        WithKey(Sorted(init, key), key, k) + tag;
        { SortedIsStable(init, key, k); }
        WithKey(init, key, k) + WithKey([last], key, k);
        { WithKeyConcat(init, [last], key, k); }
        WithKey(init + [last], key, k);
        { assert init + [last] == xs; }
        WithKey(xs, key, k);
      }
    }
  }

  /** `xs.sort(key=key)`: inserts the elements one by one into a sorted prefix. */
  method SortByKey<T>(xs: seq<T>, key: T -> Key) returns (ys: seq<T>)
    ensures ys == Sorted(xs, key)
    ensures SortedBy(ys, key) && multiset(ys) == multiset(xs)
  {
    ys := [];
    var i := 0;
    while i < |xs|
      invariant i <= |xs|
      invariant ys == Sorted(xs[..i], key)
    {
      assert xs[..i + 1][..i] == xs[..i];
      ys := Insert(ys, xs[i], key);
      i := i + 1;
    }
    assert xs[..i] == xs;
    SortedProperties(xs, key);
  }
}
