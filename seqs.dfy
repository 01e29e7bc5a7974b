/**
 * Order-preserving selection from a sequence, Python's `[x for x in xs if p(x)]`, the
 * element-wise image of a sequence, `[f(x) for x in xs]`, and the concatenation of a
 * sequence of sequences.
 */
module Seqs {

  function Filter<T>(xs: seq<T>, p: T -> bool): (r: seq<T>)
    ensures |r| <= |xs|
    ensures forall i :: 0 <= i < |r| ==> p(r[i]) && r[i] in xs
    ensures forall i :: 0 <= i < |xs| && p(xs[i]) ==> xs[i] in r
    ensures multiset(r) <= multiset(xs)
  {
    if xs == [] then []
    else
      assert xs == [xs[0]] + xs[1..];
      (if p(xs[0]) then [xs[0]] else []) + Filter(xs[1..], p)
  }

  /** Selecting by a property every element has keeps everything. */
  lemma {:induction false} FilterAll<T>(xs: seq<T>, p: T -> bool)
    requires forall i :: 0 <= i < |xs| ==> p(xs[i])
    ensures Filter(xs, p) == xs
  {
    if xs != [] {
      assert forall i :: 0 <= i < |xs| - 1 ==> xs[1..][i] == xs[i + 1];
      FilterAll(xs[1..], p);
      assert Filter(xs, p) == [xs[0]] + Filter(xs[1..], p);
      HeadTail(xs);
    }
  }

  /** A non-empty sequence is its head followed by its tail. */
  lemma HeadTail<T>(xs: seq<T>)
    requires xs != []
    ensures xs == [xs[0]] + xs[1..]
  {
  }

  /** Selecting by a property no element has keeps nothing. */
  lemma {:induction false} FilterNone<T>(xs: seq<T>, p: T -> bool)
    requires forall i :: 0 <= i < |xs| ==> !p(xs[i])
    ensures Filter(xs, p) == []
  {
    if xs != [] {
      assert forall i :: 0 <= i < |xs| - 1 ==> xs[1..][i] == xs[i + 1];
      FilterNone(xs[1..], p);
    }
  }

  /** No element occurs twice. */
  predicate Distinct<T(==)>(xs: seq<T>) {
    forall i, j :: 0 <= i < j < |xs| ==> xs[i] != xs[j]
  }

  /** Selection distributes over concatenation. */
  lemma {:induction false} FilterConcat<T>(xs: seq<T>, ys: seq<T>, p: T -> bool)
    ensures Filter(xs + ys, p) == Filter(xs, p) + Filter(ys, p)
  {
    if xs == [] {
      assert xs + ys == ys;
    } else {
      assert (xs + ys)[1..] == xs[1..] + ys;
      FilterConcat(xs[1..], ys, p);
    }
  }

  /** The selection holds exactly the elements that satisfy `p`. */
  lemma FilterMember<T>(xs: seq<T>, p: T -> bool, x: T)
    ensures x in Filter(xs, p) <==> x in xs && p(x)
  {
    var r := Filter(xs, p);
    if x in r {
      var i :| 0 <= i < |r| && r[i] == x;
    }
    if x in xs && p(x) {
      var i :| 0 <= i < |xs| && xs[i] == x;
    }
  }

  /** The selection is empty exactly when no element qualifies. */
  lemma FilterEmpty<T>(xs: seq<T>, p: T -> bool)
    ensures Filter(xs, p) == [] <==> forall i :: 0 <= i < |xs| ==> !p(xs[i])
  {
    if Filter(xs, p) != [] {
      assert Filter(xs, p)[0] in xs;
    }
  }

  /** A non-empty selection starts with the first element that qualifies, at position `k`. */
  lemma {:induction false} FilterHead<T>(xs: seq<T>, p: T -> bool) returns (k: nat)
    requires Filter(xs, p) != []
    ensures k < |xs| && xs[k] == Filter(xs, p)[0]
    ensures forall j :: 0 <= j < k ==> !p(xs[j])
  {
    FilterCons(xs, p);
    if p(xs[0]) {
      k := 0;
    } else {
      var rest := xs[1..];
      var k' := FilterHead(rest, p);
      k := k' + 1;
      SkipNone(xs, p, k);
    }
  }

  /** Selection keeps the head when it satisfies `p`, then selects from the tail. */
  lemma FilterCons<T>(xs: seq<T>, p: T -> bool)
    requires Filter(xs, p) != []
    ensures xs != [] && Filter(xs, p) == (if p(xs[0]) then [xs[0]] else []) + Filter(xs[1..], p)
  {
  }

  /** Nothing before position `k` satisfies `p` when the head does not and nothing in the tail before `k - 1` does. */
  lemma SkipNone<T>(xs: seq<T>, p: T -> bool, k: nat)
    requires 0 < k <= |xs| && !p(xs[0])
    requires forall j :: 0 <= j < k - 1 ==> !p(xs[1..][j])
    ensures forall j :: 0 <= j < k ==> !p(xs[j])
  {
    forall j | 0 < j < k ensures !p(xs[j]) {
      assert xs[j] == xs[1..][j - 1];
    }
  }

  /** Selecting from a sequence extended by one element. */
  lemma FilterSnoc<T>(xs: seq<T>, x: T, p: T -> bool)
    ensures Filter(xs + [x], p) == Filter(xs, p) + (if p(x) then [x] else [])
  {
    assert Filter([x], p) == (if p(x) then [x] else []) by {
      assert [x][1..] == [];
    }
    FilterConcat(xs, [x], p);
  }

  /** A selection from a sequence without repetitions has none. */
  lemma {:induction false} FilterDistinct<T>(xs: seq<T>, p: T -> bool)
    requires Distinct(xs)
    ensures Distinct(Filter(xs, p))
  {
    if xs != [] {
      var rest := xs[1..];
      assert Distinct(rest) by {
        forall i, j | 0 <= i < j < |rest| ensures rest[i] != rest[j] {
          assert rest[i] == xs[i + 1] && rest[j] == xs[j + 1];
        }
      }
      FilterDistinct(rest, p);
      assert xs[0] !in rest by {
        forall i | 0 <= i < |rest| ensures rest[i] != xs[0] {
          assert rest[i] == xs[i + 1];
        }
      }
      DistinctConcat((if p(xs[0]) then [xs[0]] else []), Filter(rest, p));
    }
  }

  /** Two sequences without repetitions and with no element in common concatenate to one. */
  lemma DistinctConcat<T>(xs: seq<T>, ys: seq<T>)
    requires Distinct(xs) && Distinct(ys)
    requires forall i :: 0 <= i < |xs| ==> xs[i] !in ys
    ensures Distinct(xs + ys)
  {
    var zs := xs + ys;
    forall i, j | 0 <= i < j < |zs| ensures zs[i] != zs[j] {
      if j < |xs| {
        assert zs[i] == xs[i] && zs[j] == xs[j];
      } else if i < |xs| {
        assert zs[i] == xs[i] && zs[j] == ys[j - |xs|];
      } else {
        assert zs[i] == ys[i - |xs|] && zs[j] == ys[j - |xs|];
      }
    }
  }

  /** The set of the elements of `xs`. */
  ghost function Elems<T>(xs: seq<T>): set<T> {
    set x | x in xs
  }

  /** The set of the elements of `xs` that satisfy `p`. */
  ghost function ElemsWhere<T>(xs: seq<T>, p: T -> bool): set<T> {
    set x | x in xs && p(x)
  }

  /** Dropping the last element of a sequence without repetitions leaves one without it. */
  lemma DistinctInit<T>(xs: seq<T>)
    requires Distinct(xs) && xs != []
    ensures Distinct(xs[..|xs| - 1]) && xs[|xs| - 1] !in xs[..|xs| - 1]
  {
    var init := xs[..|xs| - 1];
    forall i, j | 0 <= i < j < |init| ensures init[i] != init[j] {
      assert init[i] == xs[i] && init[j] == xs[j];
    }
  }

  /** A sequence without repetitions has as many elements as the set of them. */
  lemma {:induction false} DistinctCardinality<T>(xs: seq<T>)
    requires Distinct(xs)
    ensures |Elems(xs)| == |xs|
  {
    if xs != [] {
      var init := xs[..|xs| - 1];
      DistinctInit(xs);
      DistinctCardinality(init);
      assert xs == init + [xs[|xs| - 1]];
      assert Elems(xs) == Elems(init) + {xs[|xs| - 1]};
    }
  }

  /** Selecting from a sequence without repetitions keeps as many elements as satisfy `p`. */
  lemma FilterCardinality<T>(xs: seq<T>, p: T -> bool)
    requires Distinct(xs)
    ensures |Filter(xs, p)| == |ElemsWhere(xs, p)|
  {
    var r := Filter(xs, p);
    FilterDistinct(xs, p);
    DistinctCardinality(r);
    assert Elems(r) == ElemsWhere(xs, p);
  }

  /** `[f(x) for x in xs]`. */
  function Map<A, B>(xs: seq<A>, f: A -> B): (r: seq<B>)
    ensures |r| == |xs|
  {
    if xs == [] then [] else [f(xs[0])] + Map(xs[1..], f)
  }

  /** Each element of the image is the function's value at the matching element. */
  lemma {:induction false} MapAt<A, B>(xs: seq<A>, f: A -> B, i: nat)
    requires i < |xs|
    ensures Map(xs, f)[i] == f(xs[i])
  {
    if i > 0 {
      MapAt(xs[1..], f, i - 1);
    }
  }

  /** The image of a concatenation is the concatenation of the images. */
  lemma {:induction false} MapConcat<A, B>(xs: seq<A>, ys: seq<A>, f: A -> B)
    ensures Map(xs + ys, f) == Map(xs, f) + Map(ys, f)
  {
    if xs == [] {
      assert xs + ys == ys;
    } else {
      assert (xs + ys)[1..] == xs[1..] + ys;
      MapConcat(xs[1..], ys, f);
    }
  }

  /** How often the selection holds `x`: as often as `xs` does when `p(x)`, else never. */
  lemma {:induction false} FilterCount<T>(xs: seq<T>, p: T -> bool, x: T)
    ensures multiset(Filter(xs, p))[x] == if p(x) then multiset(xs)[x] else 0
  {
    if xs != [] {
      var head := if p(xs[0]) then [xs[0]] else [];
      calc {
        multiset(Filter(xs, p))[x];
        multiset(head + Filter(xs[1..], p))[x];
        multiset(head)[x] + multiset(Filter(xs[1..], p))[x];
        { FilterCount(xs[1..], p, x); }
        multiset(head)[x] + (if p(x) then multiset(xs[1..])[x] else 0);
        { assert xs == [xs[0]] + xs[1..]; }
        if p(x) then multiset(xs)[x] else 0;
      }
    }
  }

  /** Selections from sequences holding the same elements hold the same elements. */
  lemma FilterSameElements<T>(xs: seq<T>, ys: seq<T>, p: T -> bool)
    requires multiset(xs) == multiset(ys)
    ensures multiset(Filter(xs, p)) == multiset(Filter(ys, p))
  {
    forall x ensures multiset(Filter(xs, p))[x] == multiset(Filter(ys, p))[x] {
      FilterCount(xs, p, x);
      FilterCount(ys, p, x);
    }
  }

  /** `[x for xs in xss for x in xs]`. */
  function Flatten<T>(xss: seq<seq<T>>): seq<T> {
    if xss == [] then [] else Flatten(xss[..|xss| - 1]) + xss[|xss| - 1]
  }

  /** The concatenation of the first `n` sequences extends that of the first `n - 1` by the `n`-th. */
  lemma FlattenPrefix<T>(xss: seq<seq<T>>, n: nat)
    requires 0 < n <= |xss|
    ensures Flatten(xss[..n]) == Flatten(xss[..n - 1]) + xss[n - 1]
  {
    assert xss[..n][..n - 1] == xss[..n - 1];
  }

  /** Replacing one of the sequences replaces its elements among those of the concatenation. */
  lemma {:induction false} FlattenUpdate<T>(xss: seq<seq<T>>, i: nat, ys: seq<T>)
    requires i < |xss|
    ensures multiset(Flatten(xss[i := ys])) == multiset(Flatten(xss)) - multiset(xss[i]) + multiset(ys)
  {
    var n := |xss| - 1;
    var yss := xss[i := ys];
    if i == n {
      assert yss[..n] == xss[..n];
    } else {
      assert yss[..n] == xss[..n][i := ys];
      assert Flatten(xss) == Flatten(xss[..n]) + xss[n];
      assert Flatten(yss) == Flatten(yss[..n]) + xss[n];
      FlattenUpdate(xss[..n], i, ys);
      FlattenHolds(xss[..n], i);
    }
  }

  /** Every sequence's elements are among those of the concatenation. */
  lemma {:induction false} FlattenHolds<T>(xss: seq<seq<T>>, i: nat)
    requires i < |xss|
    ensures multiset(xss[i]) <= multiset(Flatten(xss))
  {
    var n := |xss| - 1;
    if i < n {
      FlattenHolds(xss[..n], i);
    }
  }
}
