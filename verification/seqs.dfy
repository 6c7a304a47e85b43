/** Generic sequence operations the selectors and editors are built from:
    `Array.prototype.filter`, counting, and `Array.from(new Set(xs))`. */
module Seqs {

  /** `xs.filter(f)`: the elements satisfying `f`, in their original order. */
  function Filter<T>(xs: seq<T>, f: T -> bool): (r: seq<T>)
    ensures |r| <= |xs|
    ensures forall i :: 0 <= i < |r| ==> f(r[i])
    ensures forall i :: 0 <= i < |xs| && f(xs[i]) ==> xs[i] in r
    ensures multiset(r) <= multiset(xs)
  {
    if xs == [] then []
    else
      assert xs == [xs[0]] + xs[1..];
      if f(xs[0]) then [xs[0]] + Filter(xs[1..], f)
      else Filter(xs[1..], f)
  }

  /** An element survives filtering exactly when it is present and satisfies `f`. */
  lemma {:induction false} FilterMember<T>(xs: seq<T>, f: T -> bool, x: T)
    ensures x in Filter(xs, f) <==> x in xs && f(x)
  {
    var r := Filter(xs, f);
    if x in r {
      assert x in multiset(r);
    }
  }

  /** The number of elements satisfying `f` (`xs.filter(f).length`), defined
      independently of `Filter`. */
  function Count<T>(xs: seq<T>, f: T -> bool): nat
  {
    if xs == [] then 0 else (if f(xs[0]) then 1 else 0) + Count(xs[1..], f)
  }

  /** `sub` is an order-preserving subsequence of `xs`. */
  predicate IsSubsequence<T(==)>(sub: seq<T>, xs: seq<T>)
  {
    if sub == [] then true
    else if xs == [] then false
    else if sub[0] == xs[0] then IsSubsequence(sub[1..], xs[1..])
    else IsSubsequence(sub, xs[1..])
  }

  lemma {:induction false} SubsequenceOfTail<T>(sub: seq<T>, xs: seq<T>)
    requires xs != []
    requires IsSubsequence(sub, xs[1..])
    ensures IsSubsequence(sub, xs)
    decreases |xs|, 1
  {
    if sub != [] && sub[0] == xs[0] {
      SubsequenceDropHead(sub, xs[1..]);
    }
  }

  lemma {:induction false} SubsequenceDropHead<T>(sub: seq<T>, xs: seq<T>)
    requires sub != []
    requires IsSubsequence(sub, xs)
    ensures IsSubsequence(sub[1..], xs)
    decreases |xs|, 2
  {
    if xs == [] {
    } else if sub[0] == xs[0] {
      if sub[1..] != [] {
        SubsequenceDropHead(sub[1..], xs[1..]);
        SubsequenceOfTail(sub[1..], xs);
      }
    } else {
      SubsequenceDropHead(sub, xs[1..]);
      if sub[1..] != [] {
        SubsequenceOfTail(sub[1..], xs);
      }
    }
  }

  /** Filtering keeps the surviving elements in their original order. */
  lemma {:induction false} FilterIsSubsequence<T>(xs: seq<T>, f: T -> bool)
    ensures IsSubsequence(Filter(xs, f), xs)
  {
    if xs != [] {
      FilterIsSubsequence(xs[1..], f);
      if !f(xs[0]) {
        SubsequenceOfTail(Filter(xs[1..], f), xs);
      } else {
        assert Filter(xs, f)[1..] == Filter(xs[1..], f);
      }
    }
  }

  /** A prefix of a subsequence is a subsequence. */
  lemma {:induction false} SubsequencePrefix<T>(sub: seq<T>, xs: seq<T>, k: nat)
    requires IsSubsequence(sub, xs) && k <= |sub|
    ensures IsSubsequence(sub[..k], xs)
    decreases |xs|
  {
    if k > 0 {
      if sub[0] == xs[0] {
        SubsequencePrefix(sub[1..], xs[1..], k - 1);
        assert sub[..k][1..] == sub[1..][..k - 1];
      } else {
        SubsequencePrefix(sub, xs[1..], k);
      }
    }
  }

  /** Counting agrees with the length of the filtered sequence. */
  lemma {:induction false} CountIsFilterLength<T>(xs: seq<T>, f: T -> bool)
    ensures Count(xs, f) == |Filter(xs, f)|
  {
    if xs != [] {
      CountIsFilterLength(xs[1..], f);
    }
  }

  /** The count reaches the length exactly when every element satisfies `f`. */
  lemma {:induction false} CountAllIff<T>(xs: seq<T>, f: T -> bool)
    ensures Count(xs, f) <= |xs|
    ensures Count(xs, f) == |xs| <==> forall x :: x in xs ==> f(x)
  {
    if xs != [] {
      CountAllIff(xs[1..], f);
      assert forall x :: x in xs <==> x == xs[0] || x in xs[1..];
    }
  }

  /** Filtering with an always-true predicate is the identity. */
  lemma {:induction false} FilterAll<T>(xs: seq<T>, f: T -> bool)
    requires forall x :: x in xs ==> f(x)
    ensures Filter(xs, f) == xs
  {
    if xs != [] {
      FilterAll(xs[1..], f);
    }
  }

  /** Filtering with a predicate no element satisfies leaves nothing. */
  lemma {:induction false} FilterNone<T>(xs: seq<T>, f: T -> bool)
    requires forall i :: 0 <= i < |xs| ==> !f(xs[i])
    ensures Filter(xs, f) == []
  {
    if xs != [] {
      assert !f(xs[0]);
      FilterNone(xs[1..], f);
    }
  }

  /** Filtering distributes over concatenation. */
  lemma {:induction false} FilterAppend<T>(xs: seq<T>, ys: seq<T>, f: T -> bool)
    ensures Filter(xs + ys, f) == Filter(xs, f) + Filter(ys, f)
  {
    if xs == [] {
      assert xs + ys == ys;
    } else {
      assert (xs + ys)[1..] == xs[1..] + ys;
      FilterAppend(xs[1..], ys, f);
    }
  }

  lemma {:induction false} SeqAssoc<T>(a: seq<T>, b: seq<T>, c: seq<T>)
    ensures a + (b + c) == (a + b) + c
  {
  }

  /** Prepending the same element to two sequences whose filterings differ
      by a common suffix keeps that relation. */
  lemma {:induction false} FilterConsBoth<T>(h: T, t: seq<T>, u: seq<T>, tail: seq<T>, f: T -> bool)
    requires Filter(t, f) == Filter(u, f) + tail
    ensures Filter([h] + t, f) == Filter([h] + u, f) + tail
  {
    FilterAppend([h], t, f);
    FilterAppend([h], u, f);
    var f0 := Filter([h], f);
    calc {
      Filter([h] + t, f);
      f0 + (Filter(u, f) + tail);
      { SeqAssoc(f0, Filter(u, f), tail); }
      (f0 + Filter(u, f)) + tail;
    }
  }

  /** A prefix extended by the next element is the longer prefix. */
  lemma {:induction false} TakeSnoc<T>(xs: seq<T>, k: nat)
    requires k < |xs|
    ensures xs[..k] + [xs[k]] == xs[..k + 1]
  {
  }

  /** No element occurs twice. */
  predicate NoDuplicates<T(==)>(xs: seq<T>)
  {
    forall i, j :: 0 <= i < j < |xs| ==> xs[i] != xs[j]
  }

  /** The position of the first occurrence of `x` in `xs`. */
  function FirstIndex<T(==)>(xs: seq<T>, x: T): (i: nat)
    requires x in xs
    ensures i < |xs| && xs[i] == x
    ensures forall j :: 0 <= j < i ==> xs[j] != x
  {
    if xs[0] == x then 0 else 1 + FirstIndex(xs[1..], x)
  }

  /** `Array.from(new Set(xs))`: each distinct element once, in the order of
      its first occurrence (a JavaScript `Set` iterates in insertion order). */
  method UniqueInOrder<T(==)>(xs: seq<T>) returns (r: seq<T>)
    ensures NoDuplicates(r)
    ensures forall x :: x in r <==> x in xs
    ensures forall i, j :: 0 <= i < j < |r| ==> FirstIndex(xs, r[i]) < FirstIndex(xs, r[j])
  {
    r := [];
    var k := 0;
    while k < |xs|
      invariant 0 <= k <= |xs|
      invariant NoDuplicates(r)
      invariant forall x :: x in r <==> x in xs[..k]
      invariant forall i :: 0 <= i < |r| ==> r[i] in xs && FirstIndex(xs, r[i]) < k
      invariant forall i, j :: 0 <= i < j < |r| ==> FirstIndex(xs, r[i]) < FirstIndex(xs, r[j])
    {
      if xs[k] !in r {
        assert xs[k] !in xs[..k];
        forall j | 0 <= j < k
          ensures xs[j] != xs[k]
        {
          assert xs[j] == xs[..k][j];
        }
        assert FirstIndex(xs, xs[k]) == k;
        r := r + [xs[k]];
      }
      assert xs[..k + 1] == xs[..k] + [xs[k]];
      k := k + 1;
    }
    assert xs[..k] == xs;
  }
}
