/** Ordering a sequence by a total preorder, as the repositories' OrderBy clauses do.
  * Elements with equal keys come out in an order the database chooses; the model's
  * choice is the one insertion sort gives. */
module Sorting {

  /** `le` is a total preorder: any two elements compare, and comparisons chain. */
  ghost predicate TotalPreorder<T(!new)>(le: (T, T) -> bool)
  {
    && (forall a, b :: le(a, b) || le(b, a))
    && (forall a, b, c :: le(a, b) && le(b, c) ==> le(a, c))
  }

  predicate SortedBy<T>(xs: seq<T>, le: (T, T) -> bool)
  {
    forall i, j :: 0 <= i < j < |xs| ==> le(xs[i], xs[j])
  }

  /** `x` placed before the first element it does not follow. */
  function Insert<T(!new)>(x: T, xs: seq<T>, le: (T, T) -> bool): (r: seq<T>)
    requires TotalPreorder(le) && SortedBy(xs, le)
    ensures SortedBy(r, le)
    ensures multiset(r) == multiset(xs) + multiset{x}
    ensures |r| == |xs| + 1
  {
    if xs == [] then [x]
    else if le(x, xs[0]) then
      assert forall j :: 0 <= j < |xs| ==> le(xs[0], xs[j]);
      [x] + xs
    else
      var rest := Insert(x, xs[1..], le);
      assert xs == [xs[0]] + xs[1..];
      forall y | y in rest ensures le(xs[0], y) {
        assert y in multiset(rest);
        if y != x {
          assert y in multiset(xs[1..]);
          var j :| 0 <= j < |xs[1..]| && xs[1..][j] == y;
          assert y == xs[j + 1];
        }
      }
      [xs[0]] + rest
  }

  /** OrderBy: a sorted permutation of the input. */
  function SortBy<T(!new)>(xs: seq<T>, le: (T, T) -> bool): (r: seq<T>)
    requires TotalPreorder(le)
    ensures SortedBy(r, le)
    ensures multiset(r) == multiset(xs)
    ensures |r| == |xs|
  {
    if xs == [] then []
    else
      assert xs == xs[..|xs| - 1] + [xs[|xs| - 1]];
      Insert(xs[|xs| - 1], SortBy(xs[..|xs| - 1], le), le)
  }

  /** LINQ Take: the first `n` elements, none when `n` is not positive. */
  function Take<T>(xs: seq<T>, n: int): (r: seq<T>)
    ensures |r| == if n <= 0 then 0 else if n < |xs| then n else |xs|
    ensures r == xs[..|r|]
  {
    if n <= 0 then [] else if n < |xs| then xs[..n] else xs
  }

  /** LINQ Skip: all but the first `n` elements, all of them when `n` is not positive. */
  function Skip<T>(xs: seq<T>, n: int): (r: seq<T>)
    ensures |r| == if n <= 0 then |xs| else if n < |xs| then |xs| - n else 0
    ensures r == xs[|xs| - |r|..]
  {
    if n <= 0 then xs else if n < |xs| then xs[n..] else []
  }

  /** In a sorted sequence, everything after a prefix follows everything in it: the
    * first `n` elements taken are `n` least ones. */
  lemma {:induction false} TakeIsLeast<T>(xs: seq<T>, le: (T, T) -> bool, n: int, a: T, b: T)
    requires SortedBy(xs, le)
    requires a in Take(xs, n) && b in xs && b !in Take(xs, n)
    ensures le(a, b)
  {
    var t := Take(xs, n);
    var i :| 0 <= i < |t| && t[i] == a;
    var j :| 0 <= j < |xs| && xs[j] == b;
    assert xs[i] == a;
  }
}
