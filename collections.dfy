/** Turning sets into lists: `list(some_set)`, whose order Python leaves
    unspecified, and `sorted(some_set)`. */
module Collections {

  predicate Distinct<T(==)>(q: seq<T>) {
    forall i, j | 0 <= i < j < |q| :: q[i] != q[j]
  }

  predicate StrictlyIncreasing(q: seq<int>) {
    forall i, j | 0 <= i < j < |q| :: q[i] < q[j]
  }

  /** `list(s)`: the elements of s, each once, in an unspecified order. */
  method ListOf<T(==)>(s: set<T>) returns (q: seq<T>)
    ensures Distinct(q) && |q| == |s|
    ensures forall x :: x in q <==> x in s
  {
    q := [];
    var rest := s;
    while rest != {}
      invariant Distinct(q)
      invariant rest !! set x | x in q
      invariant forall x :: x in s <==> x in q || x in rest
      invariant |q| + |rest| == |s|
      decreases rest
    {
      var x :| x in rest;
      q := q + [x];
      rest := rest - {x};
    }
  }

  /** Some element of a non-empty set. */
  method Pick<T>(s: set<T>) returns (x: T)
    requires s != {}
    ensures x in s
  {
    x :| x in s;
  }

  /** x inserted into the strictly increasing sequence q at its place. */
  function Insert(q: seq<int>, x: int): (r: seq<int>)
    requires StrictlyIncreasing(q) && x !in q
    ensures StrictlyIncreasing(r) && |r| == |q| + 1
    ensures forall y :: y in r <==> y in q || y == x
  {
    if q == [] || x < q[0] then [x] + q
    else
      var tail := Insert(q[1..], x);
      assert forall k | 0 <= k < |tail| :: q[0] < tail[k] by {
        forall k | 0 <= k < |tail| ensures q[0] < tail[k] {
          assert tail[k] in tail;
          if tail[k] != x {
            var j :| 1 <= j < |q| && q[j] == tail[k];
          }
        }
      }
      [q[0]] + tail
  }

  /** `sorted(s)` for a set of integers: its elements in increasing order. */
  method SortedList(s: set<int>) returns (q: seq<int>)
    ensures StrictlyIncreasing(q) && |q| == |s|
    ensures forall x :: x in q <==> x in s
  {
    q := [];
    var rest := s;
    ghost var done: set<int> := {};
    while |rest| > 0
      invariant StrictlyIncreasing(q)
      invariant forall y :: y in q <==> y in done
      invariant done !! rest && done + rest == s
      invariant |q| == |done|
      decreases rest
    {
      var x := Pick(rest);
      q := Insert(q, x);
      rest := rest - {x};
      done := done + {x};
    }
  }
}
