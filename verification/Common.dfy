/** Sizes and arithmetic that several modules share. */
module Common {
  const PAGE_SIZE: nat := 4096
  const BLOCK_SIZE: nat := 1024

  newtype byte = x: int | 0 <= x < 256

  function Max(a: nat, b: nat): nat {
    if a < b then b else a
  }

  function Min(a: nat, b: nat): nat {
    if a < b then a else b
  }

  ghost function Range(lo: nat, hi: nat): (r: set<nat>)
    requires lo <= hi
    ensures |r| == hi - lo && forall i: nat {:trigger i in r} :: i in r <==> lo <= i < hi
    decreases hi
  {
    if lo == hi then {} else Range(lo, hi - 1) + {hi - 1}
  }

  /** No element occurs twice. */
  ghost predicate Spread(q: seq<nat>) {
    forall i, j {:trigger q[i], q[j]} :: 0 <= i < j < |q| ==> q[i] != q[j]
  }

  lemma {:induction false} SpreadCount(q: seq<nat>, elems: set<nat>)
    requires Spread(q) && forall x {:trigger x in elems} :: x in elems <==> x in q
    ensures |elems| == |q|
    decreases |q|
  {
    if q == [] {
      assert elems == {};
    } else {
      var n := |q| - 1;
      assert q == q[..n] + [q[n]];
      SpreadCount(q[..n], elems - {q[n]});
    }
  }

  lemma Within(x: set<nat>, y: set<nat>)
    requires x <= y
    ensures |x| <= |y|
  {
    assert y == x + (y - x);
  }
}
