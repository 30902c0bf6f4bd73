/** Sums over finite series of exact reals, shared by the indicators and the statistics. */
module Series {

  /** The sum of a series, taken from the front. */
  function Sum(xs: seq<real>): real
  {
    if xs == [] then 0.0 else xs[0] + Sum(xs[1..])
  }

  ghost predicate AllNonNegative(xs: seq<real>)
  {
    forall k :: 0 <= k < |xs| ==> xs[k] >= 0.0
  }

  ghost predicate AllZero(xs: seq<real>)
  {
    forall k :: 0 <= k < |xs| ==> xs[k] == 0.0
  }

  /** A sum of non-negative terms is non-negative, and zero exactly when every term is zero. */
  lemma {:induction false} SumNonNegative(xs: seq<real>)
    requires AllNonNegative(xs)
    ensures Sum(xs) >= 0.0
    ensures Sum(xs) == 0.0 <==> AllZero(xs)
  {
    if xs != [] {
      var tail := xs[1..];
      assert forall k :: 0 <= k < |tail| ==> tail[k] == xs[k + 1];
      SumNonNegative(tail);
      if AllZero(xs) {
        assert AllZero(tail);
      }
      if Sum(xs) == 0.0 {
        assert xs[0] == 0.0 && Sum(tail) == 0.0;
        forall k | 0 <= k < |xs| ensures xs[k] == 0.0 {
          if k > 0 { assert xs[k] == tail[k - 1]; }
        }
      }
    }
  }

  /** A series of n copies of c sums to n * c. */
  lemma {:induction false} SumConstant(xs: seq<real>, c: real)
    requires forall k :: 0 <= k < |xs| ==> xs[k] == c
    ensures Sum(xs) == |xs| as real * c
  {
    if xs != [] {
      var tail := xs[1..];
      assert forall k :: 0 <= k < |tail| ==> tail[k] == xs[k + 1];
      SumConstant(tail, c);
    }
  }
}
