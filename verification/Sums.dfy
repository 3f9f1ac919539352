/** Sums of lists of reals. */
module Sums {

  /** A product by name, so that a proof about sums need not multiply. */
  function Product(x: real, y: real): real {
    x * y
  }

  function Sum(xs: seq<real>): real {
    if xs == [] then 0.0 else Sum(xs[..|xs| - 1]) + xs[|xs| - 1]
  }

  /** Pulls the first term out. */
  lemma {:induction false} SumCons(xs: seq<real>)
    requires xs != []
    ensures Sum(xs) == xs[0] + Sum(xs[1..])
    decreases |xs|
  {
    if |xs| > 1 {
      SumCons(xs[..|xs| - 1]);
      assert xs[1..][..|xs| - 2] == xs[..|xs| - 1][1..];
    }
  }

  lemma {:induction false} SumZero(xs: seq<real>)
    requires forall i | 0 <= i < |xs| :: xs[i] == 0.0
    ensures Sum(xs) == 0.0
  {
    if xs != [] { SumZero(xs[..|xs| - 1]); }
  }

  /** Larger terms, larger sum; strictly so when one term is strictly larger. */
  lemma {:induction false} SumGrows(xs: seq<real>, ys: seq<real>)
    requires |xs| == |ys| && forall i | 0 <= i < |xs| :: xs[i] <= ys[i]
    ensures Sum(xs) <= Sum(ys)
    ensures (exists i | 0 <= i < |xs| :: xs[i] < ys[i]) ==> Sum(xs) < Sum(ys)
  {
    if xs != [] {
      var n := |xs| - 1;
      SumGrows(xs[..n], ys[..n]);
      if i :| 0 <= i < |xs| && xs[i] < ys[i] {
        assert i < n ==> xs[..n][i] < ys[..n][i];
      }
    }
  }

  lemma {:induction false} PositiveTerm(xs: seq<real>) returns (i: nat)
    requires Sum(xs) > 0.0
    ensures i < |xs| && xs[i] > 0.0
  {
    var n := |xs| - 1;
    if xs[n] > 0.0 {
      i := n;
    } else {
      i := PositiveTerm(xs[..n]);
    }
  }

  lemma Commute(x: real, y: real)
    ensures Product(x, y) == Product(y, x)
  {
  }

  lemma Spread(share: real, a: real, b: real)
    ensures Product(share, a + b) == Product(share, a) + Product(share, b)
  {
  }

  lemma {:induction false} SumScaled(xs: seq<real>, share: real, ys: seq<real>)
    requires |xs| == |ys| && forall i | 0 <= i < |xs| :: ys[i] == Product(share, xs[i])
    ensures Sum(ys) == Product(share, Sum(xs))
  {
    if xs == [] {
      assert Product(share, 0.0) == 0.0;
    } else {
      var n := |xs| - 1;
      SumScaled(xs[..n], share, ys[..n]);
      Spread(share, Sum(xs[..n]), xs[n]);
    }
  }

  lemma {:induction false} SumSum(xs: seq<real>, ys: seq<real>, zs: seq<real>)
    requires |xs| == |ys| == |zs| && forall i | 0 <= i < |xs| :: zs[i] == xs[i] + ys[i]
    ensures Sum(zs) == Sum(xs) + Sum(ys)
  {
    if xs != [] {
      var n := |xs| - 1;
      SumSum(xs[..n], ys[..n], zs[..n]);
    }
  }
}
