/** The laws assumed of the natural exponential and logarithm. The engine calls
    `np.exp` (inside the softmax) and `np.log` (for the reward); the model takes
    them as function parameters and states only the laws its proofs rely on. */
module ExpLog {

  /** Positive, monotone, and one at zero. */
  ghost predicate IsExp(exp: real -> real)
  {
    && (forall x :: exp(x) > 0.0)
    && (forall x, y :: x <= y ==> exp(x) <= exp(y))
    && exp(0.0) == 1.0
  }

  /** Zero at one and strictly increasing on the positive reals. */
  ghost predicate IsLog(log: real -> real)
  {
    && log(1.0) == 0.0
    && (forall x, y :: 0.0 < x < y ==> log(x) < log(y))
  }

  /** The sign of the logarithm of a positive number is the side of one it lies on. */
  lemma LogSign(log: real -> real, x: real)
    requires IsLog(log)
    requires x > 0.0
    ensures log(x) > 0.0 <==> x > 1.0
    ensures log(x) == 0.0 <==> x == 1.0
    ensures log(x) < 0.0 <==> x < 1.0
  {
    if x < 1.0 {
      assert log(x) < log(1.0);
    } else if x > 1.0 {
      assert log(1.0) < log(x);
    }
  }
}

/** The allocation mapper `_softmax` (rl_environment.py:92-94): the action has
    its maximum subtracted, is exponentiated componentwise and is divided by the
    sum of the exponentials. */
module Allocation {
  import opened SeqMath
  import opened ExpLog

  /** A legal allocation: non-negative weights summing to one. */
  ghost predicate IsSimplex(w: seq<real>)
  {
    NonNegative(w) && Sum(w) == 1.0
  }

  /** The stabilised exponentials `exp(x - max(x))`. */
  function Exponentials(x: seq<real>, exp: real -> real): (e: seq<real>)
    requires |x| > 0
    requires IsExp(exp)
    ensures |e| == |x|
    ensures Positive(e)
    ensures forall i, j :: 0 <= i < |x| && 0 <= j < |x| && x[i] <= x[j] ==> e[i] <= e[j]
  {
    var m := Max(x);
    seq(|x|, i requires 0 <= i < |x| => exp(x[i] - m))
  }

  /** The softmax allocation: the stabilised exponentials divided by their sum. */
  function Softmax(x: seq<real>, exp: real -> real): (w: seq<real>)
    requires |x| > 0
    requires IsExp(exp)
    ensures |w| == |x|
    ensures Positive(w)
    ensures Sum(w) == 1.0
    ensures forall i, j :: 0 <= i < |x| && 0 <= j < |x| && x[i] <= x[j] ==> w[i] <= w[j]
  {
    var e := Exponentials(x, exp);
    var total := Sum(e);
    assert total > 0.0 by { SumPositive(e); }
    var w := DivAll(e, total);
    assert Sum(w) == 1.0 by { SumDivAll(e, total); }
    assert Positive(w) && forall i, j :: 0 <= i < |x| && 0 <= j < |x| && e[i] <= e[j] ==> w[i] <= w[j] by {
      DivAllPreserves(e, total);
    }
    w
  }

  /** Every softmax output is a legal allocation, and no weight exceeds one. */
  lemma SoftmaxIsSimplex(x: seq<real>, exp: real -> real)
    requires |x| > 0
    requires IsExp(exp)
    ensures IsSimplex(Softmax(x, exp))
    ensures forall i :: 0 <= i < |x| ==> 0.0 < Softmax(x, exp)[i] <= 1.0
  {
    var w := Softmax(x, exp);
    forall i | 0 <= i < |x| ensures w[i] <= 1.0 {
      ElementAtMostSum(w, i);
    }
  }

  /** Adding the same constant to every component of the action does not change
      the allocation: the stabilising shift absorbs it. */
  lemma SoftmaxShiftInvariant(x: seq<real>, c: real, exp: real -> real)
    requires |x| > 0
    requires IsExp(exp)
    ensures Softmax(AddAll(x, c), exp) == Softmax(x, exp)
  {
    var y := AddAll(x, c);
    MaxShift(x, c);
    forall i | 0 <= i < |x| ensures y[i] - Max(y) == x[i] - Max(x) {
    }
    assert Exponentials(y, exp) == Exponentials(x, exp);
  }

  /** An action whose components are all equal gives every asset the weight 1/n. */
  lemma SoftmaxUniform(x: seq<real>, exp: real -> real)
    requires |x| > 0
    requires IsExp(exp)
    requires forall i :: 0 <= i < |x| ==> x[i] == x[0]
    ensures forall i :: 0 <= i < |x| ==> Softmax(x, exp)[i] == 1.0 / |x| as real
  {
    MaxUnique(x, x[0]);
    var e := Exponentials(x, exp);
    forall i | 0 <= i < |x| ensures e[i] == 1.0 {
      assert e[i] == exp(x[i] - Max(x));
      assert x[i] - Max(x) == 0.0;
    }
    SumConstant(e, 1.0);
    var total := Sum(e);
    assert total == |x| as real;
    var w := Softmax(x, exp);
    assert w == DivAll(e, total);
    forall i | 0 <= i < |x| ensures w[i] == 1.0 / |x| as real {
      assert w[i] == e[i] / total;
    }
  }
}
