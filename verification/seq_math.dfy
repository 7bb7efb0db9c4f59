/** Real-valued vector helpers shared by the portfolio engine and the metrics:
    sums, dot products, L1 distances and the extrema of a non-empty sequence.
    These stand in for the numpy reductions (`np.sum`, `np.dot`, `np.max`,
    `Series.min`) used by the engine. */
module SeqMath {

  function Abs(x: real): (r: real)
    ensures r >= 0.0
    ensures r == x || r == -x
  {
    if x < 0.0 then -x else x
  }

  function Sum(s: seq<real>): (total: real)
  {
    if |s| == 0 then 0.0 else s[0] + Sum(s[1..])
  }

  /** Componentwise product summed, as `np.dot` on two vectors of equal length. */
  function Dot(a: seq<real>, b: seq<real>): (d: real)
    requires |a| == |b|
  {
    if |a| == 0 then 0.0 else a[0] * b[0] + Dot(a[1..], b[1..])
  }

  /** Sum of absolute componentwise differences. */
  function L1(a: seq<real>, b: seq<real>): (d: real)
    requires |a| == |b|
  {
    if |a| == 0 then 0.0 else Abs(a[0] - b[0]) + L1(a[1..], b[1..])
  }

  function Zeros(n: nat): (z: seq<real>)
    ensures |z| == n
    ensures forall i :: 0 <= i < n ==> z[i] == 0.0
  {
    seq(n, _ => 0.0)
  }

  function Ones(n: nat): (o: seq<real>)
    ensures |o| == n
    ensures forall i :: 0 <= i < n ==> o[i] == 1.0
  {
    seq(n, _ => 1.0)
  }

  /** Every element divided by `d`. */
  function DivAll(a: seq<real>, d: real): (r: seq<real>)
    requires d != 0.0
    ensures |r| == |a|
    ensures forall i :: 0 <= i < |a| ==> r[i] == a[i] / d
  {
    seq(|a|, i requires 0 <= i < |a| => a[i] / d)
  }

  /** Division by a positive number keeps every element's sign and the order
      between any two elements. */
  lemma DivAllPreserves(a: seq<real>, d: real)
    requires d > 0.0
    ensures Positive(a) ==> Positive(DivAll(a, d))
    ensures forall i, j :: 0 <= i < |a| && 0 <= j < |a| && a[i] <= a[j] ==>
      DivAll(a, d)[i] <= DivAll(a, d)[j]
  {
    var r := DivAll(a, d);
    forall i | 0 <= i < |a| && a[i] > 0.0 ensures r[i] > 0.0 {
      DivPositive(a[i], d);
    }
    forall i, j | 0 <= i < |a| && 0 <= j < |a| && a[i] <= a[j] ensures r[i] <= r[j] {
      DivMonotone(a[i], a[j], d);
    }
  }

  /** Every element shifted by `c`. */
  function AddAll(a: seq<real>, c: real): (r: seq<real>)
    ensures |r| == |a|
    ensures forall i :: 0 <= i < |a| ==> r[i] - c == a[i]
  {
    seq(|a|, i requires 0 <= i < |a| => a[i] + c)
  }

  lemma MulNonNegative(a: real, b: real)
    requires a >= 0.0 && b >= 0.0
    ensures a * b >= 0.0
  {
  }

  lemma CancelFactor(a: real, b: real)
    requires b != 0.0
    ensures (b * a) / b == a
  {
  }

  lemma UnitFactor(x: real, p: real)
    requires p > 0.0
    requires x * p == p
    ensures x == 1.0
  {
    assert (x - 1.0) * p == 0.0;
  }

  /** A product with a positive factor has the sign of the other factor. */
  lemma FactorSign(a: real, p: real)
    requires p > 0.0
    ensures a * p > 0.0 <==> a > 0.0
    ensures a * p < 0.0 <==> a < 0.0
  {
  }

  lemma DivPositive(a: real, d: real)
    requires a > 0.0 && d > 0.0
    ensures a / d > 0.0
  {
    assert (a / d) * d == a;
  }

  lemma DivMonotone(a: real, b: real, d: real)
    requires a <= b && d > 0.0
    ensures a / d <= b / d
  {
    assert (b / d - a / d) * d == b - a;
  }

  /** A quotient by a positive number exceeds, equals or falls short of one exactly
      as the numerator does against the denominator. */
  lemma RatioVersusOne(a: real, b: real)
    requires b > 0.0
    ensures a / b > 1.0 <==> a > b
    ensures a / b == 1.0 <==> a == b
    ensures a / b < 1.0 <==> a < b
  {
    var q := a / b;
    assert q * b == a;
    assert (q - 1.0) * b == a - b;
    if q > 1.0 {
      assert (q - 1.0) * b > 0.0;
    } else if q < 1.0 {
      assert (1.0 - q) * b > 0.0;
    }
  }

  ghost predicate NonNegative(s: seq<real>)
  {
    forall i :: 0 <= i < |s| ==> s[i] >= 0.0
  }

  ghost predicate Positive(s: seq<real>)
  {
    forall i :: 0 <= i < |s| ==> s[i] > 0.0
  }

  /** The largest element: an upper bound of the sequence that the sequence attains. */
  function Max(s: seq<real>): (m: real)
    requires |s| > 0
    ensures forall i :: 0 <= i < |s| ==> s[i] <= m
    ensures exists i :: 0 <= i < |s| && s[i] == m
  {
    if |s| == 1 then s[0]
    else
      var rest := Max(s[1..]);
      assert forall i :: 1 <= i < |s| ==> s[i] == s[1..][i - 1];
      if s[0] >= rest then s[0] else rest
  }

  /** The smallest element: a lower bound of the sequence that the sequence attains. */
  function Min(s: seq<real>): (m: real)
    requires |s| > 0
    ensures forall i :: 0 <= i < |s| ==> m <= s[i]
    ensures exists i :: 0 <= i < |s| && s[i] == m
  {
    if |s| == 1 then s[0]
    else
      var rest := Min(s[1..]);
      assert forall i :: 1 <= i < |s| ==> s[i] == s[1..][i - 1];
      if s[0] <= rest then s[0] else rest
  }

  /** Extending a sequence at the back combines the old maximum with the new element. */
  lemma MaxSnoc(s: seq<real>, x: real)
    requires |s| > 0
    ensures Max(s + [x]) == if Max(s) >= x then Max(s) else x
  {
    var t := s + [x];
    var m := if Max(s) >= x then Max(s) else x;
    forall i | 0 <= i < |t| ensures t[i] <= m {
      if i < |s| {
        assert t[i] == s[i];
      } else {
        assert t[i] == x;
      }
    }
    if Max(s) >= x {
      var k :| 0 <= k < |s| && s[k] == Max(s);
      assert t[k] == m;
    } else {
      assert t[|s|] == m;
    }
    MaxUnique(t, m);
  }

  /** Any two bounds that are attained are the same number. */
  lemma MaxUnique(s: seq<real>, m: real)
    requires |s| > 0
    requires forall i :: 0 <= i < |s| ==> s[i] <= m
    requires exists i :: 0 <= i < |s| && s[i] == m
    ensures Max(s) == m
  {
    var k :| 0 <= k < |s| && s[k] == m;
    var j :| 0 <= j < |s| && s[j] == Max(s);
    assert s[k] <= Max(s);
    assert s[j] <= m;
  }

  /** Shifting every element shifts the maximum. */
  lemma MaxShift(s: seq<real>, c: real)
    requires |s| > 0
    ensures Max(AddAll(s, c)) == Max(s) + c
  {
    var t := AddAll(s, c);
    var k :| 0 <= k < |s| && s[k] == Max(s);
    assert t[k] == Max(s) + c;
    MaxUnique(t, Max(s) + c);
  }

  lemma {:induction false} SumNonNegative(s: seq<real>)
    requires NonNegative(s)
    ensures Sum(s) >= 0.0
  {
    if |s| > 0 {
      assert NonNegative(s[1..]) by {
        forall i | 0 <= i < |s| - 1 ensures s[1..][i] >= 0.0 {
          assert s[1..][i] == s[i + 1];
        }
      }
      SumNonNegative(s[1..]);
    }
  }

  lemma {:induction false} SumPositive(s: seq<real>)
    requires |s| > 0
    requires Positive(s)
    ensures Sum(s) > 0.0
  {
    assert NonNegative(s[1..]) by {
      forall i | 0 <= i < |s| - 1 ensures s[1..][i] >= 0.0 {
        assert s[1..][i] == s[i + 1];
      }
    }
    SumNonNegative(s[1..]);
  }

  /** Each element of a non-negative sequence is at most its sum. */
  lemma {:induction false} ElementAtMostSum(s: seq<real>, k: nat)
    requires NonNegative(s)
    requires k < |s|
    ensures s[k] <= Sum(s)
  {
    assert NonNegative(s[1..]) by {
      forall i | 0 <= i < |s| - 1 ensures s[1..][i] >= 0.0 {
        assert s[1..][i] == s[i + 1];
      }
    }
    if k == 0 {
      SumNonNegative(s[1..]);
    } else {
      ElementAtMostSum(s[1..], k - 1);
      assert s[1..][k - 1] == s[k];
    }
  }

  /** Dividing every element by `d` divides the sum by `d`. */
  lemma {:induction false} SumDivAll(a: seq<real>, d: real)
    requires d != 0.0
    ensures Sum(DivAll(a, d)) == Sum(a) / d
  {
    if |a| > 0 {
      var r := DivAll(a, d);
      assert r[1..] == DivAll(a[1..], d);
      SumDivAll(a[1..], d);
      assert r[0] == a[0] / d;
      assert Sum(r) == a[0] / d + Sum(a[1..]) / d;
    }
  }

  /** A constant sequence sums to its length times the constant. */
  lemma {:induction false} SumConstant(s: seq<real>, c: real)
    requires forall i :: 0 <= i < |s| ==> s[i] == c
    ensures Sum(s) == |s| as real * c
  {
    if |s| > 0 {
      assert forall i :: 0 <= i < |s| - 1 ==> s[1..][i] == s[i + 1];
      SumConstant(s[1..], c);
    }
  }

  /** A dot product with the all-ones vector is the plain sum. */
  lemma {:induction false} DotOnes(w: seq<real>)
    ensures Dot(w, Ones(|w|)) == Sum(w)
  {
    if |w| > 0 {
      assert Ones(|w|)[1..] == Ones(|w| - 1);
      DotOnes(w[1..]);
    }
  }

  /** With non-negative weights, a dot product lies between the extremes of the other factor. */
  lemma {:induction false} DotBounds(w: seq<real>, r: seq<real>, lo: real, hi: real)
    requires |w| == |r|
    requires NonNegative(w)
    requires forall i :: 0 <= i < |r| ==> lo <= r[i] <= hi
    ensures lo * Sum(w) <= Dot(w, r) <= hi * Sum(w)
  {
    if |w| > 0 {
      assert NonNegative(w[1..]) by {
        forall i | 0 <= i < |w| - 1 ensures w[1..][i] >= 0.0 {
          assert w[1..][i] == w[i + 1];
        }
      }
      assert forall i :: 0 <= i < |r| - 1 ==> r[1..][i] == r[i + 1];
      DotBounds(w[1..], r[1..], lo, hi);
      var a, b := w[0], r[0];
      var restW, restD := Sum(w[1..]), Dot(w[1..], r[1..]);
      MulNonNegative(a, b - lo);
      MulNonNegative(a, hi - b);
      assert lo * a <= a * b <= hi * a;
      assert Sum(w) == a + restW;
      assert Dot(w, r) == a * b + restD;
      assert lo * Sum(w) == lo * a + lo * restW;
      assert hi * Sum(w) == hi * a + hi * restW;
    }
  }

  lemma {:induction false} L1NonNegative(a: seq<real>, b: seq<real>)
    requires |a| == |b|
    ensures L1(a, b) >= 0.0
  {
    if |a| > 0 {
      L1NonNegative(a[1..], b[1..]);
    }
  }

  /** The L1 distance to the zero vector of a non-negative vector is its sum. */
  lemma {:induction false} L1FromZero(w: seq<real>)
    requires NonNegative(w)
    ensures L1(w, Zeros(|w|)) == Sum(w)
  {
    if |w| > 0 {
      assert NonNegative(w[1..]) by {
        forall i | 0 <= i < |w| - 1 ensures w[1..][i] >= 0.0 {
          assert w[1..][i] == w[i + 1];
        }
      }
      assert Zeros(|w|)[1..] == Zeros(|w| - 1);
      L1FromZero(w[1..]);
    }
  }

  /** Triangle inequality against zero: the L1 distance of two non-negative vectors is
      at most the sum of their sums. */
  lemma {:induction false} L1AtMostSums(a: seq<real>, b: seq<real>)
    requires |a| == |b|
    requires NonNegative(a) && NonNegative(b)
    ensures 0.0 <= L1(a, b) <= Sum(a) + Sum(b)
  {
    if |a| > 0 {
      assert NonNegative(a[1..]) by {
        forall i | 0 <= i < |a| - 1 ensures a[1..][i] >= 0.0 {
          assert a[1..][i] == a[i + 1];
        }
      }
      assert NonNegative(b[1..]) by {
        forall i | 0 <= i < |b| - 1 ensures b[1..][i] >= 0.0 {
          assert b[1..][i] == b[i + 1];
        }
      }
      L1AtMostSums(a[1..], b[1..]);
    }
  }

  /** The L1 distance is symmetric and vanishes on equal vectors. */
  lemma {:induction false} L1Symmetric(a: seq<real>, b: seq<real>)
    requires |a| == |b|
    ensures L1(a, b) == L1(b, a)
    ensures a == b ==> L1(a, b) == 0.0
  {
    if |a| > 0 {
      L1Symmetric(a[1..], b[1..]);
    }
  }
}
