/** The pure performance metrics of the evaluation script: the maximum drawdown
    `calculate_max_drawdown` (evaluate_agent.py:17-20) and the total return
    (evaluate_agent.py:58), over a series of portfolio values. */
module Metrics {
  import opened SeqMath

  /** A value, or the NaN pandas returns for the minimum of an empty series. */
  datatype Option<T> = None | Some(value: T)

  /** The running peak (`cummax`): each entry is the larger of the previous entry and
      the current value. */
  function CumMax(v: seq<real>): (peak: seq<real>)
    ensures |peak| == |v|
  {
    if |v| == 0 then []
    else
      var p := CumMax(v[..|v| - 1]);
      var last := v[|v| - 1];
      p + [if |p| > 0 && p[|p| - 1] > last then p[|p| - 1] else last]
  }

  /** The running peak is the maximum of the prefix ending at each index. */
  lemma {:induction false} CumMaxIsPrefixMax(v: seq<real>, i: nat)
    requires i < |v|
    ensures CumMax(v)[i] == Max(v[..i + 1])
    decreases |v|
  {
    var front := v[..|v| - 1];
    var p := CumMax(front);
    if i < |v| - 1 {
      CumMaxIsPrefixMax(front, i);
      assert front[..i + 1] == v[..i + 1];
    } else if i > 0 {
      CumMaxIsPrefixMax(front, i - 1);
      assert front[..i] == front;
      assert v[..i + 1] == front + [v[i]];
      MaxSnoc(front, v[i]);
    } else {
      assert v[..1] == [v[0]];
    }
  }

  /** The running peak at `i` is one of the values seen so far. */
  lemma PeakAttained(v: seq<real>, i: nat) returns (k: nat)
    requires i < |v|
    ensures k <= i && CumMax(v)[i] == v[k]
  {
    CumMaxIsPrefixMax(v, i);
    var prefix := v[..i + 1];
    assert forall j :: 0 <= j <= i ==> prefix[j] == v[j];
    k :| 0 <= k < |prefix| && prefix[k] == Max(prefix);
  }

  /** What the running peak promises: it bounds every value seen so far and it
      never decreases. */
  lemma CumMaxProperties(v: seq<real>)
    ensures forall i, k :: 0 <= k <= i < |v| ==> v[k] <= CumMax(v)[i]
    ensures forall i, j :: 0 <= i <= j < |v| ==> CumMax(v)[i] <= CumMax(v)[j]
  {
    var peak := CumMax(v);
    forall i, k | 0 <= k <= i < |v| ensures v[k] <= peak[i] {
      CumMaxIsPrefixMax(v, i);
      var prefix := v[..i + 1];
      assert prefix[k] == v[k];
    }
    forall i, j | 0 <= i <= j < |v| ensures peak[i] <= peak[j] {
      var k := PeakAttained(v, i);
      assert v[k] <= peak[j];
    }
  }

  /** Every peak is at least the value it stands over, and at least the first value. */
  lemma PeakAtLeastValue(v: seq<real>, i: nat)
    requires i < |v|
    ensures v[i] <= CumMax(v)[i]
    ensures v[0] <= CumMax(v)[i]
  {
    CumMaxProperties(v);
  }

  /** The drawdown `(v - peak) / peak` at every index; the peaks are at least the first
      value, so a positive first value keeps every division defined. */
  function Drawdowns(v: seq<real>): (d: seq<real>)
    requires |v| > 0 ==> v[0] > 0.0
    ensures |d| == |v|
    ensures forall i :: 0 <= i < |v| ==> d[i] <= 0.0
    ensures Positive(v) ==> forall i :: 0 <= i < |v| ==> d[i] > -1.0
  {
    var peak := CumMax(v);
    assert forall i :: 0 <= i < |v| ==> v[i] <= peak[i] && peak[i] > 0.0 by {
      forall i | 0 <= i < |v| ensures v[i] <= peak[i] && peak[i] > 0.0 {
        PeakAtLeastValue(v, i);
      }
    }
    var d := seq(|v|, i requires 0 <= i < |v| => (v[i] - peak[i]) / peak[i]);
    assert forall i :: 0 <= i < |v| ==> d[i] <= 0.0 && (v[i] > 0.0 ==> d[i] > -1.0) by {
      forall i | 0 <= i < |v| ensures d[i] <= 0.0 && (v[i] > 0.0 ==> d[i] > -1.0) {
        DrawdownBounds(v[i], peak[i]);
      }
    }
    d
  }

  /** A value at or below a positive peak lies no higher than it, relatively, and a
      positive one cannot have lost everything. */
  lemma DrawdownBounds(x: real, p: real)
    requires p > 0.0 && x <= p
    ensures (x - p) / p <= 0.0
    ensures x > 0.0 ==> (x - p) / p > -1.0
    ensures x == p ==> (x - p) / p == 0.0
  {
    var q := (x - p) / p;
    assert q * p == x - p;
    assert (q + 1.0) * p == x;
    FactorSign(q + 1.0, p);
  }

  /** The maximum drawdown: the smallest drawdown, or None for an empty series. */
  function MaxDrawdown(v: seq<real>): (r: Option<real>)
    requires |v| > 0 ==> v[0] > 0.0
    ensures r.Some? <==> |v| > 0
    ensures r.Some? ==> r.value <= 0.0
    ensures r.Some? ==> forall i :: 0 <= i < |v| ==> r.value <= Drawdowns(v)[i]
    ensures r.Some? ==> exists i :: 0 <= i < |v| && r.value == Drawdowns(v)[i]
    ensures r.Some? && Positive(v) ==> r.value > -1.0
  {
    if |v| == 0 then None else Some(Min(Drawdowns(v)))
  }

  ghost predicate NonDecreasing(v: seq<real>)
  {
    forall i, j :: 0 <= i <= j < |v| ==> v[i] <= v[j]
  }

  /** A series that never falls has its peak at every index and no drawdown. */
  lemma NonDecreasingHasNoDrawdown(v: seq<real>)
    requires |v| > 0 && v[0] > 0.0
    requires NonDecreasing(v)
    ensures forall i :: 0 <= i < |v| ==> CumMax(v)[i] == v[i]
    ensures MaxDrawdown(v) == Some(0.0)
  {
    var peak := CumMax(v);
    CumMaxProperties(v);
    forall i | 0 <= i < |v| ensures peak[i] == v[i] {
      var k := PeakAttained(v, i);
      assert v[k] <= v[i];
    }
    var d := Drawdowns(v);
    forall i | 0 <= i < |v| ensures d[i] == 0.0 {
      DrawdownBounds(v[i], peak[i]);
    }
    var m := MaxDrawdown(v).value;
    var i :| 0 <= i < |v| && m == d[i];
  }

  /** `last / first - 1`: the relative gain over the whole series. */
  function TotalReturn(v: seq<real>): (r: real)
    requires |v| > 0
    requires v[0] != 0.0
    ensures v[0] > 0.0 ==> (r > 0.0 <==> v[|v| - 1] > v[0])
    ensures v[0] > 0.0 ==> (r == 0.0 <==> v[|v| - 1] == v[0])
    ensures v[0] > 0.0 ==> (r < 0.0 <==> v[|v| - 1] < v[0])
    ensures (r + 1.0) * v[0] == v[|v| - 1]
  {
    var q := v[|v| - 1] / v[0];
    assert v[0] > 0.0 ==>
      && (q > 1.0 <==> v[|v| - 1] > v[0])
      && (q == 1.0 <==> v[|v| - 1] == v[0])
      && (q < 1.0 <==> v[|v| - 1] < v[0]) by {
      if v[0] > 0.0 {
        RatioVersusOne(v[|v| - 1], v[0]);
      }
    }
    q - 1.0
  }
}
