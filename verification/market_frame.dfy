/** The aligned market frame and the episode configuration fixed at construction
    of the environment (rl_environment.py:8-22), and the observation builder
    `_get_observation` (rl_environment.py:43-54). */
module MarketFrame {
  import opened SeqMath

  /** One row of the aligned frame: a point in time, one price per ticker and the
      forward-filled sentiment score. */
  datatype Row = Row(timestamp: int, prices: seq<real>, sentiment: real)

  /** The constructor arguments that never change during an episode. */
  datatype Config = Config(
    frame: seq<Row>,
    assets: nat,
    windowSize: nat,
    initialCapital: real,
    costPct: real)

  /** Every row carries one strictly positive price per ticker. */
  ghost predicate WellShaped(frame: seq<Row>, assets: nat)
  {
    forall k :: 0 <= k < |frame| ==>
      |frame[k].prices| == assets &&
      forall j :: 0 <= j < assets ==> frame[k].prices[j] > 0.0
  }

  /** What the engine relies on without checking it: a non-empty window that fits
      in the frame, and rectangular positive price data. */
  ghost predicate Valid(c: Config)
  {
    && 1 <= c.windowSize <= |c.frame|
    && WellShaped(c.frame, c.assets)
  }

  /** The first tick with a full window behind it (`start_tick`). */
  function StartTick(c: Config): (t: nat)
  {
    c.windowSize
  }

  /** The index of the last row of the frame (`end_tick`). */
  function EndTick(c: Config): (t: int)
  {
    |c.frame| - 1
  }

  /** The declared observation length (the `observation_space` shape). */
  function ObservationLength(c: Config): (len: nat)
  {
    c.windowSize * c.assets + c.assets + 1
  }

  /** Concatenation of the rows of a matrix, first row first (row-major `flatten`). */
  function Flatten(rows: seq<seq<real>>): (flat: seq<real>)
  {
    if |rows| == 0 then [] else rows[0] + Flatten(rows[1..])
  }

  /** A price row divided componentwise by the reference row. */
  function Normalize(row: seq<real>, base: seq<real>): (r: seq<real>)
    requires |row| == |base|
    requires Positive(base)
    ensures |r| == |row|
    ensures Positive(row) ==> Positive(r)
  {
    seq(|row|, j requires 0 <= j < |row| =>
      assert base[j] > 0.0; row[j] / base[j])
  }

  /** The `window_size` price rows ending just before `tick`, each divided by the first
      of them. */
  function NormalizedWindow(c: Config, tick: nat): (w: seq<seq<real>>)
    requires Valid(c)
    requires c.windowSize <= tick <= |c.frame|
    ensures |w| == c.windowSize
    ensures forall k :: 0 <= k < |w| ==> |w[k]| == c.assets
  {
    var start := tick - c.windowSize;
    var rows := c.frame[start..tick];
    var base := rows[0].prices;
    assert forall k :: 0 <= k < |rows| ==> rows[k] == c.frame[start + k];
    seq(c.windowSize, k requires 0 <= k < c.windowSize =>
      Normalize(rows[k].prices, base))
  }

  /** The observation at `tick` with the current `weights`: the normalised window,
      then the weights, then the sentiment of the row before `tick`. */
  function Observe(c: Config, tick: nat, weights: seq<real>): (obs: seq<real>)
    requires Valid(c)
    requires c.windowSize <= tick <= |c.frame|
    requires |weights| == c.assets
    ensures |obs| == ObservationLength(c)
    ensures obs[c.windowSize * c.assets..c.windowSize * c.assets + c.assets] == weights
    ensures obs[|obs| - 1] == c.frame[tick - 1].sentiment
  {
    var win := NormalizedWindow(c, tick);
    FlattenLength(win, c.assets);
    Flatten(win) + weights + [c.frame[tick - 1].sentiment]
  }

  lemma {:induction false} FlattenLength(rows: seq<seq<real>>, n: nat)
    requires forall k :: 0 <= k < |rows| ==> |rows[k]| == n
    ensures |Flatten(rows)| == |rows| * n
  {
    if |rows| > 0 {
      assert forall k :: 0 <= k < |rows| - 1 ==> rows[1..][k] == rows[k + 1];
      FlattenLength(rows[1..], n);
    }
  }

  /** Row-major layout: element `j` of row `i` sits at position `i * n + j`. */
  lemma {:induction false} FlattenIndex(rows: seq<seq<real>>, n: nat, i: nat, j: nat)
    requires forall k :: 0 <= k < |rows| ==> |rows[k]| == n
    requires i < |rows| && j < n
    ensures i * n + j < |Flatten(rows)|
    ensures Flatten(rows)[i * n + j] == rows[i][j]
  {
    assert forall k :: 0 <= k < |rows| - 1 ==> rows[1..][k] == rows[k + 1];
    FlattenLength(rows[1..], n);
    if i > 0 {
      FlattenIndex(rows[1..], n, i - 1, j);
      assert i * n + j == n + ((i - 1) * n + j);
    }
  }

  /** The full layout of an observation: position `i * n + j` of the first block is the
      price of asset `j` at row `tick - window + i` relative to its price at row
      `tick - window`; the next `n` positions hold the weights; the last holds the
      sentiment of row `tick - 1`. */
  lemma ObservationLayout(c: Config, tick: nat, weights: seq<real>, i: nat, j: nat)
    requires Valid(c)
    requires c.windowSize <= tick <= |c.frame|
    requires |weights| == c.assets
    requires i < c.windowSize && j < c.assets
    ensures i * c.assets + j < c.windowSize * c.assets
    ensures Observe(c, tick, weights)[i * c.assets + j] ==
      c.frame[tick - c.windowSize + i].prices[j] / c.frame[tick - c.windowSize].prices[j]
    ensures Observe(c, tick, weights)[c.windowSize * c.assets + j] == weights[j]
  {
    var win := NormalizedWindow(c, tick);
    var n := c.assets;
    FlattenLength(win, n);
    FlattenIndex(win, n, i, j);
    NormalizedEntry(c, tick, i, j);
    var obs := Observe(c, tick, weights);
    assert obs == Flatten(win) + weights + [c.frame[tick - 1].sentiment];
    assert obs[i * n + j] == Flatten(win)[i * n + j];
  }

  /** Entry `j` of row `i` of the normalised window. */
  lemma NormalizedEntry(c: Config, tick: nat, i: nat, j: nat)
    requires Valid(c)
    requires c.windowSize <= tick <= |c.frame|
    requires i < c.windowSize && j < c.assets
    ensures NormalizedWindow(c, tick)[i][j] ==
      c.frame[tick - c.windowSize + i].prices[j] / c.frame[tick - c.windowSize].prices[j]
  {
    var start := tick - c.windowSize;
    var rows := c.frame[start..tick];
    assert rows[i] == c.frame[start + i];
    assert rows[0] == c.frame[start];
    assert NormalizedWindow(c, tick)[i] == Normalize(rows[i].prices, rows[0].prices);
  }

  /** The first `n` components, the window's first row divided by itself, are all one. */
  lemma ObservationStartsAtOne(c: Config, tick: nat, weights: seq<real>, j: nat)
    requires Valid(c)
    requires c.windowSize <= tick <= |c.frame|
    requires |weights| == c.assets
    requires j < c.assets
    ensures Observe(c, tick, weights)[j] == 1.0
  {
    var start := tick - c.windowSize;
    var b := c.frame[start].prices[j];
    assert Observe(c, tick, weights)[0 * c.assets + j] == c.frame[start + 0].prices[j] / b by {
      ObservationLayout(c, tick, weights, 0, j);
    }
    assert 0 * c.assets + j == j && start + 0 == start;
    assert b > 0.0 by {
      assert |c.frame[start].prices| == c.assets;
    }
    assert b / b == 1.0 by {
      CancelFactor(1.0, b);
      assert b * 1.0 == b;
    }
  }

  /** Position `p` of a row-major `w` by `n` block is column `p % n` of row `p / n`. */
  lemma RowColumn(p: nat, n: nat, w: nat)
    requires p < w * n
    ensures n > 0
    ensures p / n < w && p % n < n
    ensures p == (p / n) * n + p % n
  {
    assert n != 0;
    var i := p / n;
    assert i * n <= p;
    assert (w - i) * n == w * n - i * n;
    assert (w - i) * n > 0;
  }

  /** Every normalised price in the observation is positive. */
  lemma ObservationPricesPositive(c: Config, tick: nat, weights: seq<real>, p: nat)
    requires Valid(c)
    requires c.windowSize <= tick <= |c.frame|
    requires |weights| == c.assets
    requires p < c.windowSize * c.assets
    ensures Observe(c, tick, weights)[p] > 0.0
  {
    var i := p / c.assets;
    var j := p % c.assets;
    RowColumn(p, c.assets, c.windowSize);
    var start := tick - c.windowSize;
    var a := c.frame[start + i].prices[j];
    var b := c.frame[start].prices[j];
    assert Observe(c, tick, weights)[i * c.assets + j] == a / b by {
      ObservationLayout(c, tick, weights, i, j);
    }
    assert a > 0.0 && b > 0.0 by {
      assert |c.frame[start + i].prices| == c.assets && |c.frame[start].prices| == c.assets;
    }
    DivPositive(a, b);
  }

  /** With a window of thirty rows and three tickers, the observation at every tick
      has 94 components. */
  lemma ObservationLengthExample(c: Config, tick: nat, weights: seq<real>)
    requires Valid(c)
    requires c.windowSize == 30 && c.assets == 3
    requires 30 <= tick <= |c.frame|
    requires |weights| == 3
    ensures |Observe(c, tick, weights)| == 94
  {
  }
}
