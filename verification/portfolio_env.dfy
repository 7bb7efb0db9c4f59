/** The episode controller `StockPortfolioEnv` (rl_environment.py): `reset`,
    `step` and `_get_info`, as pure functions from one environment value to the
    next. The configuration never changes; the per-episode state is the tick,
    the portfolio value, the weight vector and the done flag. */
module PortfolioEnv {
  import opened SeqMath
  import opened ExpLog
  import opened Allocation
  import opened MarketFrame

  datatype State = State(tick: nat, value: real, weights: seq<real>, done: bool)

  /** The whole environment object: its fixed configuration and its episode state. */
  datatype Env = Env(config: Config, state: State)

  /** The info record: value, weights and the timestamp of the (clamped) current row. */
  datatype Info = Info(value: real, weights: seq<real>, timestamp: int)

  /** `np.log` of the value ratio: finite when the ratio is positive; NaN or minus
      infinity otherwise. */
  datatype Reward = Finite(r: real) | NonFinite

  datatype ResetResult = ResetResult(env: Env, observation: seq<real>, info: Info)

  datatype StepResult = StepResult(
    env: Env,
    observation: seq<real>,
    reward: Reward,
    done: bool,
    truncated: bool,
    info: Info)

  /** The row whose timestamp `_get_info` reports: the tick, clamped to the last row. */
  function InfoRow(c: Config, tick: nat): (k: nat)
    requires |c.frame| > 0
    ensures k <= tick && k <= EndTick(c)
    ensures k == tick || k == EndTick(c)
  {
    if tick <= EndTick(c) then tick else EndTick(c)
  }

  /** The info record: the current value and weights, and the timestamp of the
      current row, or of the last row once the tick has run past the frame. */
  function GetInfo(c: Config, s: State): (info: Info)
    requires |c.frame| > 0
    ensures info.value == s.value && info.weights == s.weights
    ensures s.tick <= EndTick(c) ==> info.timestamp == c.frame[s.tick].timestamp
    ensures s.tick > EndTick(c) ==> info.timestamp == c.frame[EndTick(c)].timestamp
  {
    Info(s.value, s.weights, c.frame[InfoRow(c, s.tick)].timestamp)
  }

  /** The starting state: no tick consumed, all capital in cash, episode active. */
  function Reset(e: Env): (r: ResetResult)
    requires Valid(e.config)
    ensures r.env.config == e.config
    ensures r.env.state.tick == StartTick(e.config)
    ensures r.env.state.value == e.config.initialCapital
    ensures r.env.state.weights == Zeros(e.config.assets)
    ensures !r.env.state.done
    ensures |r.observation| == ObservationLength(e.config)
    ensures r.observation == Observe(e.config, StartTick(e.config), Zeros(e.config.assets))
    ensures r.info == GetInfo(e.config, r.env.state)
    ensures r.info.timestamp == e.config.frame[InfoRow(e.config, StartTick(e.config))].timestamp
  {
    var c := e.config;
    var s := State(c.windowSize, c.initialCapital, Zeros(c.assets), false);
    ResetResult(Env(c, s), Observe(c, s.tick, s.weights), GetInfo(c, s))
  }

  /** The L1 distance between the target and the previous weights. */
  function Turnover(target: seq<real>, previous: seq<real>): (t: real)
    requires |target| == |previous|
    ensures t >= 0.0
  {
    L1NonNegative(target, previous);
    L1(target, previous)
  }

  /** The rebalancing charge, proportional to the value before the step and the turnover. */
  function TransactionCost(value: real, turnover: real, pct: real): (cost: real)
    ensures value >= 0.0 && turnover >= 0.0 && pct >= 0.0 ==> cost >= 0.0
    ensures value > 0.0 && turnover > 0.0 && pct > 0.0 ==> cost > 0.0
    ensures turnover == 0.0 || pct == 0.0 ==> cost == 0.0
  {
    value * turnover * pct
  }

  /** The gross return of each asset from row `tick - 1` to row `tick`. */
  function PriceRatios(c: Config, tick: nat): (ratios: seq<real>)
    requires Valid(c)
    requires 1 <= tick <= EndTick(c)
    ensures |ratios| == c.assets
    ensures Positive(ratios)
    ensures forall j :: 0 <= j < c.assets ==>
      ratios[j] * c.frame[tick - 1].prices[j] == c.frame[tick].prices[j]
  {
    var now := c.frame[tick].prices;
    var before := c.frame[tick - 1].prices;
    var ratios := seq(c.assets, j requires 0 <= j < c.assets => now[j] / before[j]);
    assert forall j :: 0 <= j < c.assets ==> ratios[j] > 0.0 by {
      forall j | 0 <= j < c.assets ensures ratios[j] > 0.0 {
        DivPositive(now[j], before[j]);
      }
    }
    ratios
  }

  /** `np.log(after / before)`, or a non-finite reward when the ratio is not positive. */
  function LogReturn(before: real, after: real, log: real -> real): (r: Reward)
    ensures r.Finite? <==> before != 0.0 && after / before > 0.0
    ensures before != 0.0 && r.Finite? ==> r.r == log(after / before)
    ensures IsLog(log) && before > 0.0 && after > 0.0 ==>
      && r.Finite?
      && (r.r > 0.0 <==> after > before)
      && (r.r == 0.0 <==> after == before)
      && (r.r < 0.0 <==> after < before)
  {
    LogRatioSign(before, after, log);
    if before != 0.0 && after / before > 0.0 then Finite(log(after / before)) else NonFinite
  }

  /** Under the log laws, the log of the ratio of two positive values has the sign of
      their difference. */
  lemma LogRatioSign(before: real, after: real, log: real -> real)
    ensures IsLog(log) && before > 0.0 && after > 0.0 ==>
      && after / before > 0.0
      && (log(after / before) > 0.0 <==> after > before)
      && (log(after / before) == 0.0 <==> after == before)
      && (log(after / before) < 0.0 <==> after < before)
  {
    if IsLog(log) && before > 0.0 && after > 0.0 {
      DivPositive(after, before);
      LogSign(log, after / before);
      RatioVersusOne(after, before);
    }
  }

  /** The done flag after a step: latched, or set by running off the frame or by a
      fall below half the initial capital. */
  function NextDone(c: Config, done: bool, nextTick: nat, value: real): (next: bool)
  {
    done || nextTick > EndTick(c) || value < c.initialCapital * 0.5
  }

  /** The value after rebalancing into `target` and holding it from row `tick - 1`
      to row `tick`: the old value times the weighted price ratio, minus the cost. */
  function NextValue(c: Config, s: State, target: seq<real>): (value: real)
    requires Valid(c)
    requires 1 <= s.tick <= EndTick(c)
    requires |target| == |s.weights| == c.assets
  {
    var cost := TransactionCost(s.value, Turnover(target, s.weights), c.costPct);
    s.value * Dot(target, PriceRatios(c, s.tick)) - cost
  }

  /** What `step` relies on: a valid configuration, a row at the current tick with a
      full window behind it, and one weight and one action component per ticker. */
  ghost predicate CanStep(e: Env, action: seq<real>, exp: real -> real)
  {
    && Valid(e.config)
    && e.config.windowSize <= e.state.tick <= EndTick(e.config)
    && |e.state.weights| == e.config.assets
    && |action| == e.config.assets
    && |action| > 0
    && IsExp(exp)
  }

  /** One step: allocate by softmax, charge turnover costs, apply the realised price
      ratios, take the log-return reward, advance the tick and update the done flag. */
  function Step(e: Env, action: seq<real>, exp: real -> real, log: real -> real): (r: StepResult)
    requires CanStep(e, action, exp)
    ensures r.env.config == e.config
    ensures r.env.state.tick == e.state.tick + 1
    ensures r.env.state.weights == Softmax(action, exp)
    ensures IsSimplex(r.env.state.weights) && Positive(r.env.state.weights)
    ensures r.env.state.value == NextValue(e.config, e.state, r.env.state.weights)
    ensures r.reward == LogReturn(e.state.value, r.env.state.value, log)
    ensures r.env.state.done <==>
      e.state.done || e.state.tick + 1 > EndTick(e.config)
      || r.env.state.value < e.config.initialCapital * 0.5
    ensures e.state.done ==> r.env.state.done
    ensures e.state.tick == EndTick(e.config) ==> r.done
    ensures r.done == r.env.state.done && !r.truncated
    ensures |r.observation| == ObservationLength(e.config)
    ensures r.observation == Observe(e.config, e.state.tick + 1, r.env.state.weights)
    ensures r.info == GetInfo(e.config, r.env.state)
  {
    var c := e.config;
    var s := e.state;
    var target := Softmax(action, exp);
    var value := NextValue(c, s, target);
    var reward := LogReturn(s.value, value, log);
    var tick := s.tick + 1;
    var done := NextDone(c, s.done, tick, value);
    var s' := State(tick, value, target, done);
    StepResult(Env(c, s'), Observe(c, tick, target), reward, done, false, GetInfo(c, s'))
  }

  /** What every state reachable from `reset` satisfies: the tick lies between the
      start tick and one past the end; before the first step the portfolio is all
      cash and active; after it the weights are a legal allocation, and a step that
      ran off the frame has set done. */
  ghost predicate Reachable(c: Config, s: State)
  {
    && c.windowSize <= s.tick <= |c.frame|
    && |s.weights| == c.assets
    && ((s.tick == c.windowSize && s.weights == Zeros(c.assets) && s.value == c.initialCapital && !s.done)
        || (s.tick > c.windowSize && IsSimplex(s.weights)))
    && (s.tick > c.windowSize && s.tick == |c.frame| ==> s.done)
  }

  /** A caller that stops at done never asks for a row past the frame: an active
      reachable state has a row at its tick, except the reset state of a window that
      spans the whole frame. */
  lemma ActiveCanStep(c: Config, s: State)
    requires Valid(c)
    requires Reachable(c, s)
    requires !s.done
    requires s.tick > c.windowSize || c.windowSize < |c.frame|
    ensures s.tick <= EndTick(c)
  {
  }

  lemma ResetIsReachable(e: Env)
    requires Valid(e.config)
    ensures Reachable(e.config, Reset(e).env.state)
  {
  }

  /** Reset depends only on the configuration, never on the state it replaces. */
  lemma ResetForgetsState(e1: Env, e2: Env)
    requires Valid(e1.config)
    requires e1.config == e2.config
    ensures Reset(e1) == Reset(e2)
  {
  }

  /** The reset observation: every normalised price of the first window row is one,
      the weight block is all zeros and the last element is the sentiment of the
      row before the start tick. */
  lemma ResetObservation(e: Env, j: nat)
    requires Valid(e.config)
    requires j < e.config.assets
    ensures Reset(e).observation[j] == 1.0
    ensures Reset(e).observation[e.config.windowSize * e.config.assets + j] == 0.0
    ensures Reset(e).observation[ObservationLength(e.config) - 1] ==
      e.config.frame[e.config.windowSize - 1].sentiment
  {
    var c := e.config;
    ObservationStartsAtOne(c, c.windowSize, Zeros(c.assets), j);
    ObservationLayout(c, c.windowSize, Zeros(c.assets), 0, j);
  }

  /** The observation a step returns: its first components are one, its weight block
      is the new allocation, and it ends with the sentiment of the row just consumed. */
  lemma StepObservation(e: Env, action: seq<real>, exp: real -> real, log: real -> real, j: nat)
    requires CanStep(e, action, exp)
    requires j < e.config.assets
    ensures Step(e, action, exp, log).observation[j] == 1.0
    ensures Step(e, action, exp, log).observation[e.config.windowSize * e.config.assets + j] ==
      Softmax(action, exp)[j]
    ensures Step(e, action, exp, log).observation[ObservationLength(e.config) - 1] ==
      e.config.frame[e.state.tick].sentiment
  {
    var c := e.config;
    var t := e.state.tick + 1;
    var w := Softmax(action, exp);
    var obs := Step(e, action, exp, log).observation;
    assert obs == Observe(c, t, w);
    assert Observe(c, t, w)[j] == 1.0 by {
      ObservationStartsAtOne(c, t, w, j);
    }
    assert Observe(c, t, w)[c.windowSize * c.assets + j] == w[j] by {
      ObservationLayout(c, t, w, 0, j);
    }
  }

  lemma StepPreservesReachable(e: Env, action: seq<real>, exp: real -> real, log: real -> real)
    requires CanStep(e, action, exp)
    requires Reachable(e.config, e.state)
    ensures Reachable(e.config, Step(e, action, exp, log).env.state)
  {
  }

  /** Turnover from a reachable state lies in [0, 2], and is exactly 1 on the first
      step, when the previous weights are all zero. */
  lemma TurnoverBounds(c: Config, s: State, target: seq<real>)
    requires Reachable(c, s)
    requires |target| == c.assets
    requires IsSimplex(target)
    ensures 0.0 <= Turnover(target, s.weights) <= 2.0
    ensures s.tick == c.windowSize ==> Turnover(target, s.weights) == 1.0
  {
    if s.tick == c.windowSize {
      L1FromZero(target);
    } else {
      L1AtMostSums(target, s.weights);
    }
  }

  /** Moving from all cash into a legal allocation has turnover exactly one. */
  lemma FirstTurnoverIsOne(target: seq<real>)
    requires IsSimplex(target)
    ensures Turnover(target, Zeros(|target|)) == 1.0
  {
    L1FromZero(target);
  }

  /** Keeping the same allocation costs nothing. */
  lemma HoldingCostsNothing(w: seq<real>, value: real, pct: real)
    ensures Turnover(w, w) == 0.0
    ensures TransactionCost(value, Turnover(w, w), pct) == 0.0
  {
    L1Symmetric(w, w);
  }

  /** Three assets moving from cash into the first one with a 0.1% cost rate on a
      value of 100000: turnover 1, cost 100. */
  lemma TransactionCostExample()
    ensures Turnover([1.0, 0.0, 0.0], [0.0, 0.0, 0.0]) == 1.0
    ensures TransactionCost(100000.0, 1.0, 0.001) == 100.0
  {
    assert [0.0, 0.0, 0.0] == Zeros(3);
    assert IsSimplex([1.0, 0.0, 0.0]) by {
      assert [1.0, 0.0, 0.0][1..] == [0.0, 0.0];
      assert [0.0, 0.0][1..] == [0.0];
    }
    FirstTurnoverIsOne([1.0, 0.0, 0.0]);
  }

  /** A value of 100000 growing to 101000 yields the reward log(1.01). */
  lemma RewardExample(log: real -> real)
    ensures LogReturn(100000.0, 101000.0, log) == Finite(log(1.01))
  {
  }

  /** The new value lies between the value moved by the worst and by the best asset
      return, minus the cost: with a legal allocation the weighted return is an
      average of the asset returns. */
  lemma ValueBetweenAssetReturns(c: Config, s: State, target: seq<real>, lo: real, hi: real)
    requires Valid(c)
    requires 1 <= s.tick <= EndTick(c)
    requires |target| == |s.weights| == c.assets
    requires IsSimplex(target)
    requires s.value >= 0.0
    requires forall j :: 0 <= j < c.assets ==> lo <= PriceRatios(c, s.tick)[j] <= hi
    ensures var cost := TransactionCost(s.value, Turnover(target, s.weights), c.costPct);
      s.value * lo - cost <= NextValue(c, s, target) <= s.value * hi - cost
  {
    var ratios := PriceRatios(c, s.tick);
    DotBounds(target, ratios, lo, hi);
    var d := Dot(target, ratios);
    assert lo <= d <= hi;
    MulNonNegative(s.value, d - lo);
    MulNonNegative(s.value, hi - d);
  }

  /** Unchanged prices give every asset a gross return of exactly one. */
  lemma FlatRatiosAreOne(c: Config, tick: nat)
    requires Valid(c)
    requires 1 <= tick <= EndTick(c)
    requires c.frame[tick].prices == c.frame[tick - 1].prices
    ensures PriceRatios(c, tick) == Ones(c.assets)
  {
    var ratios := PriceRatios(c, tick);
    forall j | 0 <= j < c.assets ensures ratios[j] == 1.0 {
      var p := c.frame[tick - 1].prices[j];
      assert p > 0.0;
      assert ratios[j] * p == c.frame[tick].prices[j];
      UnitFactor(ratios[j], p);
    }
  }

  /** The fraction of the value that survives the rebalancing charge. */
  function CostFactor(c: Config, s: State, target: seq<real>): (f: real)
    requires |target| == |s.weights|
  {
    1.0 - Turnover(target, s.weights) * c.costPct
  }

  /** When no price moves between the two rows, the value only pays the cost:
      new = old * (1 - turnover * pct). */
  lemma FlatPricesValue(c: Config, s: State, target: seq<real>)
    requires Valid(c)
    requires 1 <= s.tick <= EndTick(c)
    requires |target| == |s.weights| == c.assets
    requires IsSimplex(target)
    requires c.frame[s.tick].prices == c.frame[s.tick - 1].prices
    ensures NextValue(c, s, target) == s.value * CostFactor(c, s, target)
  {
    FlatRatiosAreOne(c, s.tick);
    DotOnes(target);
    var t := Turnover(target, s.weights);
    var d := Dot(target, PriceRatios(c, s.tick));
    assert d == 1.0;
    var cost := TransactionCost(s.value, t, c.costPct);
    assert NextValue(c, s, target) == s.value * d - cost;
    assert cost == s.value * (t * c.costPct);
    assert s.value * CostFactor(c, s, target) == s.value - s.value * (t * c.costPct);
  }

  /** On flat prices the reward is exactly the log of the cost factor 1 - turnover * pct. */
  lemma FlatPricesReward(c: Config, s: State, target: seq<real>, log: real -> real)
    requires Valid(c)
    requires 1 <= s.tick <= EndTick(c)
    requires |target| == |s.weights| == c.assets
    requires IsSimplex(target)
    requires c.frame[s.tick].prices == c.frame[s.tick - 1].prices
    requires s.value > 0.0 && CostFactor(c, s, target) > 0.0
    ensures LogReturn(s.value, NextValue(c, s, target), log) == Finite(log(CostFactor(c, s, target)))
  {
    var f := CostFactor(c, s, target);
    var v := s.value;
    assert LogReturn(v, v * f, log) == Finite(log(f)) by {
      ScaledReward(v, f, log);
    }
    assert NextValue(c, s, target) == v * f by {
      FlatPricesValue(c, s, target);
    }
  }

  /** The step-level form: on flat prices a step multiplies the value by the cost
      factor of its new weights and, when that factor is positive, earns its log. */
  lemma FlatPricesStep(e: Env, action: seq<real>, exp: real -> real, log: real -> real)
    requires CanStep(e, action, exp)
    requires e.config.frame[e.state.tick].prices == e.config.frame[e.state.tick - 1].prices
    ensures Step(e, action, exp, log).env.state.value ==
      e.state.value * CostFactor(e.config, e.state, Softmax(action, exp))
    ensures e.state.value > 0.0 && CostFactor(e.config, e.state, Softmax(action, exp)) > 0.0 ==>
      Step(e, action, exp, log).reward == Finite(log(CostFactor(e.config, e.state, Softmax(action, exp))))
  {
    var c := e.config;
    var s := e.state;
    var w := Softmax(action, exp);
    assert NextValue(c, s, w) == s.value * CostFactor(c, s, w) by {
      SoftmaxIsSimplex(action, exp);
      FlatPricesValue(c, s, w);
    }
    assert s.value > 0.0 && CostFactor(c, s, w) > 0.0 ==>
      LogReturn(s.value, NextValue(c, s, w), log) == Finite(log(CostFactor(c, s, w))) by {
      if s.value > 0.0 && CostFactor(c, s, w) > 0.0 {
        SoftmaxIsSimplex(action, exp);
        FlatPricesReward(c, s, w, log);
      }
    }
  }

  /** Scaling a positive value by a positive factor earns the log of the factor. */
  lemma ScaledReward(v: real, f: real, log: real -> real)
    requires v > 0.0 && f > 0.0
    ensures LogReturn(v, v * f, log) == Finite(log(f))
  {
    CancelFactor(f, v);
    MulNonNegative(v, f);
    assert v * f != 0.0;
  }

  /** Applies the actions one step at a time; the frame must hold a row for every step. */
  function Run(e: Env, actions: seq<seq<real>>, exp: real -> real, log: real -> real): (r: Env)
    requires Valid(e.config)
    requires IsExp(exp)
    requires Reachable(e.config, e.state)
    requires e.config.assets > 0
    requires forall k :: 0 <= k < |actions| ==> |actions[k]| == e.config.assets
    requires e.state.tick + |actions| <= |e.config.frame|
    ensures r.config == e.config
    ensures r.state.tick == e.state.tick + |actions|
    ensures Reachable(r.config, r.state)
    ensures e.state.done ==> r.state.done
    decreases |actions|
  {
    if |actions| == 0 then e
    else
      var next := Step(e, actions[0], exp, log).env;
      StepPreservesReachable(e, actions[0], exp, log);
      Run(next, actions[1..], exp, log)
  }

  /** An episode that steps through every remaining row of the frame ends done. */
  lemma {:induction false} ExhaustedEpisodeIsDone(e: Env, actions: seq<seq<real>>, exp: real -> real, log: real -> real)
    requires Valid(e.config)
    requires IsExp(exp)
    requires Reachable(e.config, e.state)
    requires e.config.assets > 0
    requires forall k :: 0 <= k < |actions| ==> |actions[k]| == e.config.assets
    requires |actions| > 0
    requires e.state.tick + |actions| == |e.config.frame|
    ensures Run(e, actions, exp, log).state.done
    decreases |actions|
  {
    var next := Step(e, actions[0], exp, log).env;
    StepPreservesReachable(e, actions[0], exp, log);
    if |actions| > 1 {
      ExhaustedEpisodeIsDone(next, actions[1..], exp, log);
    }
  }

  /** From reset, `k` steps leave the tick at `window_size + k`. */
  lemma RunFromReset(e: Env, actions: seq<seq<real>>, exp: real -> real, log: real -> real)
    requires Valid(e.config)
    requires IsExp(exp)
    requires e.config.assets > 0
    requires forall k :: 0 <= k < |actions| ==> |actions[k]| == e.config.assets
    requires e.config.windowSize + |actions| <= |e.config.frame|
    ensures var start := Reset(e).env;
      Reachable(start.config, start.state) &&
      Run(start, actions, exp, log).state.tick == e.config.windowSize + |actions|
  {
    ResetIsReachable(e);
  }
}
