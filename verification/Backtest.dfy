/**
 The event-driven backtester: a cash and position ledger with slippage, an equity curve,
 and performance metrics that are computed from the trade log and the curve alone.
 */
module Backtest {
  import opened MarketData
  import opened Numbers
  import opened Sharpe
  import opened Weighted

  datatype Side = Buy | Sell
  datatype Trade = Trade(timestamp: int, side: Side, quantity: real, price: real, value: real)

  /** The state of an engine. */
  datatype Account = Account(
    cash: real, position: real, entryPrice: real,
    equityCurve: seq<real>, stepReturns: seq<real>, trades: seq<Trade>)

  function Opening(capital: real): Account {
    Account(capital, 0.0, 0.0, [capital], [], [])
  }

  function FillPrice(side: Side, price: real, slippage: real): real {
    if side == Buy then price + price * slippage else price - price * slippage
  }

  function ValueAt(quantity: real, price: real): real {
    quantity * price
  }

  function AfterOrder(a: Account, slippage: real, side: Side, qty: real, price: real, time: int): Account {
    var fill := FillPrice(side, price, slippage);
    var cost := ValueAt(qty, fill);
    a.(cash := if side == Buy then a.cash - cost else a.cash + cost,
       position := if side == Buy then a.position + qty else a.position - qty,
       entryPrice := fill,
       trades := a.trades + [Trade(time, side, qty, fill, cost)])
  }

  function Equity(a: Account, price: real): real {
    a.cash + ValueAt(a.position, price)
  }

  function AfterMark(a: Account, price: real): Account
    requires a.equityCurve != []
  {
    var prev, now := a.equityCurve[|a.equityCurve| - 1], Equity(a, price);
    a.(equityCurve := a.equityCurve + [now],
       stepReturns := a.stepReturns + [if prev > 0.0 then (now - prev) / prev else 0.0])
  }

  // ----- metrics

  /** Wins, gross profit and gross loss of the log-paired trades. */
  datatype Tally = Tally(wins: nat, grossProfit: real, grossLoss: real)

  /** What a quantity gains between two prices. */
  function LongPnl(entry: real, exit: real, quantity: real): real {
    (exit - entry) * quantity
  }

  /** Profit or loss of the pair entered at `2k` and exited at `2k + 1`; a short entry counts the other way. */
  function PairPnl(trades: seq<Trade>, k: nat): real
    requires 2 * k + 1 < |trades|
  {
    var entry, exit := trades[2 * k], trades[2 * k + 1];
    var pnl := LongPnl(entry.price, exit.price, entry.quantity);
    if entry.side == Sell then -pnl else pnl
  }

  function Book(t: Tally, pnl: real): Tally {
    if pnl > 0.0 then Tally(t.wins + 1, t.grossProfit + pnl, t.grossLoss)
    else Tally(t.wins, t.grossProfit, t.grossLoss + Abs(pnl))
  }

  function TallyPairs(trades: seq<Trade>, k: nat): Tally
    requires 2 * k <= |trades|
  {
    if k == 0 then Tally(0, 0.0, 0.0) else Book(TallyPairs(trades, k - 1), PairPnl(trades, k - 1))
  }

  /** The running peak after `k` points of the curve, starting from `start`. */
  function Peak(curve: seq<real>, start: real, k: nat): real
    requires k <= |curve|
  {
    if k == 0 then start else Max(Peak(curve, start, k - 1), curve[k - 1])
  }

  /** The fall of point `j` below the peak reached so far, as a fraction of that peak. */
  function DrawdownAt(curve: seq<real>, start: real, j: nat): real
    requires j < |curve|
  {
    var peak := Peak(curve, start, j + 1);
    if peak > 0.0 then (peak - curve[j]) / peak else 0.0
  }

  function MaxDrawdown(curve: seq<real>, start: real, k: nat): real
    requires k <= |curve|
  {
    if k == 0 then 0.0 else Max(MaxDrawdown(curve, start, k - 1), DrawdownAt(curve, start, k - 1))
  }

  /** The reported figures other than the Sharpe ratio; the final capital is missing when there were no trades. */
  datatype Metrics = Metrics(
    maxDrawdown: real, profitFactor: real, winRate: real, totalTrades: nat, finalCapital: Option<real>)

  function ProfitFactor(t: Tally): real {
    if t.grossLoss > 0.0 then t.grossProfit / t.grossLoss
    else if t.grossProfit > 0.0 then t.grossProfit
    else 1.0
  }

  function MetricsOf(a: Account, capital: real): Metrics
    requires a.equityCurve != []
  {
    var n := |a.trades|;
    if n == 0 then Metrics(0.0, 1.0, 0.0, 0, None)
    else
      var t := TallyPairs(a.trades, n / 2);
      Metrics(
        Round2(MaxDrawdown(a.equityCurve, capital, |a.equityCurve|) * 100.0),
        Round2(ProfitFactor(t)),
        Round2(if n >= 2 then t.wins as real / (n / 2) as real * 100.0 else 0.0),
        n,
        Some(Round2(a.equityCurve[|a.equityCurve| - 1])))
  }

  /** The Sharpe ratio reported with them, given the deviation of the returns and the root of 252. */
  function SharpeOf(a: Account, deviation: real, annual: real): real {
    if a.trades == [] then 0.0 else Round4(SharpeRatio(a.stepReturns, deviation, annual))
  }

  // ----- the engine

  class BacktestEngine {
    const initialCapital: real
    const slippage: real
    var cash: real
    var position: real
    var entryPrice: real
    var equityCurve: seq<real>
    var stepReturns: seq<real>
    var trades: seq<Trade>

    function State(): Account
      reads this
    {
      Account(cash, position, entryPrice, equityCurve, stepReturns, trades)
    }

    /** The curve starts with the initial capital and only grows. */
    ghost predicate Valid()
      reads this
    {
      equityCurve != [] && equityCurve[0] == initialCapital
    }

    constructor (initialCapital: real, slippagePct: real)
      ensures Valid() && State() == Opening(initialCapital)
      ensures this.initialCapital == initialCapital && slippage == slippagePct / 100.0
    {
      this.initialCapital := initialCapital;
      this.slippage := slippagePct / 100.0;
      this.cash := initialCapital;
      this.position := 0.0;
      this.entryPrice := 0.0;
      this.equityCurve := [initialCapital];
      this.stepReturns := [];
      this.trades := [];
    }

    method ExecuteMarketOrder(side: Side, qty: real, currentPrice: real, timestamp: int) returns (trade: Trade)
      requires Valid()
      modifies this
      ensures Valid() && State() == AfterOrder(old(State()), slippage, side, qty, currentPrice, timestamp)
      ensures trades == old(trades) + [trade]
    {
      var slip := currentPrice * slippage;
      var fillPrice := if side == Buy then currentPrice + slip else currentPrice - slip;
      var cost := qty * fillPrice;
      if side == Buy {
        cash := cash - cost;
        position := position + qty;
        entryPrice := fillPrice;
      } else {
        cash := cash + cost;
        position := position - qty;
        entryPrice := fillPrice;
      }
      trade := Trade(timestamp, side, qty, fillPrice, cost);
      trades := trades + [trade];
    }

    method UpdatePortfolio(currentPrice: real) returns (value: real)
      requires Valid()
      modifies this
      ensures Valid() && State() == AfterMark(old(State()), currentPrice)
      ensures value == Equity(State(), currentPrice)
    {
      var assetValue := position * currentPrice;
      value := cash + assetValue;
      var prevEquity := equityCurve[|equityCurve| - 1];
      equityCurve := equityCurve + [value];
      var ret := if prevEquity > 0.0 then (value - prevEquity) / prevEquity else 0.0;
      stepReturns := stepReturns + [ret];
    }

    /** `deviation` stands for `np.std(self.returns)` and `annual` for `np.sqrt(252)`. */
    method CalculatePerformanceMetrics(deviation: real, annual: real) returns (m: Metrics, sharpe: real)
      requires Valid() && IsDeviation(deviation, stepReturns) && IsAnnualFactor(annual)
      ensures m == MetricsOf(State(), initialCapital)
      ensures sharpe == SharpeOf(State(), deviation, annual)
    {
      hide Square, Mean, Variance, SharpeRatio, Round4;
      var totalTrades := |trades|;
      if totalTrades == 0 {
        return Metrics(0.0, 1.0, 0.0, 0, None), 0.0;
      }
      var tally := PairTrades();
      var winRate := if totalTrades >= 2 then tally.wins as real / (totalTrades / 2) as real * 100.0 else 0.0;
      var profitFactor :=
        if tally.grossLoss > 0.0 then tally.grossProfit / tally.grossLoss
        else if tally.grossProfit > 0.0 then tally.grossProfit else 1.0;
      var ratio := AnnualSharpe(deviation, annual);
      sharpe := Round4(ratio);
      var maxDd := ScanDrawdown();
      m := Metrics(Round2(maxDd * 100.0), Round2(profitFactor), Round2(winRate), totalTrades,
                   Some(Round2(equityCurve[|equityCurve| - 1])));
    }

    method AnnualSharpe(deviation: real, annual: real) returns (ratio: real)
      ensures ratio == SharpeRatio(stepReturns, deviation, annual)
    {
      hide Mean;
      var meanRet := if |stepReturns| > 0 then Mean(stepReturns) else 0.0;
      assert meanRet == Average(stepReturns);
      ratio := if deviation > 0.0 then meanRet / deviation * annual else 0.0;
    }

    /** The pairing loop: trades 0 and 1, 2 and 3, ... */
    method PairTrades() returns (tally: Tally)
      ensures tally == TallyPairs(trades, |trades| / 2)
    {
      hide LongPnl;
      var wins, grossProfit, grossLoss := 0, 0.0, 0.0;
      var i := 1;
      ghost var k := 0;
      while i < |trades|
        invariant i == 2 * k + 1 && 0 <= 2 * k <= |trades|
        invariant wins >= 0
        invariant Tally(wins, grossProfit, grossLoss) == TallyPairs(trades, k)
      {
        var entry := trades[i - 1];
        var exit := trades[i];
        var pnl := LongPnl(entry.price, exit.price, entry.quantity);
        if entry.side == Sell {
          pnl := -pnl;
        }
        assert pnl == PairPnl(trades, k);
        if pnl > 0.0 {
          wins := wins + 1;
          grossProfit := grossProfit + pnl;
        } else {
          grossLoss := grossLoss + Abs(pnl);
        }
        i := i + 2;
        k := k + 1;
      }
      tally := Tally(wins, grossProfit, grossLoss);
    }

    /** The one-pass drawdown loop: it remembers the running peak and the deepest fall below it. */
    method ScanDrawdown() returns (maxDd: real)
      ensures maxDd == MaxDrawdown(equityCurve, initialCapital, |equityCurve|)
    {
      var peak := initialCapital;
      maxDd := 0.0;
      for k := 0 to |equityCurve|
        invariant peak == Peak(equityCurve, initialCapital, k)
        invariant maxDd == MaxDrawdown(equityCurve, initialCapital, k)
      {
        var val := equityCurve[k];
        if val > peak {
          peak := val;
        }
        var dd := if peak > 0.0 then (peak - val) / peak else 0.0;
        if dd > maxDd {
          maxDd := dd;
        }
      }
    }
  }

  // ----- the demonstration strategy that drives the engine

  const LOT := 0.1

  /** Buy on a rising candle when flat, sell on a falling one when long. */
  function BeforeMark(a: Account, slippage: real, candle: Bar): (b: Account)
    requires a.equityCurve != []
    ensures b.equityCurve == a.equityCurve
  {
    if candle.close > candle.open && a.position == 0.0 then
      AfterOrder(a, slippage, Buy, LOT, candle.close, candle.time)
    else if candle.close < candle.open && a.position > 0.0 then
      AfterOrder(a, slippage, Sell, LOT, candle.close, candle.time)
    else a
  }

  function AfterCandle(a: Account, slippage: real, candle: Bar): Account
    requires a.equityCurve != []
  {
    AfterMark(BeforeMark(a, slippage, candle), candle.close)
  }

  /** The account after the first `k` candles. */
  function Replay(candles: seq<Bar>, capital: real, slippage: real, k: nat): (a: Account)
    requires k <= |candles|
    ensures |a.equityCurve| == k + 1
  {
    if k == 0 then Opening(capital)
    else AfterCandle(Replay(candles, capital, slippage, k - 1), slippage, candles[k - 1])
  }

  /** Buy on a rising candle when flat, sell on a falling one when long, mark after every candle. */
  method RunBacktest(candles: seq<Bar>, initialCapital: real, slippagePct: real) returns (engine: BacktestEngine)
    ensures fresh(engine) && engine.Valid()
    ensures engine.initialCapital == initialCapital
    ensures engine.State() == Replay(candles, initialCapital, slippagePct / 100.0, |candles|)
  {
    engine := new BacktestEngine(initialCapital, slippagePct);
    for k := 0 to |candles|
      invariant fresh(engine) && engine.Valid()
      invariant engine.State() == Replay(candles, initialCapital, engine.slippage, k)
    {
      var candle := candles[k];
      var price := candle.close;
      if candle.close > candle.open && engine.position == 0.0 {
        var _ := engine.ExecuteMarketOrder(Buy, LOT, price, candle.time);
      } else if candle.close < candle.open && engine.position > 0.0 {
        var _ := engine.ExecuteMarketOrder(Sell, LOT, price, candle.time);
      }
      var _ := engine.UpdatePortfolio(price);
    }
  }
}
