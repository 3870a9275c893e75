/**
 The metrics never look at the cash ledger. These lemmas show that the two agree, and where
 the money of any run of orders and marks comes from.
 */
module BacktestLedger {
  import opened MarketData
  import opened Numbers
  import opened Backtest
  import opened Sharpe
  import opened Weighted

  // ----- P&L reconciliation

  /** Net cash a list of trades brings in. */
  function CashFlow(trades: seq<Trade>): real {
    if trades == [] then 0.0
    else
      CashFlow(trades[..|trades| - 1]) + SignedValue(trades[|trades| - 1])
  }

  /** What one trade brings in: a sell its value, a buy minus its value. */
  function SignedValue(t: Trade): real {
    if t.side == Buy then -t.value else t.value
  }

  /** Every complete pair enters and exits the same quantity on opposite sides, at value quantity x price. */
  ghost predicate ClosedPairs(trades: seq<Trade>) {
    && (forall j :: 0 <= j < |trades| ==> trades[j].value == trades[j].quantity * trades[j].price)
    && (forall k :: 0 <= k && 2 * k + 1 < |trades| ==> ClosedPair(trades, k))
  }

  ghost predicate ClosedPair(trades: seq<Trade>, k: nat)
    requires 2 * k + 1 < |trades|
  {
    trades[2 * k].side != trades[2 * k + 1].side && trades[2 * k].quantity == trades[2 * k + 1].quantity
  }

  lemma {:induction false} PairIsCashChange(trades: seq<Trade>, k: nat)
    requires ClosedPairs(trades) && 2 * k + 1 < |trades|
    ensures PairPnl(trades, k) == CashFlow([trades[2 * k], trades[2 * k + 1]])
  {
    var entry, exit := trades[2 * k], trades[2 * k + 1];
    assert ClosedPair(trades, k);
    CashFlowAppend([entry], [exit]);
    assert [entry] + [exit] == [entry, exit];
    CashFlowOne(entry);
    CashFlowOne(exit);
    var q := entry.quantity;
    assert (exit.price - entry.price) * q == q * exit.price - q * entry.price;
    assert exit.value == q * exit.price && entry.value == q * entry.price;
  }

  lemma {:induction false} CashFlowOne(t: Trade)
    ensures CashFlow([t]) == SignedValue(t)
  {
  }

  lemma {:induction false} CashFlowAppend(s: seq<Trade>, t: seq<Trade>)
    ensures CashFlow(s + t) == CashFlow(s) + CashFlow(t)
  {
    if t == [] {
      assert s + t == s;
    } else {
      assert (s + t)[..|s + t| - 1] == s + t[..|t| - 1];
      CashFlowAppend(s, t[..|t| - 1]);
    }
  }

  /** Profit and loss of any log are not negative, and no more pairs win than there are. */
  lemma {:induction false} TallyNonNegative(trades: seq<Trade>, k: nat)
    requires 2 * k <= |trades|
    ensures TallyPairs(trades, k).grossProfit >= 0.0 && TallyPairs(trades, k).grossLoss >= 0.0
    ensures TallyPairs(trades, k).wins <= k
  {
    hide PairPnl;
    if k == 0 {
    } else {
      TallyNonNegative(trades, k - 1);
    }
  }

  /** Gross profit minus gross loss is the cash the paired trades brought in, for long and short pairs alike. */
  lemma {:induction false} TallyIsCashFlow(trades: seq<Trade>, k: nat)
    requires ClosedPairs(trades) && 2 * k <= |trades|
    ensures TallyPairs(trades, k).grossProfit - TallyPairs(trades, k).grossLoss == CashFlow(trades[..2 * k])
  {
    hide ClosedPairs;
    if k == 0 {
    } else {
      TallyIsCashFlow(trades, k - 1);
      PairIsCashChange(trades, k - 1);
      var pair := [trades[2 * (k - 1)], trades[2 * (k - 1) + 1]];
      assert trades[..2 * k] == trades[..2 * (k - 1)] + pair;
      CashFlowAppend(trades[..2 * (k - 1)], pair);
      TallyStep(trades, k - 1);
      hide PairPnl, CashFlow, TallyPairs;
    }
  }

  /** What the backtest loop keeps: strictly alternating lots, position and cash determined by the log. */
  ghost predicate Alternating(a: Account, capital: real) {
    && (forall j :: 0 <= j < |a.trades| ==>
      && a.trades[j].side == (if j % 2 == 0 then Buy else Sell)
      && a.trades[j].quantity == LOT
      && a.trades[j].value == LOT * a.trades[j].price)
    && a.position == (if |a.trades| % 2 == 1 then LOT else 0.0)
    && a.cash == capital + CashFlow(a.trades)
  }

  lemma {:induction false} OrderKeepsAlternating(
    a: Account, capital: real, slippage: real, side: Side, price: real, time: int)
    requires Alternating(a, capital)
    requires side == if |a.trades| % 2 == 0 then Buy else Sell
    ensures Alternating(AfterOrder(a, slippage, side, LOT, price, time), capital)
    ensures AfterOrder(a, slippage, side, LOT, price, time).trades != []
  {
    hide CashFlow, FillPrice;
    var fill := FillPrice(side, price, slippage);
    var trade := Trade(time, side, LOT, fill, LOT * fill);
    CashFlowAppend(a.trades, [trade]);
    CashFlowOne(trade);
  }

  lemma {:induction false} ReplayAlternates(candles: seq<Bar>, capital: real, slippage: real, k: nat)
    requires k <= |candles|
    ensures Alternating(Replay(candles, capital, slippage, k), capital)
  {
    if k == 0 {
    } else {
      ReplayAlternates(candles, capital, slippage, k - 1);
      CandleKeepsAlternating(Replay(candles, capital, slippage, k - 1), capital, slippage, candles[k - 1]);
    }
  }

  lemma {:induction false} CandleKeepsAlternating(a: Account, capital: real, slippage: real, candle: Bar)
    requires a.equityCurve != [] && Alternating(a, capital)
    ensures Alternating(AfterCandle(a, slippage, candle), capital)
    ensures AfterCandle(a, slippage, candle).trades == [] <==> a.trades == [] && candle.close <= candle.open
  {
    hide CashFlow, AfterOrder, AfterMark;
    if candle.close > candle.open && a.position == 0.0 {
      OrderKeepsAlternating(a, capital, slippage, Buy, candle.close, candle.time);
    } else if candle.close < candle.open && a.position > 0.0 {
      OrderKeepsAlternating(a, capital, slippage, Sell, candle.close, candle.time);
    }
    MarkKeepsLedger(BeforeMark(a, slippage, candle), candle.close, capital);
  }

  lemma {:induction false} MarkKeepsLedger(a: Account, price: real, capital: real)
    requires a.equityCurve != []
    ensures Alternating(AfterMark(a, price), capital) <==> Alternating(a, capital)
    ensures AfterMark(a, price).trades == a.trades
  {
    hide Equity;
  }

  /** The last of the first `k` candles that does not close where it opened. */
  function LastColoured(candles: seq<Bar>, k: nat): (last: Option<nat>)
    requires k <= |candles|
    ensures last.Some? ==> last.value < k && candles[last.value].close != candles[last.value].open
  {
    if k == 0 then None
    else if candles[k - 1].close != candles[k - 1].open then Some(k - 1)
    else LastColoured(candles, k - 1)
  }

  predicate Rising(candle: Bar) {
    candle.close > candle.open
  }

  /** The loop holds one lot exactly while the last coloured candle is a rising one. */
  lemma {:induction false} LongIffLastRose(candles: seq<Bar>, capital: real, slippage: real, k: nat)
    requires k <= |candles|
    ensures var last := LastColoured(candles, k);
      Replay(candles, capital, slippage, k).position ==
        if last.Some? && Rising(candles[last.value]) then 0.1 else 0.0
  {
    hide FillPrice, Equity;
    if k == 0 {
    } else {
      LongIffLastRose(candles, capital, slippage, k - 1);
    }
  }

  /**
   What each candle trades: a rising one buys when none is held, a falling one sells when one is, both at
   the close made worse by slippage and at the candle's time; no other candle trades.
   */
  lemma {:induction false} TradesOfLoop(candles: seq<Bar>, capital: real, slippage: real, k: nat)
    requires k < |candles|
    ensures var before, last := Replay(candles, capital, slippage, k).trades, LastColoured(candles, k);
      var holds, c := last.Some? && Rising(candles[last.value]), candles[k];
      Replay(candles, capital, slippage, k + 1).trades == before +
        if c.close > c.open && !holds then [LotTrade(Buy, c.time, c.close * (1.0 + slippage))]
        else if c.close < c.open && holds then [LotTrade(Sell, c.time, c.close * (1.0 - slippage))]
        else []
  {
    hide Equity, Replay;
    LongIffLastRose(candles, capital, slippage, k);
    ReplayStep(candles, capital, slippage, k);
    FillIsWorse(candles[k].close, slippage);
  }

  function LotTrade(side: Side, time: int, price: real): Trade {
    Trade(time, side, 0.1, price, 0.1 * price)
  }

  lemma {:induction false} ReplayStep(candles: seq<Bar>, capital: real, slippage: real, k: nat)
    requires k < |candles|
    ensures Replay(candles, capital, slippage, k + 1) ==
      AfterCandle(Replay(candles, capital, slippage, k), slippage, candles[k])
  {
  }

  lemma {:induction false} FillIsWorse(price: real, slippage: real)
    ensures FillPrice(Buy, price, slippage) == price * (1.0 + slippage)
    ensures FillPrice(Sell, price, slippage) == price * (1.0 - slippage)
  {
  }

  /**
   P&L reconciliation: on every candle sequence the loop's trades alternate buy / sell with equal
   quantity, and cash is the initial capital plus gross profit minus gross loss, less the value of
   the open entry when the number of trades is odd.
   */
  lemma {:induction false} MetricsReconcile(candles: seq<Bar>, capital: real, slippage: real)
    ensures var a := Replay(candles, capital, slippage, |candles|);
      Alternating(a, capital) && Reconciled(a, capital)
  {
    ReplayAlternates(candles, capital, slippage, |candles|);
    AlternatingReconciles(Replay(candles, capital, slippage, |candles|), capital);
  }

  /** The log-paired metrics agree with the cash ledger. */
  ghost predicate Reconciled(a: Account, capital: real) {
    var n := |a.trades|;
    var t := TallyPairs(a.trades, n / 2);
    && a.cash == capital + t.grossProfit - t.grossLoss - (if n % 2 == 1 then a.trades[n - 1].value else 0.0)
    && 0 <= t.wins <= n / 2
  }

  lemma {:induction false} LastFlow(trades: seq<Trade>)
    requires trades != []
    ensures CashFlow(trades) == CashFlow(trades[..|trades| - 1]) + SignedValue(trades[|trades| - 1])
  {
  }

  lemma {:induction false} AlternatingReconciles(a: Account, capital: real)
    requires Alternating(a, capital)
    ensures Reconciled(a, capital)
  {
    AlternatingIsClosed(a, capital);
    assert a.cash == capital + CashFlow(a.trades);
    TallyTotal(a.trades);
  }

  lemma {:induction false} AlternatingIsClosed(a: Account, capital: real)
    requires Alternating(a, capital)
    ensures ClosedPairs(a.trades)
  {
  }

  /** The tally of all pairs accounts for the whole cash flow but an unpaired last entry. */
  lemma {:induction false} TallyTotal(trades: seq<Trade>)
    requires ClosedPairs(trades)
    ensures var n := |trades|;
      var t := TallyPairs(trades, n / 2);
      && t.grossProfit - t.grossLoss ==
        CashFlow(trades) - (if n % 2 == 1 then SignedValue(trades[n - 1]) else 0.0)
      && 0 <= t.wins <= n / 2
  {
    hide ClosedPairs, CashFlow, TallyPairs;
    var n := |trades|;
    TallyIsCashFlow(trades, n / 2);
    TallyNonNegative(trades, n / 2);
    if n % 2 == 1 {
      LastFlow(trades);
      assert trades[..2 * (n / 2)] == trades[..n - 1];
    } else {
      assert trades[..2 * (n / 2)] == trades;
    }
  }

  /** With every position closed, the reported final capital is the initial capital plus the reported net profit. */
  lemma {:induction false} FinalCapitalReconciles(candles: seq<Bar>, capital: real, slippage: real)
    requires var n := |Replay(candles, capital, slippage, |candles|).trades|; n > 0 && n % 2 == 0
    ensures var a := Replay(candles, capital, slippage, |candles|);
      var t := TallyPairs(a.trades, |a.trades| / 2);
      MetricsOf(a, capital).finalCapital == Some(Round2(capital + t.grossProfit - t.grossLoss))
  {
    hide TallyPairs, CashFlow, FillPrice, MaxDrawdown, ProfitFactor, Round2;
    MetricsReconcile(candles, capital, slippage);
    var a, before := Replay(candles, capital, slippage, |candles|), Replay(candles, capital, slippage, |candles| - 1);
    assert a.equityCurve[|a.equityCurve| - 1] == Equity(a, candles[|candles| - 1].close);
  }

  /** The loop trades at all exactly when some candle rises. */
  lemma {:induction false} TradesIffRising(candles: seq<Bar>, capital: real, slippage: real, k: nat)
    requires k <= |candles|
    ensures Replay(candles, capital, slippage, k).trades == [] <==>
      forall i :: 0 <= i < k ==> candles[i].close <= candles[i].open
  {
    hide AfterCandle, Alternating;
    if k == 0 {
    } else {
      TradesIffRising(candles, capital, slippage, k - 1);
      ReplayAlternates(candles, capital, slippage, k - 1);
      CandleKeepsAlternating(Replay(candles, capital, slippage, k - 1), capital, slippage, candles[k - 1]);
    }
  }

  /**
   The route reads the final capital of every run, but the metrics of a run without trades have none:
   it is missing exactly when no candle closes above its open.
   */
  lemma {:induction false} FinalCapitalMissingIff(candles: seq<Bar>, capital: real, slippage: real)
    ensures MetricsOf(Replay(candles, capital, slippage, |candles|), capital).finalCapital.None? <==>
      forall i :: 0 <= i < |candles| ==> candles[i].close <= candles[i].open
  {
    TradesIffRising(candles, capital, slippage, |candles|);
    hide Replay;
  }

  /** It happens on a market that only falls. */
  lemma {:induction false} FinalCapitalCanBeMissing(capital: real, slippage: real)
    ensures var candles := [Bar(0, 3.0, 3.0, 2.0, 2.0), Bar(1, 2.0, 2.0, 1.0, 1.0)];
      MetricsOf(Replay(candles, capital, slippage, 2), capital).finalCapital == None
  {
    FinalCapitalMissingIff([Bar(0, 3.0, 3.0, 2.0, 2.0), Bar(1, 2.0, 2.0, 1.0, 1.0)], capital, slippage);
  }

  // ----- equity decomposition

  /** Any interleaving of market orders and portfolio marks; each step happens at a price. */
  datatype Step = Order(side: Side, qty: real, price: real, time: int) | Mark(price: real)

  function Apply(a: Account, slippage: real, s: Step): (b: Account)
    requires a.equityCurve != []
    ensures b.equityCurve != []
  {
    match s
    case Order(side, qty, price, time) => AfterOrder(a, slippage, side, qty, price, time)
    case Mark(price) => AfterMark(a, price)
  }

  function Play(steps: seq<Step>, capital: real, slippage: real, k: nat): (a: Account)
    requires k <= |steps|
    ensures a.equityCurve != []
  {
    if k == 0 then Opening(capital) else Apply(Play(steps, capital, slippage, k - 1), slippage, steps[k - 1])
  }

  /**
   Any order, of any side and size, is logged with its own time, side and quantity, at its price made worse by
   slippage, and that price becomes the entry price; a mark logs nothing.
   */
  lemma {:induction false} OrdersLogged(steps: seq<Step>, capital: real, slippage: real, k: nat)
    requires k < |steps|
    ensures var before, after := Play(steps, capital, slippage, k), Play(steps, capital, slippage, k + 1);
      match steps[k]
      case Order(side, qty, price, time) =>
        var fill := FillPrice(side, price, slippage);
        && fill == price * (if side == Buy then 1.0 + slippage else 1.0 - slippage)
        && after.trades == before.trades + [Trade(time, side, qty, fill, ValueAt(qty, fill))]
        && after.entryPrice == fill
      case Mark(_) => after.trades == before.trades && after.entryPrice == before.entryPrice
  {
    hide FillPrice, Equity, ValueAt;
    if steps[k].Order? {
      FillIsWorse(steps[k].price, slippage);
    }
  }

  /** What a price move is worth on the position held. */
  function Gain(a: Account, before: real, after: real): real {
    a.position * (after - before)
  }

  /** The sum, over the steps, of the position held times the price change since the step before. */
  function MarketGain(steps: seq<Step>, capital: real, slippage: real, k: nat): real
    requires k <= |steps|
  {
    if k <= 1 then 0.0
    else
      var held := Play(steps, capital, slippage, k - 1);
      MarketGain(steps, capital, slippage, k - 1) + Gain(held, steps[k - 2].price, steps[k - 1].price)
  }

  function OrderValue(s: Step): real {
    match s
    case Order(_, qty, price, _) => qty * price
    case Mark(_) => 0.0
  }

  /** The sum of quantity times order price over the orders. */
  function Turnover(steps: seq<Step>, k: nat): real
    requires k <= |steps|
  {
    if k == 0 then 0.0 else Turnover(steps, k - 1) + OrderValue(steps[k - 1])
  }

  /** One step at its own price changes equity only by slippage. */
  lemma {:induction false} StepCostsSlippage(a: Account, slippage: real, s: Step)
    requires a.equityCurve != []
    ensures Equity(Apply(a, slippage, s), s.price) == Equity(a, s.price) - slippage * OrderValue(s)
  {
  }

  function SlippageCost(s: Step, slippage: real): real {
    slippage * OrderValue(s)
  }

  function SlippagePaid(steps: seq<Step>, slippage: real, k: nat): real
    requires k <= |steps|
  {
    if k == 0 then 0.0 else SlippagePaid(steps, slippage, k - 1) + SlippageCost(steps[k - 1], slippage)
  }

  lemma {:induction false} SlippageIsOnTurnover(steps: seq<Step>, slippage: real, k: nat)
    requires k <= |steps|
    ensures SlippagePaid(steps, slippage, k) == slippage * Turnover(steps, k)
  {
    if k == 0 {
    } else {
      SlippageIsOnTurnover(steps, slippage, k - 1);
      var traded, value := Turnover(steps, k - 1), OrderValue(steps[k - 1]);
      assert slippage * (traded + value) == slippage * traded + slippage * value;
    }
  }

  lemma {:induction false} EquityStep(a: Account, slippage: real, s: Step, before: real)
    requires a.equityCurve != []
    ensures Equity(Apply(a, slippage, s), s.price) ==
      Equity(a, before) + Gain(a, before, s.price) - SlippageCost(s, slippage)
  {
  }

  lemma {:induction false} EquitySum(steps: seq<Step>, capital: real, slippage: real, k: nat)
    requires 1 <= k <= |steps|
    ensures Equity(Play(steps, capital, slippage, k), steps[k - 1].price) ==
      capital + MarketGain(steps, capital, slippage, k) - SlippagePaid(steps, slippage, k)
  {
    var a, s := Play(steps, capital, slippage, k - 1), steps[k - 1];
    if k == 1 {
      StepCostsSlippage(a, slippage, s);
      assert SlippagePaid(steps, slippage, 0) == 0.0;
    } else {
      EquitySum(steps, capital, slippage, k - 1);
      EquityStep(a, slippage, s, steps[k - 2].price);
    }
  }

  /**
   Equity decomposition: after any interleaving of orders and marks, equity at the latest price is
   the initial capital plus the market gain on the positions held, minus slippage times turnover.
   */
  lemma {:induction false} EquityDecomposition(steps: seq<Step>, capital: real, slippage: real, k: nat)
    requires 1 <= k <= |steps|
    ensures Equity(Play(steps, capital, slippage, k), steps[k - 1].price) ==
      capital + MarketGain(steps, capital, slippage, k) - slippage * Turnover(steps, k)
  {
    EquitySum(steps, capital, slippage, k);
    SlippageIsOnTurnover(steps, slippage, k);
  }

  /** So is every point a mark adds to the equity curve. */
  lemma {:induction false} CurveDecomposition(steps: seq<Step>, capital: real, slippage: real, k: nat)
    requires 1 <= k <= |steps| && steps[k - 1].Mark?
    ensures var before, after := Play(steps, capital, slippage, k - 1), Play(steps, capital, slippage, k);
      after.equityCurve == before.equityCurve +
        [capital + MarketGain(steps, capital, slippage, k) - slippage * Turnover(steps, k)]
  {
    hide MarketGain, Turnover, Equity;
    EquityDecomposition(steps, capital, slippage, k);
    MarkRecordsEquity(Play(steps, capital, slippage, k - 1), steps[k - 1].price);
  }

  lemma {:induction false} MarkRecordsEquity(a: Account, price: real)
    requires a.equityCurve != []
    ensures AfterMark(a, price).equityCurve == a.equityCurve + [Equity(AfterMark(a, price), price)]
  {
    hide ValueAt;
  }

  /** Trading non-negative quantities at a constant non-negative price never raises equity. */
  lemma {:induction false} ConstantPriceNeverGains(
    steps: seq<Step>, capital: real, slippage: real, price: real, j: nat, k: nat)
    requires j <= k <= |steps| && slippage >= 0.0 && price >= 0.0
    requires forall i :: 0 <= i < |steps| ==> steps[i].price == price && (steps[i].Order? ==> steps[i].qty >= 0.0)
    ensures Equity(Play(steps, capital, slippage, k), price) <= Equity(Play(steps, capital, slippage, j), price)
  {
    if j < k {
      ConstantPriceNeverGains(steps, capital, slippage, price, j, k - 1);
      var s := steps[k - 1];
      StepCostsSlippage(Play(steps, capital, slippage, k - 1), slippage, s);
      assert OrderValue(s) >= 0.0;
      assert slippage * OrderValue(s) >= 0.0;
    }
  }

  // ----- returns

  /** What a capital becomes when it earns these returns one after the other. */
  function Compounded(capital: real, stepReturns: seq<real>): real {
    if stepReturns == [] then capital
    else Compounded(capital, stepReturns[..|stepReturns| - 1]) * (1.0 + stepReturns[|stepReturns| - 1])
  }

  ghost predicate AllPositive(curve: seq<real>) {
    forall i :: 0 <= i < |curve| ==> curve[i] > 0.0
  }

  /** As long as equity stays positive, the logged returns compound from the initial capital to the last equity. */
  lemma {:induction false} ReturnsCompound(steps: seq<Step>, capital: real, slippage: real, k: nat)
    requires k <= |steps| && AllPositive(Play(steps, capital, slippage, k).equityCurve)
    ensures var a := Play(steps, capital, slippage, k);
      Compounded(capital, a.stepReturns) == a.equityCurve[|a.equityCurve| - 1]
  {
    hide Compounded, Equity;
    NothingCompounded(capital);
    if k == 0 {
    } else {
      var a, b := Play(steps, capital, slippage, k - 1), Play(steps, capital, slippage, k);
      CurveGrows(a, slippage, steps[k - 1]);
      assert forall i :: 0 <= i < |a.equityCurve| ==> a.equityCurve[i] == b.equityCurve[i];
      ReturnsCompound(steps, capital, slippage, k - 1);
      if steps[k - 1].Mark? {
        MarkCompounds(a, steps[k - 1].price, capital);
      }
    }
  }

  lemma {:induction false} CurveGrows(a: Account, slippage: real, s: Step)
    requires a.equityCurve != []
    ensures a.equityCurve <= Apply(a, slippage, s).equityCurve
  {
  }

  lemma {:induction false} NothingCompounded(capital: real)
    ensures Compounded(capital, []) == capital
  {
  }

  lemma {:induction false} MarkCompounds(a: Account, price: real, capital: real)
    requires a.equityCurve != [] && a.equityCurve[|a.equityCurve| - 1] > 0.0
    requires Compounded(capital, a.stepReturns) == a.equityCurve[|a.equityCurve| - 1]
    ensures Compounded(capital, AfterMark(a, price).stepReturns) == Equity(a, price)
  {
  }

  /** Positive or not, each logged return explains its step of the curve; from a point at or below zero it is zero. */
  lemma {:induction false} ReturnsExplainCurve(steps: seq<Step>, capital: real, slippage: real, k: nat, i: nat)
    requires k <= |steps| && i < |Play(steps, capital, slippage, k).stepReturns|
    ensures var a := Play(steps, capital, slippage, k);
      && |a.equityCurve| == |a.stepReturns| + 1
      && if a.equityCurve[i] > 0.0
         then a.equityCurve[i] * a.stepReturns[i] == a.equityCurve[i + 1] - a.equityCurve[i]
         else a.stepReturns[i] == 0.0
  {
    hide Equity, AfterOrder;
    CurveOneLonger(steps, capital, slippage, k);
    if k == 0 {
    } else {
      var a := Play(steps, capital, slippage, k - 1);
      CurveOneLonger(steps, capital, slippage, k - 1);
      OrderKeepsCurve(a, slippage, steps[k - 1]);
      if i < |a.stepReturns| {
        ReturnsExplainCurve(steps, capital, slippage, k - 1, i);
      } else {
        var prev, now := a.equityCurve[i], Equity(a, steps[k - 1].price);
        if prev > 0.0 {
          DivTimes(now - prev, prev);
        }
      }
    }
  }

  lemma {:induction false} OrderKeepsCurve(a: Account, slippage: real, s: Step)
    requires a.equityCurve != []
    ensures s.Order? ==>
      Apply(a, slippage, s).equityCurve == a.equityCurve && Apply(a, slippage, s).stepReturns == a.stepReturns
  {
  }

  lemma {:induction false} CurveOneLonger(steps: seq<Step>, capital: real, slippage: real, k: nat)
    requires k <= |steps|
    ensures var a := Play(steps, capital, slippage, k); |a.equityCurve| == |a.stepReturns| + 1
  {
    hide Equity, FillPrice;
    if k == 0 {
    } else {
      CurveOneLonger(steps, capital, slippage, k - 1);
    }
  }

  // ----- the reported ratios

  /** Paired trades made money, but so little over the loss, or over nothing, that the factor does not show it. */
  predicate HiddenProfit(t: Tally) {
    t.grossProfit > t.grossLoss && t.grossProfit <= 1.005 * (if t.grossLoss > 0.0 then t.grossLoss else 1.0)
  }

  /**
   A profit factor above one is meant to say that the run made money. The published one does, for any
   trade log, except when profit exceeds loss by no more than the rounding hides, or when there is no
   loss at all: the code then reports the gross profit itself, which can be one or less.
   */
  lemma {:induction false} ProfitFactorAboveOne(a: Account, capital: real)
    requires a.equityCurve != []
    ensures var t := TallyPairs(a.trades, |a.trades| / 2);
      (MetricsOf(a, capital).profitFactor > 1.0 <==> t.grossProfit > t.grossLoss) <==> !HiddenProfit(t)
  {
    var t := TallyPairs(a.trades, |a.trades| / 2);
    TallyNonNegative(a.trades, |a.trades| / 2);
    hide TallyPairs;
    if a.trades == [] {
      NoPairs(a.trades);
    } else {
      assert MetricsOf(a, capital).profitFactor == Round2(ProfitFactor(t));
      hide MetricsOf, Round2;
      Round2AboveOne(ProfitFactor(t));
      FactorAbove(t, 1.005);
    }
  }

  lemma {:induction false} NoPairs(trades: seq<Trade>)
    ensures TallyPairs(trades, 0) == Tally(0, 0.0, 0.0)
  {
  }

  lemma {:induction false} Round2AboveOne(x: real)
    ensures Round2(x) > 1.0 <==> x > 1.005
  {
    var k := RoundHalfEven(x * 100.0);
    assert Round2(x) > 1.0 <==> k > 100;
  }

  lemma {:induction false} FactorAbove(t: Tally, bound: real)
    requires t.grossProfit >= 0.0 && t.grossLoss >= 0.0 && bound >= 1.0
    ensures ProfitFactor(t) > bound <==> t.grossProfit > bound * (if t.grossLoss > 0.0 then t.grossLoss else 1.0)
  {
    if t.grossLoss > 0.0 {
      QuotientAbove(t.grossProfit, t.grossLoss, bound);
    }
  }

  lemma {:induction false} QuotientAbove(x: real, d: real, bound: real)
    requires d > 0.0
    ensures x / d > bound <==> x > bound * d
  {
    var q := x / d;
    assert q * d == x;
    if q > bound {
      MulStrict(bound, q, d);
    } else {
      MulMonotone(q, bound, d);
    }
  }

  /** The loop can produce such a run: one lot bought at 10 and sold at 11 earns 0.1, and the factor reported is 0.1. */
  lemma {:induction false} ProfitCanBeHidden(capital: real)
    ensures var candles := [Bar(0, 9.0, 10.0, 9.0, 10.0), Bar(1, 12.0, 12.0, 11.0, 11.0)];
      var a := Replay(candles, capital, 0.0, 2);
      a.cash == capital + 0.1 && MetricsOf(a, capital).profitFactor == 0.1 && HiddenProfit(TallyPairs(a.trades, 1))
  {
    var candles := [Bar(0, 9.0, 10.0, 9.0, 10.0), Bar(1, 12.0, 12.0, 11.0, 11.0)];
    var buy, sell := Trade(0, Buy, 0.1, 10.0, 1.0), Trade(1, Sell, 0.1, 11.0, 1.1);
    var a := Replay(candles, capital, 0.0, 2);
    assert a.trades == [buy, sell] && a.cash == capital + 0.1 by {
      assert Replay(candles, capital, 0.0, 0) == Opening(capital);
      var b := Replay(candles, capital, 0.0, 1);
      assert b.trades == [buy] && b.position == 0.1 && b.cash == capital - 1.0;
    }
    hide Replay;
    OneWinningPair(a.trades);
    RoundHalfEvenUnique(10.0, 10);
  }

  lemma {:induction false} OneWinningPair(trades: seq<Trade>)
    requires trades == [Trade(0, Buy, 0.1, 10.0, 1.0), Trade(1, Sell, 0.1, 11.0, 1.1)]
    ensures TallyPairs(trades, 1) == Tally(1, 0.1, 0.0)
  {
    NoPairs(trades);
    TallyStep(trades, 0);
  }

  /** The win rate of any trade log is a percentage. */
  lemma {:induction false} WinRateIsPercentage(a: Account, capital: real)
    requires a.equityCurve != []
    ensures 0.0 <= MetricsOf(a, capital).winRate <= 100.0
  {
    var n := |a.trades|;
    TallyNonNegative(a.trades, n / 2);
    RoundHalfEvenUnique(0.0, 0);
    if n >= 2 {
      Percentage(TallyPairs(a.trades, n / 2).wins, n / 2);
    }
  }

  lemma {:induction false} Percentage(part: nat, whole: nat)
    requires part <= whole && whole >= 1
    ensures 0.0 <= Round2(part as real / whole as real * 100.0) <= 100.0
  {
    var share := part as real / whole as real;
    assert share * whole as real == part as real;
    if share > 1.0 {
      MulStrict(1.0, share, whole as real);
    } else if share < 0.0 {
      MulStrict(share, 0.0, whole as real);
    }
    var y := share * 100.0 * 100.0;
    assert 0.0 <= y <= 10000.0;
    var k := RoundHalfEven(y);
    assert 0 <= k <= 10000;
  }

  /** The wins are the pairs with a positive profit, and there is gross profit exactly when there is such a pair. */
  lemma {:induction false} WinsAreProfitablePairs(trades: seq<Trade>, k: nat)
    requires 2 * k <= |trades|
    ensures TallyPairs(trades, k).wins == |WinningPairs(trades, k)|
    ensures TallyPairs(trades, k).grossProfit > 0.0 <==> WinningPairs(trades, k) != {}
  {
    if k == 0 {
      assert WinningPairs(trades, 0) == {};
    } else {
      WinsAreProfitablePairs(trades, k - 1);
      TallyNonNegative(trades, k - 1);
      hide TallyPairs, PairPnl;
      assert WinningPairs(trades, k) ==
        WinningPairs(trades, k - 1) + if PairPnl(trades, k - 1) > 0.0 then {k - 1} else {};
      TallyStep(trades, k - 1);
    }
  }

  /** The published win rate is 100 times the share of the profitable pairs among all pairs. */
  lemma {:induction false} PublishedWinRate(a: Account, capital: real)
    requires a.equityCurve != []
    ensures var m, pairs := MetricsOf(a, capital), |a.trades| / 2;
      if pairs == 0 then m.winRate == 0.0
      else Abs(m.winRate - 100.0 * (|WinningPairs(a.trades, pairs)| as real / pairs as real)) <= 0.005
  {
    hide Round2, TallyPairs, WinningPairs, ProfitFactor;
    var pairs := |a.trades| / 2;
    WinsAreProfitablePairs(a.trades, pairs);
    if pairs == 0 {
      RoundedZero();
    } else {
      Round2Close(TallyPairs(a.trades, pairs).wins as real / pairs as real * 100.0);
    }
  }

  lemma {:induction false} RoundedZero()
    ensures Round2(0.0) == 0.0
  {
    RoundHalfEvenUnique(0.0, 0);
  }

  /** Gross profit is the sum of the profits, gross loss the sum of the losses. */
  lemma {:induction false} TallySums(trades: seq<Trade>, k: nat)
    requires 2 * k <= |trades|
    ensures TallyPairs(trades, k).grossProfit == Sum(seq(k, j requires 0 <= j < k => Max(0.0, PairPnl(trades, j))))
    ensures TallyPairs(trades, k).grossLoss == Sum(seq(k, j requires 0 <= j < k => Max(0.0, -PairPnl(trades, j))))
  {
    hide PairPnl, TallyPairs;
    var profits := seq(k, j requires 0 <= j < k => Max(0.0, PairPnl(trades, j)));
    var losses := seq(k, j requires 0 <= j < k => Max(0.0, -PairPnl(trades, j)));
    if k == 0 {
      NoPairs(trades);
      SumOfNone(profits);
      SumOfNone(losses);
    } else {
      TallySums(trades, k - 1);
      TallyStep(trades, k - 1);
      SumSplit(profits);
      SumSplit(losses);
      assert profits[..k - 1] == seq(k - 1, j requires 0 <= j < k - 1 => Max(0.0, PairPnl(trades, j)));
      assert losses[..k - 1] == seq(k - 1, j requires 0 <= j < k - 1 => Max(0.0, -PairPnl(trades, j)));
      hide Sum;
    }
  }

  /**
   The other published figures: the number of trades, the last equity, and the profit factor, which is profit
   over loss, the profit itself without a loss, and one without either.
   */
  lemma {:induction false} PublishedFigures(a: Account, capital: real)
    requires a.equityCurve != [] && a.trades != []
    ensures var m, t := MetricsOf(a, capital), TallyPairs(a.trades, |a.trades| / 2);
      && m.totalTrades == |a.trades|
      && m.finalCapital.Some? && Abs(m.finalCapital.value - a.equityCurve[|a.equityCurve| - 1]) <= 0.005
      && (t.grossLoss > 0.0 ==> Abs(m.profitFactor - t.grossProfit / t.grossLoss) <= 0.005)
      && (t.grossLoss == 0.0 && t.grossProfit > 0.0 ==> Abs(m.profitFactor - t.grossProfit) <= 0.005)
      && (t.grossLoss == 0.0 == t.grossProfit ==> m.profitFactor == 1.0)
  {
    hide Round2, TallyPairs, MaxDrawdown;
    var t := TallyPairs(a.trades, |a.trades| / 2);
    Round2Close(a.equityCurve[|a.equityCurve| - 1]);
    Round2Close(ProfitFactor(t));
    RoundedOne();
  }

  /** The published Sharpe ratio, to four decimals: mean over deviation times the root of 252. */
  lemma {:induction false} PublishedSharpe(a: Account, deviation: real, annual: real)
    requires a.trades != [] && a.stepReturns != []
    ensures if deviation > 0.0
      then Abs(SharpeOf(a, deviation, annual) - Mean(a.stepReturns) / deviation * annual) <= 0.00005
      else SharpeOf(a, deviation, annual) == 0.0
  {
    hide Round4, Mean;
    Round4Close(SharpeRatio(a.stepReturns, deviation, annual));
    RoundedZero4();
  }

  lemma {:induction false} RoundedZero4()
    ensures Round4(0.0) == 0.0
  {
    RoundHalfEvenUnique(0.0, 0);
  }

  lemma {:induction false} RoundedOne()
    ensures Round2(1.0) == 1.0
  {
    RoundHalfEvenUnique(100.0, 100);
  }

  function WinningPairs(trades: seq<Trade>, k: nat): set<nat>
    requires 2 * k <= |trades|
  {
    set j: nat | j < k && PairPnl(trades, j) > 0.0
  }

  lemma {:induction false} TallyStep(trades: seq<Trade>, k: nat)
    requires 2 * k + 2 <= |trades|
    ensures TallyPairs(trades, k + 1) == Book(TallyPairs(trades, k), PairPnl(trades, k))
  {
  }
}
