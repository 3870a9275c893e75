/** The two built-in rule-based strategies: pure decisions on a market snapshot. */
module Strategy {
  import opened Numbers

  datatype Signal = NoSignal | Buy | Sell

  /** The live snapshot of one symbol; any field can be missing. */
  datatype Snapshot = Snapshot(
    last: Option<real>, rsi: Option<real>, vwap: Option<real>, ema9: Option<real>, ema21: Option<real>,
    bollingerUpper: Option<real>, bollingerLower: Option<real>)

  datatype Context = Context(lastPrice: real, snapshot: Snapshot, position: real, capital: real)

  datatype Decision = Decision(signal: Signal, quantity: real)

  const HOLD := Decision(NoSignal, 0.0)

  datatype Rule = Momentum(rsiBuyThreshold: real, rsiSellThreshold: real) | MeanReversion

  /** Two percent of the capital, in units of the asset, rounded to four decimals. */
  function LotSize(capital: real, price: real): real
    requires price != 0.0
  {
    Round4(capital * 0.02 / price)
  }

  function DecideMomentum(c: Context, buyThreshold: real, sellThreshold: real): Decision
    requires c.lastPrice != 0.0
  {
    if c.snapshot.rsi.None? || c.snapshot.vwap.None? then HOLD
    else
      var rsi, vwap := c.snapshot.rsi.value, c.snapshot.vwap.value;
      var hasPosition := c.position > 0.0;
      var qty := LotSize(c.capital, c.lastPrice);
      if !hasPosition && rsi < buyThreshold && c.lastPrice > vwap then Decision(Buy, qty)
      else if hasPosition && rsi > sellThreshold then Decision(Sell, c.position)
      else HOLD
  }

  /** Python's `vwap or ema_21`, used as a condition: a missing or zero value does not count. */
  function Midline(s: Snapshot): Option<real> {
    if s.vwap.Some? && s.vwap.value != 0.0 then s.vwap
    else if s.ema21.Some? && s.ema21.value != 0.0 then s.ema21
    else None
  }

  function DecideMeanReversion(c: Context): Decision
    requires c.lastPrice != 0.0
  {
    if c.snapshot.bollingerLower.None? || c.snapshot.bollingerUpper.None? then HOLD
    else
      var hasPosition := c.position > 0.0;
      var qty := LotSize(c.capital, c.lastPrice);
      var mid := Midline(c.snapshot);
      if !hasPosition && c.lastPrice <= c.snapshot.bollingerLower.value then Decision(Buy, qty)
      else if hasPosition && mid.Some? && c.lastPrice >= mid.value then Decision(Sell, c.position)
      else HOLD
  }

  function Decide(rule: Rule, c: Context): Decision
    requires c.lastPrice != 0.0
  {
    match rule
    case Momentum(buyThreshold, sellThreshold) => DecideMomentum(c, buyThreshold, sellThreshold)
    case MeanReversion => DecideMeanReversion(c)
  }

  /**
   What every built-in rule promises, whatever the snapshot: it buys only when flat and then one
   lot, it sells only when long and then the whole position, otherwise it asks for nothing.
   */
  lemma {:induction false} DecisionShape(rule: Rule, c: Context)
    requires c.lastPrice != 0.0
    ensures match Decide(rule, c).signal
      case Buy => c.position <= 0.0 && Decide(rule, c).quantity == LotSize(c.capital, c.lastPrice)
      case Sell => c.position > 0.0 && Decide(rule, c).quantity == c.position
      case NoSignal => Decide(rule, c).quantity == 0.0
  {
  }

  /**
   A lot that does not round to zero costs strictly less than four percent of the capital,
   because rounding half to even less than doubles the exact two-percent quantity.
   */
  lemma {:induction false} LotCostsLessThanFourPercent(capital: real, price: real)
    requires price > 0.0 && LotSize(capital, price) > 0.0
    ensures capital > 0.0
    ensures 0.0 < LotSize(capital, price) * price < 0.04 * capital
  {
    var stake := capital * 0.02;
    var exact := stake / price;
    Round4LessThanDoubles(exact);
    hide Round4;
    DivTimes(stake, price);
    LotCost(LotSize(capital, price), exact, price, stake);
  }

  lemma {:induction false} LotCost(lot: real, exact: real, price: real, stake: real)
    requires 0.0 < lot < 2.0 * exact && price > 0.0 && exact * price == stake
    ensures 0.0 < lot * price < 2.0 * stake
  {
    MulStrict(lot, 2.0 * exact, price);
    MulStrict(0.0, lot, price);
    Associate(2.0, exact, price, stake);
  }

  /**
   The four percent bound is tight: a lot can cost 0.04 / (1 + e) of the capital for every e in (0, 2),
   because a quantity just above half a unit in the fourth decimal rounds up to a whole one.
   */
  lemma {:induction false} FourPercentIsTight(e: real, price: real) returns (capital: real)
    requires 0.0 < e < 2.0 && price > 0.0
    ensures capital > 0.0
    ensures LotSize(capital, price) * price * (1.0 + e) == 0.04 * capital
  {
    var exact := 0.00005 * (1.0 + e);
    capital := exact * price / 0.02;
    MulStrict(0.0, exact, price);
    assert capital * 0.02 == exact * price;
    QuotientIs(capital * 0.02, price, exact);
    RoundHalfEvenUnique(exact * 10000.0, 1);
    assert LotSize(capital, price) == 0.0001;
  }

  /** A cheaper asset is bought in no smaller quantity. */
  lemma {:induction false} LotGrowsAsPriceFalls(capital: real, high: real, low: real)
    requires capital >= 0.0 && 0.0 < low <= high
    ensures LotSize(capital, high) <= LotSize(capital, low)
  {
    var stake := capital * 0.02;
    var u, v := stake / high, stake / low;
    DivTimes(stake, high);
    DivTimes(stake, low);
    DivMonotone(0.0, stake, high);
    QuotientIs(0.0, high, 0.0);
    MulMonotone(low, high, u);
    if v < u {
      MulStrict(v, u, low);
    }
    hide Round4;
    Round4Monotone(u, v);
  }

  /**
   Mean reversion is monotone in price: a lower one never cancels a buy, which then is of no smaller
   quantity, and a higher one never cancels a sell. Momentum is monotone in RSI in the same way.
   */
  lemma {:induction false} DecisionsMonotone(
    c: Context, price: real, rsi: real, buyThreshold: real, sellThreshold: real)
    requires c.lastPrice > 0.0 && price > 0.0 && c.capital >= 0.0
    ensures var d, e := DecideMeanReversion(c), DecideMeanReversion(c.(lastPrice := price));
      && (d.signal == Buy && price <= c.lastPrice ==> e.signal == Buy && e.quantity >= d.quantity)
      && (d.signal == Sell && price >= c.lastPrice ==> e == d)
    ensures c.snapshot.rsi.Some? ==>
      var d := DecideMomentum(c, buyThreshold, sellThreshold);
      var e := DecideMomentum(c.(snapshot := c.snapshot.(rsi := Some(rsi))), buyThreshold, sellThreshold);
      && (d.signal == Buy && rsi <= c.snapshot.rsi.value ==> e == d)
      && (d.signal == Sell && rsi >= c.snapshot.rsi.value ==> e == d)
  {
    hide LotSize;
    if price <= c.lastPrice {
      LotGrowsAsPriceFalls(c.capital, c.lastPrice, price);
    }
  }

  // ----- when a rule trades

  /** The conditions of an entry, on the snapshot alone. */
  predicate EntryDue(rule: Rule, price: real, s: Snapshot) {
    match rule
    case Momentum(buyThreshold, _) =>
      s.rsi.Some? && s.rsi.value < buyThreshold && s.vwap.Some? && price > s.vwap.value
    case MeanReversion =>
      s.bollingerUpper.Some? && s.bollingerLower.Some? && price <= s.bollingerLower.value
  }

  /** The conditions of an exit; mean reversion leaves at VWAP, or at EMA 21 where VWAP is missing or zero. */
  predicate ExitDue(rule: Rule, price: real, s: Snapshot) {
    match rule
    case Momentum(_, sellThreshold) =>
      s.vwap.Some? && s.rsi.Some? && s.rsi.value > sellThreshold
    case MeanReversion =>
      && s.bollingerUpper.Some? && s.bollingerLower.Some?
      && if s.vwap.Some? && s.vwap.value != 0.0 then price >= s.vwap.value
         else s.ema21.Some? && s.ema21.value != 0.0 && price >= s.ema21.value
  }

  /** A rule buys exactly when it is flat and an entry is due, and sells exactly when it is long and an exit is due. */
  lemma {:induction false} DecisionIff(rule: Rule, c: Context)
    requires c.lastPrice != 0.0
    ensures Decide(rule, c).signal == Buy <==> c.position <= 0.0 && EntryDue(rule, c.lastPrice, c.snapshot)
    ensures Decide(rule, c).signal == Sell <==> c.position > 0.0 && ExitDue(rule, c.lastPrice, c.snapshot)
  {
    hide LotSize;
  }

  /** A lot is worth two percent of the capital, give or take half a unit in the fourth decimal. */
  lemma {:induction false} LotIsTwoPercent(capital: real, price: real)
    requires price > 0.0
    ensures Abs(LotSize(capital, price) * price - 0.02 * capital) <= 0.00005 * price
  {
    hide Round4;
    var stake := capital * 0.02;
    var exact, lot := stake / price, LotSize(capital, price);
    Round4Close(exact);
    DivTimes(stake, price);
    TickValue(exact, lot, price, stake);
  }

  // ----- the exit the momentum strategy announces

  predicate Overbought(c: Context, sellThreshold: real) {
    c.snapshot.rsi.Some? && c.snapshot.rsi.value > sellThreshold
  }

  predicate BelowEma9(c: Context) {
    c.snapshot.ema9.Some? && c.lastPrice < c.snapshot.ema9.value
  }

  /**
   The strategy's description has two exits, overbought or below EMA 9; the code has only the first, and
   takes it only with a VWAP. A long position is treated as described exactly when it is overbought with
   a VWAP, or neither exit is due.
   */
  lemma {:induction false} AnnouncedExitIff(c: Context, buyThreshold: real, sellThreshold: real)
    requires c.lastPrice != 0.0 && c.position > 0.0
    ensures var sold := DecideMomentum(c, buyThreshold, sellThreshold).signal == Sell;
      var announced := Overbought(c, sellThreshold) || BelowEma9(c);
      sold == announced <==> if Overbought(c, sellThreshold) then c.snapshot.vwap.Some? else !BelowEma9(c)
  {
    hide LotSize;
  }

  /** At the default thresholds a position at 90, under an EMA 9 of 100, is held while RSI is 50. */
  lemma {:induction false} AnnouncedExitCanFail()
    ensures var s := Snapshot(Some(90.0), Some(50.0), Some(95.0), Some(100.0), None, None, None);
      var c := Context(90.0, s, 1.0, 10000.0);
      BelowEma9(c) && DecideMomentum(c, 35.0, 65.0) == HOLD
  {
    hide LotSize;
  }
}
