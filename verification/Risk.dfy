/** The pre-trade risk gate and the position sizers. */
module Risk {
  import opened Numbers

  datatype RiskState = RiskState(
    currentCapital: real, initialCapital: real, positionSize: real, entryPrice: real, currentPrice: real,
    maxDrawdownPct: real, maxPositionPct: real, maxLossPerTradePct: real)

  datatype Reason = DrawdownHalt | PositionLimit | TradeLossLimit | Passed

  datatype RiskCheck = RiskCheck(
    allowed: bool, reason: Reason, suggestedQuantity: real, drawdownPct: real, exposurePct: real)

  /** Python raises ZeroDivisionError where the arithmetic divides by zero. */
  datatype Outcome<+T> = DivisionByZero | Done(value: T)

  function DrawdownPct(s: RiskState): real {
    if s.initialCapital == 0.0 then 0.0
    else Max(0.0, (s.initialCapital - s.currentCapital) / s.initialCapital * 100.0)
  }

  function ExposurePct(s: RiskState, position: real): real
    requires s.initialCapital != 0.0
  {
    position * s.currentPrice / s.initialCapital * 100.0
  }

  function MaxLossDollars(s: RiskState): real {
    s.initialCapital * (s.maxLossPerTradePct / 100.0)
  }

  /** The quantity worth `x` at a price, to four decimals. */
  function Sized(x: real, price: real): real
    requires price != 0.0
  {
    Round4(x / price)
  }

  function CheckTrade(s: RiskState, qty: real): Outcome<RiskCheck> {
    if s.initialCapital == 0.0 then DivisionByZero
    else
      var drawdown := DrawdownPct(s);
      var tradeValue := qty * s.currentPrice;
      var exposure := ExposurePct(s, s.positionSize);
      var proposed := ExposurePct(s, s.positionSize + qty);
      if drawdown >= s.maxDrawdownPct then Done(RiskCheck(false, DrawdownHalt, 0.0, drawdown, exposure))
      else if proposed > s.maxPositionPct then Done(RiskCheck(false, PositionLimit, 0.0, drawdown, exposure))
      else if tradeValue > MaxLossDollars(s) then
        if s.currentPrice == 0.0 then DivisionByZero
        else Done(RiskCheck(false, TradeLossLimit, Sized(MaxLossDollars(s), s.currentPrice), drawdown, exposure))
      else Done(RiskCheck(true, Passed, qty, drawdown, exposure))
  }

  predicate Allowed(s: RiskState, qty: real) {
    CheckTrade(s, qty).Done? && CheckTrade(s, qty).value.allowed
  }

  /** The states the gate is meant for. */
  ghost predicate Priced(s: RiskState) {
    s.initialCapital > 0.0 && s.currentPrice > 0.0
  }

  // ----- the gate

  predicate DrawdownWithin(s: RiskState) {
    s.initialCapital - s.currentCapital < s.maxDrawdownPct / 100.0 * s.initialCapital && s.maxDrawdownPct > 0.0
  }

  predicate ExposureWithin(s: RiskState, position: real) {
    position * s.currentPrice <= s.maxPositionPct / 100.0 * s.initialCapital
  }

  lemma {:induction false} DrawdownIff(s: RiskState)
    requires s.initialCapital > 0.0
    ensures DrawdownPct(s) < s.maxDrawdownPct <==> DrawdownWithin(s)
  {
    PercentIff(s.initialCapital - s.currentCapital, s.initialCapital, s.maxDrawdownPct);
  }

  lemma {:induction false} ExposureIff(s: RiskState, position: real)
    requires s.initialCapital > 0.0
    ensures ExposurePct(s, position) <= s.maxPositionPct <==> ExposureWithin(s, position)
  {
    PercentIff(position * s.currentPrice, s.initialCapital, s.maxPositionPct);
  }

  lemma {:induction false} PercentIff(x: real, whole: real, pct: real)
    requires whole > 0.0
    ensures x / whole * 100.0 < pct <==> x < pct / 100.0 * whole
    ensures x / whole * 100.0 <= pct <==> x <= pct / 100.0 * whole
  {
    var share, limit := x / whole, pct / 100.0;
    DivTimes(x, whole);
    if share < limit {
      MulStrict(share, limit, whole);
    } else if limit < share {
      MulStrict(limit, share, whole);
    }
  }

  /** The gate in dollars: drawdown below its limit, exposure and trade value within theirs. */
  lemma {:induction false} AllowedIff(s: RiskState, qty: real)
    requires Priced(s)
    ensures Allowed(s, qty) <==>
      && s.initialCapital - s.currentCapital < s.maxDrawdownPct / 100.0 * s.initialCapital && s.maxDrawdownPct > 0.0
      && (s.positionSize + qty) * s.currentPrice <= s.maxPositionPct / 100.0 * s.initialCapital
      && qty * s.currentPrice <= MaxLossDollars(s)
  {
    hide DrawdownPct, ExposurePct, MaxLossDollars, Sized;
    DrawdownIff(s);
    ExposureIff(s, s.positionSize + qty);
  }

  /** What a trade-loss refusal says about the other two limits. */
  lemma {:induction false} RefusedForLoss(s: RiskState, qty: real)
    requires Priced(s) && CheckTrade(s, qty).value.reason == TradeLossLimit
    ensures DrawdownWithin(s) && ExposureWithin(s, s.positionSize + qty)
    ensures qty * s.currentPrice > MaxLossDollars(s)
    ensures CheckTrade(s, qty).value.suggestedQuantity == Sized(MaxLossDollars(s), s.currentPrice)
  {
    hide DrawdownPct, ExposurePct, MaxLossDollars, Sized, DrawdownWithin, ExposureWithin;
    DrawdownIff(s);
    ExposureIff(s, s.positionSize + qty);
  }

  /** The reason names the first limit that is exceeded, in the order drawdown, exposure, trade value. */
  lemma {:induction false} ReasonExact(s: RiskState, qty: real)
    requires Priced(s)
    ensures var drawdownOk := s.initialCapital - s.currentCapital < s.maxDrawdownPct / 100.0 * s.initialCapital
        && s.maxDrawdownPct > 0.0;
      var exposureOk := (s.positionSize + qty) * s.currentPrice <= s.maxPositionPct / 100.0 * s.initialCapital;
      CheckTrade(s, qty).Done? && CheckTrade(s, qty).value.reason ==
        if !drawdownOk then DrawdownHalt
        else if !exposureOk then PositionLimit
        else if qty * s.currentPrice > MaxLossDollars(s) then TradeLossLimit
        else Passed
  {
    hide DrawdownPct, ExposurePct, MaxLossDollars, Sized;
    DrawdownIff(s);
    ExposureIff(s, s.positionSize + qty);
  }

  /** The reported percentages are those of the account as it stands, against the initial capital. */
  lemma {:induction false} ReportedPercentages(s: RiskState, qty: real)
    requires Priced(s)
    ensures var r := CheckTrade(s, qty).value;
      && r.exposurePct * s.initialCapital == 100.0 * (s.positionSize * s.currentPrice)
      && r.drawdownPct * s.initialCapital == 100.0 * Max(0.0, s.initialCapital - s.currentCapital)
      && r.suggestedQuantity == (match r.reason
           case Passed => qty
           case TradeLossLimit => Sized(MaxLossDollars(s), s.currentPrice)
           case _ => 0.0)
  {
    hide MaxLossDollars, Sized;
    ExposureTimesCapital(s, s.positionSize);
    DrawdownTimesCapital(s);
    hide DrawdownPct, ExposurePct;
  }

  lemma {:induction false} ExposureTimesCapital(s: RiskState, position: real)
    requires s.initialCapital > 0.0
    ensures ExposurePct(s, position) * s.initialCapital == 100.0 * (position * s.currentPrice)
  {
    PercentTimesWhole(position * s.currentPrice, s.initialCapital);
  }

  lemma {:induction false} DrawdownTimesCapital(s: RiskState)
    requires s.initialCapital > 0.0
    ensures DrawdownPct(s) * s.initialCapital == 100.0 * Max(0.0, s.initialCapital - s.currentCapital)
  {
    var loss, whole := s.initialCapital - s.currentCapital, s.initialCapital;
    PercentTimesWhole(loss, whole);
    var pct := loss / whole * 100.0;
    if pct < 0.0 {
      MulStrict(pct, 0.0, whole);
    } else {
      MulMonotone(0.0, pct, whole);
    }
  }

  lemma {:induction false} PercentTimesWhole(x: real, whole: real)
    requires whole != 0.0
    ensures x / whole * 100.0 * whole == 100.0 * x
  {
    DivTimes(x, whole);
  }

  lemma {:induction false} SmallerExposure(s: RiskState, small: real, large: real)
    requires s.currentPrice > 0.0 && small <= large && ExposureWithin(s, s.positionSize + large)
    ensures ExposureWithin(s, s.positionSize + small)
  {
    MulMonotone(s.positionSize + small, s.positionSize + large, s.currentPrice);
  }

  /** Admissibility is downward closed: what is allowed stays allowed for any smaller quantity. */
  lemma {:induction false} DownwardClosed(s: RiskState, small: real, large: real)
    requires Priced(s) && small <= large && Allowed(s, large)
    ensures Allowed(s, small)
  {
    hide Allowed, MaxLossDollars;
    AllowedIff(s, large);
    AllowedIff(s, small);
    SmallerExposure(s, small, large);
    MulMonotone(small, large, s.currentPrice);
  }

  /**
   A third-guard rejection names a quantity that works: before rounding, the suggestion passes all
   guards on resubmission and uses the per-trade limit exactly.
   */
  lemma {:induction false} SuggestionPasses(s: RiskState, qty: real)
    requires Priced(s) && CheckTrade(s, qty).value.reason == TradeLossLimit
    ensures var exact := MaxLossDollars(s) / s.currentPrice;
      Allowed(s, exact) && exact < qty && exact * s.currentPrice == MaxLossDollars(s)
  {
    hide Allowed, MaxLossDollars, CheckTrade;
    var exact := MaxLossDollars(s) / s.currentPrice;
    RefusedForLoss(s, qty);
    DivTimes(MaxLossDollars(s), s.currentPrice);
    if qty <= exact {
      MulMonotone(qty, exact, s.currentPrice);
    }
    SmallerExposure(s, exact, qty);
    AllowedIff(s, exact);
  }

  /**
   The published suggestion is rounded: it exceeds the dollar limit by at most 0.00005 x price, and it
   passes on resubmission exactly when rounding did not go up: the limit over the price, in ticks of
   0.0001, is less than half a tick above a whole number, or exactly half a tick above an even one.
   */
  lemma {:induction false} RoundedSuggestion(s: RiskState, qty: real)
    requires Priced(s) && CheckTrade(s, qty).value.reason == TradeLossLimit
    ensures var exact, rounded := MaxLossDollars(s) / s.currentPrice, CheckTrade(s, qty).value.suggestedQuantity;
      && rounded * s.currentPrice <= MaxLossDollars(s) + 0.00005 * s.currentPrice
      && (Allowed(s, rounded) <==> rounded <= exact)
      && (Allowed(s, rounded) <==> RoundsDown(exact * 10000.0))
  {
    hide Allowed, Round4, RoundsDown, CheckTrade, MaxLossDollars;
    RefusedForLoss(s, qty);
    var exact := MaxLossDollars(s) / s.currentPrice;
    Round4Close(exact);
    Round4DownIff(exact);
    SuggestionPasses(s, qty);
    TickValue(exact, Round4(exact), s.currentPrice, MaxLossDollars(s));
    Resubmission(s, exact, Round4(exact));
  }

  lemma {:induction false} Resubmission(s: RiskState, exact: real, other: real)
    requires Priced(s) && Allowed(s, exact) && exact * s.currentPrice == MaxLossDollars(s)
    ensures Allowed(s, other) <==> other <= exact
  {
    if other <= exact {
      DownwardClosed(s, other, exact);
    } else {
      MulStrict(exact, other, s.currentPrice);
      AllowedIff(s, other);
    }
  }

  /**
   The rounding can go up: with $10000 and limits of 20% and 2%, at a price of 65000 the gate refuses a
   hundredth of a unit, suggests 0.0031 instead of 0.00307..., and refuses that too.
   */
  lemma {:induction false} RoundedSuggestionCanFail()
    ensures var s := RiskState(10000.0, 10000.0, 0.0, 0.0, 65000.0, 10.0, 20.0, 2.0);
      && CheckTrade(s, 0.01).value.reason == TradeLossLimit
      && CheckTrade(s, 0.01).value.suggestedQuantity == 0.0031
      && !Allowed(s, 0.0031)
  {
    RoundHalfEvenUnique(200.0 / 65000.0 * 10000.0, 31);
  }

  // ----- runs of the gate

  /** A request made when the account stands at `capital` and the market at `price`. */
  datatype Request = Request(qty: real, capital: real, price: real)

  /** The gate's limits stay fixed over a run; position grows by every allowed quantity. */
  function AtRequest(limits: RiskState, position: real, r: Request): RiskState {
    limits.(currentCapital := r.capital, positionSize := position, currentPrice := r.price)
  }

  function PositionAfter(limits: RiskState, requests: seq<Request>, k: nat): real
    requires k <= |requests|
  {
    if k == 0 then limits.positionSize
    else
      var position, r := PositionAfter(limits, requests, k - 1), requests[k - 1];
      if Allowed(AtRequest(limits, position, r), r.qty) then position + r.qty else position
  }

  predicate Granted(limits: RiskState, requests: seq<Request>, k: nat)
    requires k < |requests|
  {
    Allowed(AtRequest(limits, PositionAfter(limits, requests, k), requests[k]), requests[k].qty)
  }

  /** The price of the last allowed trade among the first `k` requests. */
  function LastGrantPrice(limits: RiskState, requests: seq<Request>, k: nat): Option<real>
    requires k <= |requests|
  {
    if k == 0 then None
    else if Granted(limits, requests, k - 1) then Some(requests[k - 1].price)
    else LastGrantPrice(limits, requests, k - 1)
  }

  /**
   At every point of every run the whole position is within the position limit: right after the last
   allowed trade and through any number of refusals since, at the price of that trade and, if the
   position is long, at every lower one.
   */
  lemma {:induction false} ExposureWithinLimit(limits: RiskState, requests: seq<Request>, k: nat, price: real)
    requires limits.initialCapital > 0.0 && k <= |requests| && LastGrantPrice(limits, requests, k).Some?
    requires var last, position := LastGrantPrice(limits, requests, k).value, PositionAfter(limits, requests, k);
      price == last || (price < last && position >= 0.0)
    ensures ExposurePct(limits.(currentPrice := price), PositionAfter(limits, requests, k)) <= limits.maxPositionPct
  {
    var last, position := LastGrantPrice(limits, requests, k).value, PositionAfter(limits, requests, k);
    hide ExposurePct;
    ExposureAtLastGrant(limits, requests, k);
    if price < last {
      FallingPriceKeepsLimit(limits, position, last, price);
    }
  }

  lemma {:induction false} ExposureAtLastGrant(limits: RiskState, requests: seq<Request>, k: nat)
    requires limits.initialCapital > 0.0 && k <= |requests| && LastGrantPrice(limits, requests, k).Some?
    ensures
      var last, position := LastGrantPrice(limits, requests, k).value, PositionAfter(limits, requests, k);
      ExposurePct(limits.(currentPrice := last), position) <= limits.maxPositionPct
  {
    hide Allowed, ExposurePct;
    if k == 0 {
    } else if Granted(limits, requests, k - 1) {
      GrantWithinLimit(limits, PositionAfter(limits, requests, k - 1), requests[k - 1]);
    } else {
      ExposureAtLastGrant(limits, requests, k - 1);
    }
  }

  lemma {:induction false} GrantWithinLimit(limits: RiskState, position: real, r: Request)
    requires limits.initialCapital > 0.0 && Allowed(AtRequest(limits, position, r), r.qty)
    ensures ExposurePct(limits.(currentPrice := r.price), position + r.qty) <= limits.maxPositionPct
  {
  }

  lemma {:induction false} FallingPriceKeepsLimit(limits: RiskState, position: real, high: real, low: real)
    requires limits.initialCapital > 0.0 && position >= 0.0 && low <= high
    requires ExposurePct(limits.(currentPrice := high), position) <= limits.maxPositionPct
    ensures ExposurePct(limits.(currentPrice := low), position) <= limits.maxPositionPct
  {
  }

  // ----- sizers

  const KELLY_CAP := 0.20

  function FullKelly(winRate: real, odds: real): real
    requires odds != 0.0
  {
    winRate - (1.0 - winRate) / odds
  }

  function Fractional(kelly: real, fraction: real): real {
    kelly * fraction
  }

  function SafeFraction(winRate: real, odds: real, fraction: real): real
    requires odds != 0.0
  {
    Max(0.0, Min(Fractional(FullKelly(winRate, odds), fraction), KELLY_CAP))
  }

  /** The dollars fractional Kelly would commit. */
  function KellyStake(winRate: real, odds: real, fraction: real, capital: real): real
    requires odds != 0.0
  {
    capital * SafeFraction(winRate, odds, fraction)
  }

  function KellySize(
    winRate: real, avgWin: real, avgLoss: real, capital: real, price: real, fraction: real): Outcome<real>
  {
    if avgLoss == 0.0 || price == 0.0 then Done(0.0)
    else if avgWin == 0.0 then DivisionByZero
    else Done(Sized(KellyStake(winRate, avgWin / avgLoss, fraction, capital), price))
  }

  function PercentOf(capital: real, pct: real): real {
    capital * pct / 100.0
  }

  function FixedFractionalSize(capital: real, price: real, riskPct: real): real {
    if price == 0.0 then 0.0 else Sized(PercentOf(capital, riskPct), price)
  }

  /** A rounded quantity `x / price` is worth `x`, give or take half a unit in the fourth decimal. */
  lemma {:induction false} SizedValue(x: real, price: real)
    requires price > 0.0
    ensures x - 0.00005 * price <= Round4(x / price) * price <= x + 0.00005 * price
  {
    hide Round4;
    Round4Close(x / price);
    DivTimes(x, price);
    TickValue(x / price, Round4(x / price), price, x);
  }

  /** So fixed-fractional sizing commits the given percentage of the capital with that accuracy. */
  lemma {:induction false} FixedFractionalValue(capital: real, price: real, riskPct: real)
    requires price > 0.0
    ensures var value, stake := FixedFractionalSize(capital, price, riskPct) * price, PercentOf(capital, riskPct);
      stake - 0.00005 * price <= value <= stake + 0.00005 * price
  {
    hide Round4, PercentOf;
    SizedValue(PercentOf(capital, riskPct), price);
  }

  /**
   Sizer and gate agree: what the gate suggests after a trade-loss refusal is the fixed-fractional size of
   its own limit on the initial capital. So a trader who sizes by that fraction of the initial capital is
   let through by an otherwise open gate exactly when rounding does not go up.
   */
  lemma {:induction false} SuggestionIsFixedFraction(s: RiskState, qty: real)
    requires Priced(s) && CheckTrade(s, qty).value.reason == TradeLossLimit
    ensures var size := FixedFractionalSize(s.initialCapital, s.currentPrice, s.maxLossPerTradePct);
      && CheckTrade(s, qty).value.suggestedQuantity == size
      && (Allowed(s, size) <==> RoundsDown(MaxLossDollars(s) / s.currentPrice * 10000.0))
      && Abs(size * s.currentPrice - MaxLossDollars(s)) <= 0.00005 * s.currentPrice
  {
    hide Sized, RoundsDown, Allowed, PercentOf, MaxLossDollars;
    RoundedSuggestion(s, qty);
    LimitIsPercentage(s);
    FixedFractionalValue(s.initialCapital, s.currentPrice, s.maxLossPerTradePct);
  }

  lemma {:induction false} LimitIsPercentage(s: RiskState)
    ensures MaxLossDollars(s) == PercentOf(s.initialCapital, s.maxLossPerTradePct)
  {
  }

  /**
   Kelly sizing on a positive account never shorts and never commits more than the 20% cap, up to
   rounding; with no edge (expected win not above expected loss) and a positive fraction it sizes zero.
   */
  lemma {:induction false} KellyBounds(
    winRate: real, avgWin: real, avgLoss: real, capital: real, price: real, fraction: real)
    requires capital > 0.0 && price > 0.0 && avgWin > 0.0 && avgLoss > 0.0 && fraction > 0.0
    ensures var size := KellySize(winRate, avgWin, avgLoss, capital, price, fraction);
      && size.Done? && size.value >= 0.0
      && size.value * price <= KELLY_CAP * capital + 0.00005 * price
      && (winRate * avgWin <= (1.0 - winRate) * avgLoss ==> size.value == 0.0)
  {
    hide KellyStake, SafeFraction, Round4;
    var odds := avgWin / avgLoss;
    DivTimes(avgWin, avgLoss);
    PositiveQuotient(avgWin, avgLoss);
    var stake := KellyStake(winRate, odds, fraction, capital);
    StakeBounds(winRate, odds, fraction, capital);
    SizedValue(stake, price);
    SizeOfStake(stake, price);
    if winRate * avgWin <= (1.0 - winRate) * avgLoss {
      NoEdge(winRate, avgWin, avgLoss, odds, fraction);
      NoStake(winRate, odds, fraction, capital);
    }
  }

  /**
   The exact stake: the Kelly fraction of the capital, (p W - q L) / W with win rate p, loss rate q, average win W
   and average loss L, times the given fraction; nothing when that is negative, the cap when it exceeds it.
   */
  lemma {:induction false} KellyExact(
    winRate: real, avgWin: real, avgLoss: real, capital: real, price: real, fraction: real)
    requires capital > 0.0 && price > 0.0 && avgWin > 0.0 && avgLoss > 0.0 && fraction > 0.0
    ensures var size := KellySize(winRate, avgWin, avgLoss, capital, price, fraction);
      var kelly := (winRate * avgWin - (1.0 - winRate) * avgLoss) / avgWin * fraction;
      var share := if kelly < 0.0 then 0.0 else if kelly > 0.2 then 0.2 else kelly;
      size.Done? && Abs(size.value * price - capital * share) <= 0.00005 * price
  {
    hide FullKelly, Round4, SafeFraction, KellyStake;
    var odds, full := avgWin / avgLoss, (winRate * avgWin - (1.0 - winRate) * avgLoss) / avgWin;
    var kelly := Fractional(full, fraction);
    var share := if kelly < 0.0 then 0.0 else if kelly > 0.2 then 0.2 else kelly;
    DivTimes(avgWin, avgLoss);
    PositiveQuotient(avgWin, avgLoss);
    KellyFraction(winRate, avgWin, avgLoss, odds);
    ShareIs(winRate, odds, fraction, full, kelly);
    StakeIs(winRate, odds, fraction, capital, share);
    SizedValue(KellyStake(winRate, odds, fraction, capital), price);
  }

  lemma {:induction false} ShareIs(winRate: real, odds: real, fraction: real, full: real, kelly: real)
    requires odds != 0.0 && FullKelly(winRate, odds) == full && kelly == Fractional(full, fraction)
    ensures SafeFraction(winRate, odds, fraction) ==
      if kelly < 0.0 then 0.0 else if kelly > 0.2 then 0.2 else kelly
  {
    hide FullKelly, Fractional;
  }

  lemma {:induction false} StakeIs(winRate: real, odds: real, fraction: real, capital: real, share: real)
    requires odds != 0.0 && SafeFraction(winRate, odds, fraction) == share
    ensures KellyStake(winRate, odds, fraction, capital) == capital * share
  {
    hide SafeFraction;
  }

  lemma {:induction false} KellyFraction(winRate: real, avgWin: real, avgLoss: real, odds: real)
    requires avgLoss > 0.0 && odds > 0.0 && avgWin > 0.0 && odds * avgLoss == avgWin
    ensures FullKelly(winRate, odds) == (winRate * avgWin - (1.0 - winRate) * avgLoss) / avgWin
  {
    var lossRate := 1.0 - winRate;
    var q := lossRate / odds;
    DivTimes(lossRate, odds);
    Associate(q, odds, avgLoss, avgWin);
    assert (winRate - q) * avgWin == winRate * avgWin - q * avgWin;
    QuotientIs(winRate * avgWin - lossRate * avgLoss, avgWin, winRate - q);
  }

  lemma {:induction false} PositiveQuotient(x: real, d: real)
    requires x > 0.0 && d > 0.0
    ensures x / d > 0.0
  {
  }

  lemma {:induction false} SizeOfStake(stake: real, price: real)
    requires stake >= 0.0 && price > 0.0
    ensures Round4(stake / price) >= 0.0
    ensures stake == 0.0 ==> Round4(stake / price) == 0.0
  {
    DivMonotone(0.0, stake, price);
    Round4NonNegative(stake / price);
    QuotientIs(0.0, price, 0.0);
    RoundHalfEvenUnique(0.0, 0);
  }

  lemma {:induction false} NoStake(winRate: real, odds: real, fraction: real, capital: real)
    requires odds != 0.0 && SafeFraction(winRate, odds, fraction) == 0.0
    ensures KellyStake(winRate, odds, fraction, capital) == 0.0
  {
  }

  lemma {:induction false} StakeBounds(winRate: real, odds: real, fraction: real, capital: real)
    requires odds != 0.0 && capital > 0.0
    ensures 0.0 <= KellyStake(winRate, odds, fraction, capital) <= KELLY_CAP * capital
  {
    var share := SafeFraction(winRate, odds, fraction);
    hide SafeFraction;
    ShareBounds(winRate, odds, fraction);
    MulMonotone(0.0, share, capital);
    MulMonotone(share, KELLY_CAP, capital);
  }

  lemma {:induction false} ShareBounds(winRate: real, odds: real, fraction: real)
    requires odds != 0.0
    ensures 0.0 <= SafeFraction(winRate, odds, fraction) <= KELLY_CAP
  {
  }

  lemma {:induction false} NoEdge(winRate: real, avgWin: real, avgLoss: real, odds: real, fraction: real)
    requires avgLoss > 0.0 && odds > 0.0 && odds * avgLoss == avgWin && fraction > 0.0
    requires winRate * avgWin <= (1.0 - winRate) * avgLoss
    ensures SafeFraction(winRate, odds, fraction) == 0.0
  {
    KellyWithoutEdge(winRate, avgLoss, odds, winRate * avgWin, (1.0 - winRate) * avgLoss) by {
      Associate(winRate, odds, avgLoss, avgWin);
    }
    hide FullKelly;
    MulMonotone(FullKelly(winRate, odds), 0.0, fraction);
  }

  lemma {:induction false} KellyWithoutEdge(winRate: real, avgLoss: real, odds: real, win: real, loss: real)
    requires avgLoss > 0.0 && odds > 0.0
    requires win == (winRate * odds) * avgLoss && loss == (1.0 - winRate) * avgLoss && win <= loss
    ensures FullKelly(winRate, odds) <= 0.0
  {
    var lossRate, share := 1.0 - winRate, (1.0 - winRate) / odds;
    DivTimes(lossRate, odds);
    if winRate > share {
      MulStrict(share, winRate, odds);
      MulStrict(lossRate, winRate * odds, avgLoss);
    }
  }
}
