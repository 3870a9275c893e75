/** The autonomous loop around a strategy: observe, decide, execute, log. */
module Runner {
  import opened Numbers
  import opened Strategy

  datatype CycleRecord = CycleRecord(
    cycle: int, lastPrice: real, signal: Signal, quantity: real, positionAfter: real, capitalAfter: real)

  /** What a cycle returns: without a live price only the current count. */
  datatype CycleResult = NoLivePrice(cycle: int) | Ran(entry: CycleRecord)

  datatype RunnerState = RunnerState(capital: real, position: real, cycleCount: int, tradeLog: seq<CycleRecord>)

  function Start(capital: real): RunnerState {
    RunnerState(capital, 0.0, 0, [])
  }

  /** `snap.get("last", 0.0)` */
  function LastPrice(s: Snapshot): real {
    if s.last.Some? then s.last.value else 0.0
  }

  function Worth(quantity: real, price: real): real {
    quantity * price
  }

  function Executed(before: RunnerState, d: Decision, price: real): RunnerState {
    if d.signal == Buy && d.quantity > 0.0 then
      before.(capital := before.capital - Worth(d.quantity, price), position := before.position + d.quantity)
    else if d.signal == Sell && d.quantity > 0.0 then
      before.(capital := before.capital + Worth(d.quantity, price), position := Max(0.0, before.position - d.quantity))
    else before
  }

  /** Execute a decision at a price, count the cycle and log it; `shown` is the capital the log displays. */
  function Record(before: RunnerState, d: Decision, price: real, shown: real): RunnerState {
    var traded := Executed(before, d, price);
    var count := before.cycleCount + 1;
    traded.(
      cycleCount := count,
      tradeLog := before.tradeLog + [CycleRecord(count, price, d.signal, d.quantity, traded.position, shown)])
  }

  /** One cycle; without a live price nothing happens and nothing is logged. */
  function Cycle(rule: Rule, before: RunnerState, s: Snapshot): RunnerState {
    var price := LastPrice(s);
    if price == 0.0 then before
    else
      var d := Decide(rule, Context(price, s, before.position, before.capital));
      Record(before, d, price, Round2(Executed(before, d, price).capital))
  }

  /** The state after the first `k` cycles. */
  function RunCycles(rule: Rule, capital: real, snaps: seq<Snapshot>, k: nat): RunnerState
    requires k <= |snaps|
  {
    if k == 0 then Start(capital) else Cycle(rule, RunCycles(rule, capital, snaps, k - 1), snaps[k - 1])
  }

  class StrategyRunner {
    const rule: Rule
    var capital: real
    var position: real
    var cycleCount: int
    var tradeLog: seq<CycleRecord>

    function State(): RunnerState
      reads this
    {
      RunnerState(capital, position, cycleCount, tradeLog)
    }

    constructor (rule: Rule, capital: real)
      ensures this.rule == rule && State() == Start(capital)
    {
      this.rule := rule;
      this.capital := capital;
      this.position := 0.0;
      this.cycleCount := 0;
      this.tradeLog := [];
    }

    /** Without a price the cycle returns early: nothing changes, and the result is not logged. */
    method RunOnce(snap: Snapshot) returns (result: CycleResult)
      modifies this
      ensures State() == Cycle(rule, old(State()), snap)
      ensures LastPrice(snap) == 0.0 ==> result == NoLivePrice(old(cycleCount))
      ensures LastPrice(snap) != 0.0 ==> result.Ran? && tradeLog == old(tradeLog) + [result.entry]
    {
      var lastPrice := if snap.last.Some? then snap.last.value else 0.0;
      if lastPrice == 0.0 {
        return NoLivePrice(cycleCount);
      }
      var decision := Decide(rule, Context(lastPrice, snap, position, capital));
      cycleCount := cycleCount + 1;
      var signal, qty := decision.signal, decision.quantity;
      if signal == Buy && qty > 0.0 {
        var cost := qty * lastPrice;
        capital := capital - cost;
        position := position + qty;
      } else if signal == Sell && qty > 0.0 {
        var proceeds := qty * lastPrice;
        capital := capital + proceeds;
        position := Max(0.0, position - qty);
      }
      assert RunnerState(capital, position, old(cycleCount), old(tradeLog)) ==
        Executed(old(State()), decision, lastPrice);
      var entry := CycleRecord(cycleCount, lastPrice, signal, qty, position, Round2(capital));
      tradeLog := tradeLog + [entry];
      return Ran(entry);
    }
  }

  // ----- the ledger of a run

  /** The executed trades of a log. */
  function Fills(log: seq<CycleRecord>): seq<CycleRecord> {
    if log == [] then []
    else
      var last := log[|log| - 1];
      Fills(log[..|log| - 1]) + if last.signal != NoSignal && last.quantity > 0.0 then [last] else []
  }

  /** Cash a trade brings in: what a sell earns, minus what a buy costs. */
  function Proceeds(r: CycleRecord): real {
    if r.signal == Buy then -Worth(r.quantity, r.lastPrice) else Worth(r.quantity, r.lastPrice)
  }

  /** Proceeds of the sells minus costs of the buys. */
  function NetProceeds(fills: seq<CycleRecord>): real {
    if fills == [] then 0.0
    else
      var last := fills[|fills| - 1];
      NetProceeds(fills[..|fills| - 1]) + Proceeds(last)
  }

  function BuyCount(fills: seq<CycleRecord>): nat {
    if fills == [] then 0
    else BuyCount(fills[..|fills| - 1]) + if fills[|fills| - 1].signal == Buy then 1 else 0
  }

  /** Each trade follows the ones before it: a buy when they leave nothing open, otherwise the sell that closes it. */
  ghost predicate RoundTrips(fills: seq<CycleRecord>) {
    fills == [] ||
    var last, before := fills[|fills| - 1], fills[..|fills| - 1];
    && RoundTrips(before)
    && last.quantity > 0.0
    && if |before| % 2 == 0 then last.signal == Buy
       else last.signal == Sell && last.quantity == before[|before| - 1].quantity && last.positionAfter == 0.0
  }

  /** Buys and sells strictly alternate, a buy first, and each sell closes exactly the buy before it. */
  lemma {:induction false} RoundTripsAlternate(fills: seq<CycleRecord>, j: nat)
    requires RoundTrips(fills) && j < |fills|
    ensures fills[j].quantity > 0.0 && fills[j].signal == if j % 2 == 0 then Buy else Sell
    ensures j % 2 == 1 ==> fills[j].quantity == fills[j - 1].quantity && fills[j].positionAfter == 0.0
  {
    if j < |fills| - 1 {
      RoundTripsAlternate(fills[..|fills| - 1], j);
    }
  }

  /** The position a list of round trips leaves open. */
  function OpenQuantity(fills: seq<CycleRecord>): real {
    if |fills| % 2 == 1 then fills[|fills| - 1].quantity else 0.0
  }

  ghost predicate NonNegativePrices(snaps: seq<Snapshot>) {
    forall i :: 0 <= i < |snaps| ==> LastPrice(snaps[i]) >= 0.0
  }

  /** Position and capital are what the executed trades make them. */
  ghost predicate Balanced(fills: seq<CycleRecord>, position: real, capital: real, initial: real) {
    && RoundTrips(fills)
    && position == OpenQuantity(fills)
    && capital == initial + NetProceeds(fills)
  }

  ghost predicate LedgerHolds(s: RunnerState, initial: real) {
    && Balanced(Fills(s.tradeLog), s.position, s.capital, initial)
    && s.cycleCount == |s.tradeLog|
  }

  lemma {:induction false} FillsAppend(log: seq<CycleRecord>, r: CycleRecord)
    ensures Fills(log + [r]) == if r.signal != NoSignal && r.quantity > 0.0 then Fills(log) + [r] else Fills(log)
  {
  }

  lemma {:induction false} NetProceedsAppend(fills: seq<CycleRecord>, r: CycleRecord)
    ensures NetProceeds(fills + [r]) == NetProceeds(fills) + Proceeds(r)
    ensures BuyCount(fills + [r]) == BuyCount(fills) + if r.signal == Buy then 1 else 0
  {
  }

  /** What a rule may ask for in a given state. */
  ghost predicate Sound(before: RunnerState, d: Decision) {
    match d.signal
    case Buy => before.position <= 0.0
    case Sell => before.position > 0.0 && d.quantity == before.position
    case NoSignal => d.quantity == 0.0
  }

  lemma {:induction false} RulesAreSound(rule: Rule, before: RunnerState, s: Snapshot)
    requires LastPrice(s) != 0.0
    ensures Sound(before, Decide(rule, Context(LastPrice(s), s, before.position, before.capital)))
  {
  }

  lemma {:induction false} BuyKeepsBalance(
    fills: seq<CycleRecord>, position: real, capital: real, initial: real, r: CycleRecord)
    requires Balanced(fills, position, capital, initial) && position <= 0.0
    requires r.signal == Buy && r.quantity > 0.0
    ensures Balanced(fills + [r], position + r.quantity, capital - Worth(r.quantity, r.lastPrice), initial)
  {
    hide Worth;
    NetProceedsAppend(fills, r);
  }

  lemma {:induction false} SellKeepsBalance(
    fills: seq<CycleRecord>, position: real, capital: real, initial: real, r: CycleRecord)
    requires Balanced(fills, position, capital, initial) && position > 0.0
    requires r.signal == Sell && r.quantity == position && r.positionAfter == 0.0
    ensures Balanced(fills + [r], 0.0, capital + Worth(r.quantity, r.lastPrice), initial)
  {
    hide Worth;
    NetProceedsAppend(fills, r);
  }

  /** The executed trades after a cycle. */
  lemma {:induction false} RecordFills(before: RunnerState, d: Decision, price: real, shown: real)
    returns (r: CycleRecord)
    ensures r.signal == d.signal && r.quantity == d.quantity && r.lastPrice == price
    ensures r.positionAfter == Executed(before, d, price).position
    ensures Fills(Record(before, d, price, shown).tradeLog) ==
      if d.signal != NoSignal && d.quantity > 0.0 then Fills(before.tradeLog) + [r] else Fills(before.tradeLog)
  {
    r := Record(before, d, price, shown).tradeLog[|before.tradeLog|];
    FillsAppend(before.tradeLog, r);
  }

  lemma {:induction false} RecordKeepsLedger(before: RunnerState, d: Decision, price: real, shown: real, initial: real)
    requires LedgerHolds(before, initial) && Sound(before, d)
    ensures LedgerHolds(Record(before, d, price, shown), initial)
  {
    var r := RecordFills(before, d, price, shown);
    ExecutionKeepsBalance(Fills(before.tradeLog), before, d, price, r, initial);
  }

  lemma {:induction false} ExecutionKeepsBalance(
    fills: seq<CycleRecord>, before: RunnerState, d: Decision, price: real, r: CycleRecord, initial: real)
    requires Balanced(fills, before.position, before.capital, initial) && Sound(before, d)
    requires r.signal == d.signal && r.quantity == d.quantity && r.lastPrice == price
    requires r.positionAfter == Executed(before, d, price).position
    ensures var after := Executed(before, d, price);
      var fills' := if d.signal != NoSignal && d.quantity > 0.0 then fills + [r] else fills;
      Balanced(fills', after.position, after.capital, initial)
  {
    hide Balanced, Worth;
    if d.signal == Buy && d.quantity > 0.0 {
      BuyKeepsBalance(fills, before.position, before.capital, initial, r);
    } else if d.signal == Sell {
      SellKeepsBalance(fills, before.position, before.capital, initial, r);
    }
  }

  lemma {:induction false} CycleKeepsLedger(rule: Rule, before: RunnerState, s: Snapshot, initial: real)
    requires LedgerHolds(before, initial)
    ensures LedgerHolds(Cycle(rule, before, s), initial)
  {
    var price := LastPrice(s);
    if price != 0.0 {
      RulesAreSound(rule, before, s);
      var d := Decide(rule, Context(price, s, before.position, before.capital));
      RecordKeepsLedger(before, d, price, Round2(Executed(before, d, price).capital), initial);
    }
  }

  /**
   Runner ledger: over any run of a built-in rule, executed buys and sells alternate, each sell
   closes exactly the preceding buy's quantity, capital is the initial capital minus costs plus
   proceeds, and every counted cycle is in the log.
   */
  lemma {:induction false} RunnerLedger(rule: Rule, capital: real, snaps: seq<Snapshot>, k: nat)
    requires k <= |snaps|
    ensures LedgerHolds(RunCycles(rule, capital, snaps, k), capital)
  {
    hide LedgerHolds, Cycle;
    if k == 0 {
      LedgerStarts(capital);
    } else {
      RunnerLedger(rule, capital, snaps, k - 1);
      CycleKeepsLedger(rule, RunCycles(rule, capital, snaps, k - 1), snaps[k - 1], capital);
    }
  }

  lemma {:induction false} LedgerStarts(capital: real)
    ensures LedgerHolds(Start(capital), capital)
  {
  }

  /** The log numbers its cycles 1, 2, 3, ... */
  lemma {:induction false} CyclesNumbered(rule: Rule, capital: real, snaps: seq<Snapshot>, k: nat, j: nat)
    requires k <= |snaps| && j < |RunCycles(rule, capital, snaps, k).tradeLog|
    ensures RunCycles(rule, capital, snaps, k).tradeLog[j].cycle == j + 1
  {
    if k == 0 {
    } else {
      RunnerLedger(rule, capital, snaps, k - 1);
      if j < |RunCycles(rule, capital, snaps, k - 1).tradeLog| {
        CyclesNumbered(rule, capital, snaps, k - 1, j);
      }
    }
  }

  /** The clamp `max(0, position - qty)` never changes the result of a sell. */
  lemma {:induction false} ClampIsIdle(rule: Rule, capital: real, snaps: seq<Snapshot>, k: nat)
    requires k < |snaps| && LastPrice(snaps[k]) != 0.0
    ensures var before := RunCycles(rule, capital, snaps, k);
      var d := Decide(rule, Context(LastPrice(snaps[k]), snaps[k], before.position, before.capital));
      d.signal == Sell ==> before.position - d.quantity == 0.0 == Executed(before, d, LastPrice(snaps[k])).position
  {
  }

  // ----- what makes a run trade

  /** Cycle `i` has a price, and an exit is due on a long position, or an entry on a flat one with a lot to buy. */
  predicate Trades(rule: Rule, capital: real, snaps: seq<Snapshot>, i: nat)
    requires i < |snaps|
  {
    var before, price := RunCycles(rule, capital, snaps, i), LastPrice(snaps[i]);
    && price != 0.0
    && if before.position > 0.0 then ExitDue(rule, price, snaps[i])
       else EntryDue(rule, price, snaps[i]) && LotSize(before.capital, price) > 0.0
  }

  /** The cycles that trade, in order. */
  function TradingCycles(rule: Rule, capital: real, snaps: seq<Snapshot>, k: nat): (at: seq<nat>)
    requires k <= |snaps|
    ensures forall j :: 0 <= j < |at| ==> at[j] < k
  {
    if k == 0 then []
    else TradingCycles(rule, capital, snaps, k - 1) + if Trades(rule, capital, snaps, k - 1) then [k - 1] else []
  }

  /** They are all the cycles that trade, each once. */
  lemma {:induction false} TradingCyclesExact(rule: Rule, capital: real, snaps: seq<Snapshot>, k: nat)
    requires k <= |snaps|
    ensures var at := TradingCycles(rule, capital, snaps, k);
      && (forall i, j :: 0 <= i < j < |at| ==> at[i] < at[j])
      && (forall i: nat :: i in at <==> i < k && Trades(rule, capital, snaps, i))
  {
    hide Trades;
    if k == 0 {
    } else {
      TradingCyclesExact(rule, capital, snaps, k - 1);
    }
  }

  /** The fill of a cycle: at its price, a whole position or one lot. */
  predicate FillOf(before: RunnerState, s: Snapshot, r: CycleRecord) {
    && r.lastPrice == LastPrice(s) != 0.0
    && if before.position > 0.0 then r.signal == Sell && r.quantity == before.position
       else r.signal == Buy && r.quantity == LotSize(before.capital, r.lastPrice)
  }

  lemma {:induction false} CycleFills(rule: Rule, capital: real, snaps: seq<Snapshot>, i: nat)
    requires i < |snaps|
    ensures var before, after := RunCycles(rule, capital, snaps, i), RunCycles(rule, capital, snaps, i + 1);
      if Trades(rule, capital, snaps, i) then
        |Fills(after.tradeLog)| == |Fills(before.tradeLog)| + 1
        && Fills(before.tradeLog) == Fills(after.tradeLog)[..|Fills(before.tradeLog)|]
        && FillOf(before, snaps[i], Fills(after.tradeLog)[|Fills(before.tradeLog)|])
      else Fills(after.tradeLog) == Fills(before.tradeLog)
  {
    hide Fills, EntryDue, ExitDue, LotSize, Decide, Round2, Record, Executed;
    var before, price := RunCycles(rule, capital, snaps, i), LastPrice(snaps[i]);
    if price != 0.0 {
      var c := Context(price, snaps[i], before.position, before.capital);
      var d := Decide(rule, c);
      DecisionIff(rule, c);
      DecisionShape(rule, c);
      var r := RecordFills(before, d, price, Round2(Executed(before, d, price).capital));
    }
  }

  /**
   Over any run, the fills are exactly the fills of the trading cycles: the j-th happens at the price of the
   j-th cycle whose snapshot calls for a trade, and no such cycle is passed over.
   */
  lemma {:induction false} FillsExact(rule: Rule, capital: real, snaps: seq<Snapshot>, k: nat)
    requires k <= |snaps|
    ensures var fills, at := Fills(RunCycles(rule, capital, snaps, k).tradeLog), TradingCycles(rule, capital, snaps, k);
      && |fills| == |at|
      && forall j :: 0 <= j < |fills| ==> FillOf(RunCycles(rule, capital, snaps, at[j]), snaps[at[j]], fills[j])
  {
    hide Fills, FillOf, RunCycles, Trades;
    if k == 0 {
      NothingFilled(rule, capital, snaps);
    } else {
      FillsExact(rule, capital, snaps, k - 1);
      CycleFills(rule, capital, snaps, k - 1);
    }
  }

  lemma {:induction false} NothingFilled(rule: Rule, capital: real, snaps: seq<Snapshot>)
    ensures Fills(RunCycles(rule, capital, snaps, 0).tradeLog) == []
  {
  }

  /** A buy on a due entry, worth two percent of the capital up to rounding, or a sell on a due exit. */
  predicate DueFill(rule: Rule, s: Snapshot, capital: real, r: CycleRecord) {
    && r.lastPrice == LastPrice(s)
    && match r.signal
       case Buy =>
         && EntryDue(rule, r.lastPrice, s)
         && (r.lastPrice > 0.0 ==> Abs(Worth(r.quantity, r.lastPrice) - 0.02 * capital) <= 0.00005 * r.lastPrice)
       case Sell => ExitDue(rule, r.lastPrice, s)
       case NoSignal => false
  }

  lemma {:induction false} TradeIsDue(rule: Rule, capital: real, snaps: seq<Snapshot>, i: nat, r: CycleRecord)
    requires i < |snaps| && Trades(rule, capital, snaps, i) && FillOf(RunCycles(rule, capital, snaps, i), snaps[i], r)
    ensures DueFill(rule, snaps[i], RunCycles(rule, capital, snaps, i).capital, r)
  {
    hide RunCycles, EntryDue, ExitDue, LotSize, Worth;
    if r.signal == Buy && r.lastPrice > 0.0 {
      LotWorth(RunCycles(rule, capital, snaps, i).capital, r.lastPrice);
    }
  }

  lemma {:induction false} LotWorth(capital: real, price: real)
    requires price > 0.0
    ensures Abs(Worth(LotSize(capital, price), price) - 0.02 * capital) <= 0.00005 * price
  {
    LotIsTwoPercent(capital, price);
  }

  /**
   Over any run: every buy meets the rule's entry conditions in its own snapshot and spends two percent of the
   capital up to rounding, and every sell meets the exit conditions in its own snapshot.
   */
  lemma {:induction false} FillsGrounded(rule: Rule, capital: real, snaps: seq<Snapshot>, k: nat)
    requires k <= |snaps|
    ensures var fills, at := Fills(RunCycles(rule, capital, snaps, k).tradeLog), TradingCycles(rule, capital, snaps, k);
      && |fills| == |at|
      && forall j :: 0 <= j < |fills| ==>
        DueFill(rule, snaps[at[j]], RunCycles(rule, capital, snaps, at[j]).capital, fills[j])
  {
    hide Fills, RunCycles, DueFill, Trades, FillOf;
    FillsExact(rule, capital, snaps, k);
    TradingCyclesExact(rule, capital, snaps, k);
    var fills, at := Fills(RunCycles(rule, capital, snaps, k).tradeLog), TradingCycles(rule, capital, snaps, k);
    forall j | 0 <= j < |fills|
      ensures DueFill(rule, snaps[at[j]], RunCycles(rule, capital, snaps, at[j]).capital, fills[j])
    {
      assert at[j] in at;
      TradeIsDue(rule, capital, snaps, at[j], fills[j]);
    }
  }

  /** The line mean reversion sells at. */
  function ExitLine(s: Snapshot): Option<real> {
    if s.vwap.Some? && s.vwap.value != 0.0 then s.vwap else s.ema21
  }

  /** The exit line of the second snapshot, where there is one, stands at or above the lower band of the first. */
  predicate Recovered(bought: Snapshot, sold: Snapshot) {
    bought.bollingerLower.Some? && ExitLine(sold).Some? ==> ExitLine(sold).value >= bought.bollingerLower.value
  }

  lemma {:induction false} SoldAboveBought(
    bought: Snapshot, sold: Snapshot, before: real, after: real, buy: CycleRecord, sell: CycleRecord)
    requires Recovered(bought, sold) && buy.signal == Buy && sell.signal == Sell
    requires DueFill(MeanReversion, bought, before, buy) && DueFill(MeanReversion, sold, after, sell)
    ensures sell.lastPrice >= buy.lastPrice
  {
    hide Worth;
  }

  /**
   A round trip of mean reversion never sells below its purchase price as long as the exit line then stands
   at or above the lower band of the purchase.
   */
  lemma {:induction false} RoundTripNeverLoses(capital: real, snaps: seq<Snapshot>, k: nat, j: nat)
    requires k <= |snaps| && j % 2 == 1 && j < |TradingCycles(MeanReversion, capital, snaps, k)|
    requires var at := TradingCycles(MeanReversion, capital, snaps, k); Recovered(snaps[at[j - 1]], snaps[at[j]])
    ensures var fills := Fills(RunCycles(MeanReversion, capital, snaps, k).tradeLog);
      j < |fills| && fills[j].lastPrice >= fills[j - 1].lastPrice && fills[j].quantity == fills[j - 1].quantity
  {
    hide Fills, RunCycles, RoundTrips, NetProceeds, DueFill, Recovered, TradingCycles, Trades;
    var fills, at := Fills(RunCycles(MeanReversion, capital, snaps, k).tradeLog),
      TradingCycles(MeanReversion, capital, snaps, k);
    FillsGrounded(MeanReversion, capital, snaps, k);
    RunnerLedger(MeanReversion, capital, snaps, k);
    RoundTripsAlternate(fills, j - 1);
    RoundTripsAlternate(fills, j);
    SoldAboveBought(snaps[at[j - 1]], snaps[at[j]], RunCycles(MeanReversion, capital, snaps, at[j - 1]).capital,
      RunCycles(MeanReversion, capital, snaps, at[j]).capital, fills[j - 1], fills[j]);
  }

  /** A cycle is logged, with the snapshot's price, exactly when that is not zero; otherwise nothing changes. */
  lemma {:induction false} CyclesLogged(rule: Rule, capital: real, snaps: seq<Snapshot>, k: nat)
    requires k < |snaps|
    ensures var before, after := RunCycles(rule, capital, snaps, k), RunCycles(rule, capital, snaps, k + 1);
      if snaps[k].last.None? || snaps[k].last.value == 0.0 then after == before
      else
        && |after.tradeLog| == |before.tradeLog| + 1
        && after.tradeLog[..|before.tradeLog|] == before.tradeLog
        && after.tradeLog[|before.tradeLog|].lastPrice == snaps[k].last.value
  {
    hide Decide, Executed, Round2;
  }

  // ----- what the log shows

  /** The latest log entry always shows the current position, and the current capital to the cent. */
  lemma {:induction false} LogShowsState(rule: Rule, capital: real, snaps: seq<Snapshot>, k: nat)
    requires k <= |snaps|
    ensures var s := RunCycles(rule, capital, snaps, k);
      s.tradeLog != [] ==>
        var shown := s.tradeLog[|s.tradeLog| - 1];
        shown.positionAfter == s.position && Abs(shown.capitalAfter - s.capital) <= 0.005
  {
    hide Decide, Executed, Round2, Abs;
    if k == 0 {
    } else {
      var before, s := RunCycles(rule, capital, snaps, k - 1), snaps[k - 1];
      LogShowsState(rule, capital, snaps, k - 1);
      if LastPrice(s) != 0.0 {
        var d := Decide(rule, Context(LastPrice(s), s, before.position, before.capital));
        ShownToTheCent(Executed(before, d, LastPrice(s)).capital);
      }
    }
  }

  lemma {:induction false} ShownToTheCent(x: real)
    ensures Abs(Round2(x) - x) <= 0.005
  {
    Round2Close(x);
  }

  // ----- runs without an overbought reading

  ghost predicate NeverOverbought(snaps: seq<Snapshot>, sellThreshold: real) {
    forall i :: 0 <= i < |snaps| && snaps[i].rsi.Some? ==> snaps[i].rsi.value <= sellThreshold
  }

  lemma {:induction false} NoSellLogged(
    buyThreshold: real, sellThreshold: real, capital: real, snaps: seq<Snapshot>, k: nat)
    requires k <= |snaps| && NeverOverbought(snaps, sellThreshold)
    ensures NoSells(RunCycles(Momentum(buyThreshold, sellThreshold), capital, snaps, k).tradeLog)
  {
    hide Cycle;
    if k == 0 {
    } else {
      NoSellLogged(buyThreshold, sellThreshold, capital, snaps, k - 1);
      CycleLogsNoSell(buyThreshold, sellThreshold,
        RunCycles(Momentum(buyThreshold, sellThreshold), capital, snaps, k - 1), snaps[k - 1]);
    }
  }

  ghost predicate NoSells(log: seq<CycleRecord>) {
    forall j :: 0 <= j < |log| ==> log[j].signal != Sell
  }

  lemma {:induction false} CycleLogsNoSell(
    buyThreshold: real, sellThreshold: real, before: RunnerState, s: Snapshot)
    requires NoSells(before.tradeLog) && (s.rsi.Some? ==> s.rsi.value <= sellThreshold)
    ensures NoSells(Cycle(Momentum(buyThreshold, sellThreshold), before, s).tradeLog)
  {
    hide LotSize, Round2, Executed;
  }

  lemma {:induction false} NoSellFilled(log: seq<CycleRecord>)
    requires NoSells(log)
    ensures NoSells(Fills(log))
  {
    if log == [] {
    } else {
      NoSellFilled(log[..|log| - 1]);
    }
  }

  /**
   Over a whole run: as long as RSI stays at or below the threshold, the momentum strategy trades at most
   once and never sells, however far the price falls below EMA 9.
   */
  lemma {:induction false} MomentumHolds(
    buyThreshold: real, sellThreshold: real, capital: real, snaps: seq<Snapshot>, k: nat)
    requires k <= |snaps| && NeverOverbought(snaps, sellThreshold)
    ensures var s := RunCycles(Momentum(buyThreshold, sellThreshold), capital, snaps, k);
      var fills := Fills(s.tradeLog);
      |fills| <= 1 && s.position == if fills == [] then 0.0 else fills[0].quantity
  {
    hide RunCycles, Fills, NetProceeds;
    var rule := Momentum(buyThreshold, sellThreshold);
    var s := RunCycles(rule, capital, snaps, k);
    NoSellLogged(buyThreshold, sellThreshold, capital, snaps, k);
    NoSellFilled(s.tradeLog);
    RunnerLedger(rule, capital, snaps, k);
    if |Fills(s.tradeLog)| >= 2 {
      RoundTripsAlternate(Fills(s.tradeLog), 1);
    }
  }

  // ----- the capital floor

  /** What is left of a capital at least, after a cycle that bought once or not at all. */
  function Kept(capital: real, bought: int): real {
    if bought == 1 then 0.96 * capital else capital
  }

  lemma {:induction false} RecordKeepsCapital(before: RunnerState, d: Decision, price: real, shown: real, cost: real)
    requires before.capital > 0.0 && price > 0.0 && Sound(before, d) && cost == d.quantity * price
    requires d.signal == Buy && d.quantity > 0.0 ==> cost < 0.04 * before.capital
    ensures var bought := BuyCount(Fills(Record(before, d, price, shown).tradeLog)) - BuyCount(Fills(before.tradeLog));
      && 0 <= bought <= 1
      && Record(before, d, price, shown).capital >= Kept(before.capital, bought)
  {
    hide Fills, BuyCount, NetProceeds;
    var r := RecordFills(before, d, price, shown);
    NetProceedsAppend(Fills(before.tradeLog), r);
    ExecutionKeepsCapital(before, d, price, cost);
    hide Executed;
  }

  lemma {:induction false} ExecutionKeepsCapital(before: RunnerState, d: Decision, price: real, cost: real)
    requires before.capital > 0.0 && price > 0.0 && Sound(before, d) && cost == d.quantity * price
    requires d.signal == Buy && d.quantity > 0.0 ==> cost < 0.04 * before.capital
    ensures Executed(before, d, price).capital >=
      Kept(before.capital, if d.signal == Buy && d.quantity > 0.0 then 1 else 0)
  {
    if d.signal == Sell {
      MulStrict(0.0, d.quantity, price);
    }
  }

  /** One cycle leaves at least 96% of the capital if it bought, and no less than all of it otherwise. */
  lemma {:induction false} CycleKeepsCapital(rule: Rule, before: RunnerState, s: Snapshot)
    requires LastPrice(s) >= 0.0 && before.capital > 0.0
    ensures var bought := BuyCount(Fills(Cycle(rule, before, s).tradeLog)) - BuyCount(Fills(before.tradeLog));
      && 0 <= bought <= 1
      && Cycle(rule, before, s).capital >= Kept(before.capital, bought)
  {
    hide Fills, BuyCount, Record, Executed, LotSize, Decide;
    var price := LastPrice(s);
    if price != 0.0 {
      var d := Decide(rule, Context(price, s, before.position, before.capital));
      RulesAreSound(rule, before, s);
      DecisionShape(rule, Context(price, s, before.position, before.capital));
      if d.signal == Buy && d.quantity > 0.0 {
        LotCostsLessThanFourPercent(before.capital, price);
      }
      RecordKeepsCapital(before, d, price, Round2(Executed(before, d, price).capital), d.quantity * price);
    }
  }

  /** 96% of 96% of ... of the capital, `buys` times. */
  function Floor(capital: real, buys: nat): real {
    if buys == 0 then capital else 0.96 * Floor(capital, buys - 1)
  }

  lemma {:induction false} FloorIsPower(capital: real, buys: nat)
    ensures Floor(capital, buys) == Power(0.96, buys) * capital
    ensures capital > 0.0 ==> Floor(capital, buys) > 0.0
  {
    if buys == 0 {
    } else {
      FloorIsPower(capital, buys - 1);
      Associate(0.96, Power(0.96, buys - 1), capital, Floor(capital, buys - 1));
    }
  }

  lemma {:induction false} CapitalStaysAboveFloor(rule: Rule, capital: real, snaps: seq<Snapshot>, k: nat)
    requires k <= |snaps| && capital > 0.0 && NonNegativePrices(snaps)
    ensures var s := RunCycles(rule, capital, snaps, k);
      s.capital >= Floor(capital, BuyCount(Fills(s.tradeLog))) > 0.0
  {
    hide Fills, BuyCount, Cycle;
    if k == 0 {
      NoBuys();
    } else {
      CapitalStaysAboveFloor(rule, capital, snaps, k - 1);
      CycleKeepsCapital(rule, RunCycles(rule, capital, snaps, k - 1), snaps[k - 1]);
    }
    FloorIsPower(capital, BuyCount(Fills(RunCycles(rule, capital, snaps, k).tradeLog)));
  }

  lemma {:induction false} NoBuys()
    ensures BuyCount(Fills([])) == 0
  {
  }

  /**
   Capital floor: with non-negative prices (zero meaning no price) and positive initial capital, any run
   with b executed buys keeps at least 0.96^b of the initial capital, hence stays solvent.
   */
  lemma {:induction false} CapitalFloor(rule: Rule, capital: real, snaps: seq<Snapshot>, k: nat)
    requires k <= |snaps| && capital > 0.0 && NonNegativePrices(snaps)
    ensures var s := RunCycles(rule, capital, snaps, k);
      s.capital >= Power(0.96, BuyCount(Fills(s.tradeLog))) * capital && s.capital > 0.0
  {
    CapitalStaysAboveFloor(rule, capital, snaps, k);
    FloorIsPower(capital, BuyCount(Fills(RunCycles(rule, capital, snaps, k).tradeLog)));
  }
}
