/**
 Order-book metrics, implemented twice in the engine: by the depth analyser, on ladders that are
 already sorted, and by the feed parser, which sorts raw levels itself.
 */
module OrderBook {
  import opened Numbers
  import opened Sorting
  import opened Weighted

  datatype Level = Level(price: real, size: real)

  datatype Metrics = Metrics(
    bestBid: real, bestAsk: real, mid: real, microprice: real, spread: real, spreadBps: real,
    bidDepth: real, askDepth: real, imbalance: real)

  const DEPTH: nat := 20

  function Top(levels: seq<Level>, n: nat): seq<Level> {
    if |levels| <= n then levels else levels[..n]
  }

  function Sizes(levels: seq<Level>): (r: seq<real>)
    ensures |r| == |levels| && forall i :: 0 <= i < |levels| ==> r[i] == levels[i].size
  {
    seq(|levels|, i requires 0 <= i < |levels| => levels[i].size)
  }

  function Depth(levels: seq<Level>): real {
    Sum(Sizes(Top(levels, DEPTH)))
  }

  // ----- the depth analyser

  function Mid(bid: real, ask: real): real {
    (bid + ask) / 2.0
  }

  /** The size-weighted price; each side's price is weighted with the other side's size. */
  function Cross(bid: real, bidSize: real, ask: real, askSize: real): real
    requires bidSize + askSize != 0.0
  {
    (bid * askSize + ask * bidSize) / (bidSize + askSize)
  }

  function CalculateMicroprice(bid: real, bidSize: real, ask: real, askSize: real): real {
    if bidSize + askSize == 0.0 then Mid(bid, ask) else Cross(bid, bidSize, ask, askSize)
  }

  /** Bid depth, ask depth and imbalance; all zero when the total depth is. */
  function CalculateDepthImbalance(bids: seq<Level>, asks: seq<Level>): (real, real, real) {
    var bidDepth, askDepth := Depth(bids), Depth(asks);
    if bidDepth + askDepth == 0.0 then (0.0, 0.0, 0.0)
    else (bidDepth, askDepth, (bidDepth - askDepth) / (bidDepth + askDepth))
  }

  function SpreadBps(spread: real, mid: real): real {
    if mid > 0.0 then spread / mid * 10000.0 else 0.0
  }

  /** What the analyser computes before it rounds. */
  function DepthMetrics(bids: seq<Level>, asks: seq<Level>): Metrics
    requires bids != [] && asks != []
  {
    var bid, ask := bids[0], asks[0];
    var mid := Mid(bid.price, ask.price);
    var spread := Max(0.0, ask.price - bid.price);
    var (bidDepth, askDepth, imbalance) := CalculateDepthImbalance(bids, asks);
    Metrics(bid.price, ask.price, mid, CalculateMicroprice(bid.price, bid.size, ask.price, ask.size),
            spread, SpreadBps(spread, mid), bidDepth, askDepth, imbalance)
  }

  /** The published result: rounded, all zero when a side is empty. */
  function AnalyzeOrderbookDepth(bids: seq<Level>, asks: seq<Level>): Metrics {
    if bids == [] || asks == [] then Metrics(0.0, 0.0, 0.0, 0.0, 0.0, 0.0, 0.0, 0.0, 0.0)
    else
      Rounded(DepthMetrics(bids, asks))
  }

  function Rounded(m: Metrics): Metrics {
    Metrics(m.bestBid, m.bestAsk, Round4(m.mid), Round4(m.microprice), Round4(m.spread), Round2(m.spreadBps),
            Round4(m.bidDepth), Round4(m.askDepth), Round4(m.imbalance))
  }

  // ----- the feed parser

  /** A raw level of the feed: an object with optional fields, an array, or something else. */
  datatype RawLevel = Fields(price: Option<real>, size: Option<real>) | Items(values: seq<real>) | Other

  function OrZero(x: Option<real>): real {
    if x.Some? then x.value else 0.0
  }

  function ParseLevel(raw: RawLevel): seq<Level> {
    match raw
    case Fields(price, size) => [Level(OrZero(price), OrZero(size))]
    case Items(values) => if |values| >= 2 then [Level(values[0], values[1])] else []
    case Other => []
  }

  function ParseSide(raw: seq<RawLevel>): seq<Level> {
    if raw == [] then [] else ParseSide(raw[..|raw| - 1]) + ParseLevel(raw[|raw| - 1])
  }

  function SortBids(levels: seq<Level>): (r: seq<Level>)
    ensures |r| == |levels|
  {
    StableSort((l: Level) => -l.price, levels)
  }

  function SortAsks(levels: seq<Level>): (r: seq<Level>)
    ensures |r| == |levels|
  {
    StableSort((l: Level) => l.price, levels)
  }

  /** The parser's own formulas, on sorted ladders. */
  function FeedMetrics(bids: seq<Level>, asks: seq<Level>): Metrics
    requires bids != [] && asks != []
  {
    var bid, ask := bids[0], asks[0];
    var spread := Max(0.0, ask.price - bid.price);
    var mid := Mid(bid.price, ask.price);
    var bidDepth, askDepth := Depth(bids), Depth(asks);
    var total, denom := bidDepth + askDepth, bid.size + ask.size;
    Metrics(bid.price, ask.price, mid,
            if denom > 0.0 then Cross(bid.price, bid.size, ask.price, ask.size) else mid,
            spread, SpreadBps(spread, mid), bidDepth, askDepth,
            if total > 0.0 then (bidDepth - askDepth) / total else 0.0)
  }

  datatype Book = Book(depth: nat, metrics: Metrics, bids: seq<Level>, asks: seq<Level>)

  /** No book when a side has no usable level. */
  function BookOf(rawBids: seq<RawLevel>, rawAsks: seq<RawLevel>): Option<Book> {
    var bids, asks := SortBids(ParseSide(rawBids)), SortAsks(ParseSide(rawAsks));
    if bids == [] || asks == [] then None
    else Some(Book(
      if |bids| < |asks| then |bids| else |asks|, FeedMetrics(bids, asks), Top(bids, DEPTH), Top(asks, DEPTH)))
  }

  method ParseSideLoop(raw: seq<RawLevel>) returns (levels: seq<Level>)
    ensures levels == ParseSide(raw)
  {
    levels := [];
    for k := 0 to |raw|
      invariant levels == ParseSide(raw[..k])
    {
      assert raw[..k + 1][..k] == raw[..k];
      match raw[k] {
        case Fields(price, size) =>
          levels := levels + [Level(OrZero(price), OrZero(size))];
        case Items(values) =>
          if |values| >= 2 {
            levels := levels + [Level(values[0], values[1])];
          }
        case Other =>
      }
    }
    assert raw[..|raw|] == raw;
  }

  // ----- the feed's health record and the parser object

  /** What the provider knows about its connection; times are in microseconds. */
  datatype Health = Health(connected: bool, lastMessageAt: Option<int>, messagesReceived: nat, lastLatencyMs: real)

  function Recorded(h: Health, source: Option<int>, now: int): Health {
    Health(true, Some(now), h.messagesReceived + 1,
      if source.Some? then Max(0.0, (now - source.value) as real / 1000.0) else h.lastLatencyMs)
  }

  class ProviderHealth {
    var connected: bool
    var lastMessageAt: Option<int>
    var messagesReceived: nat
    var lastLatencyMs: real

    function State(): Health
      reads this
    {
      Health(connected, lastMessageAt, messagesReceived, lastLatencyMs)
    }

    constructor ()
      ensures State() == Health(false, None, 0, 0.0)
    {
      connected, lastMessageAt, messagesReceived, lastLatencyMs := false, None, 0, 0.0;
    }

    method RecordMessage(source: Option<int>, now: int)
      modifies this
      ensures State() == Recorded(old(State()), source, now)
    {
      connected := true;
      lastMessageAt := Some(now);
      messagesReceived := messagesReceived + 1;
      if source.Some? {
        lastLatencyMs := Max(0.0, (now - source.value) as real / 1000.0);
      }
    }
  }

  /** An epoch number is taken for microseconds, milliseconds or seconds by its size. */
  function FromEpoch(raw: int): int {
    if raw > 100_000_000_000_000 then raw
    else if raw > 100_000_000_000 then raw * 1_000
    else raw * 1_000_000
  }

  /** The feed's own time if it sent one; zero counts as none. */
  function SourceTime(raw: Option<int>, now: int): int {
    if raw.Some? && raw.value != 0 then FromEpoch(raw.value) else now
  }

  /**
   The feed sends microseconds, and the conversion is described as one from microseconds. It reads a
   number right exactly when it is large enough to be after 3 March 1973, or zero.
   */
  lemma {:induction false} EpochReadIff(raw: int)
    ensures FromEpoch(raw) == raw <==> raw > 100_000_000_000_000 || raw == 0
  {
  }

  /** An instant reads the same in seconds, milliseconds and microseconds, from 1973 for three thousand years. */
  lemma {:induction false} UnitsAgree(seconds: int)
    requires 100_000_000 < seconds <= 100_000_000_000
    ensures FromEpoch(seconds) == FromEpoch(seconds * 1_000) == FromEpoch(seconds * 1_000_000) == seconds * 1_000_000
  {
  }

  /** One order-book message as the health record sees it. */
  datatype Message = Message(symbol: string, rawTime: Option<int>, now: int, received: int)

  function Heard(h: Health, m: Message): Health {
    if m.symbol == "" then h else Recorded(h, Some(SourceTime(m.rawTime, m.now)), m.received)
  }

  /** The health record after the first `k` messages of a new connection. */
  function HealthAfter(messages: seq<Message>, k: nat): Health
    requires k <= |messages|
  {
    if k == 0 then Health(false, None, 0, 0.0) else Heard(HealthAfter(messages, k - 1), messages[k - 1])
  }

  function Named(messages: seq<Message>, k: nat): (named: set<nat>)
    requires k <= |messages|
  {
    set j: nat | j < k && messages[j].symbol != ""
  }

  /**
   Over any run of messages the record counts those with a symbol, and calls the feed connected once there
   was one; the latency it shows is never negative.
   */
  lemma {:induction false} HealthOfRun(messages: seq<Message>, k: nat)
    requires k <= |messages|
    ensures var h := HealthAfter(messages, k);
      && h.messagesReceived == |Named(messages, k)|
      && (h.connected <==> Named(messages, k) != {})
      && h.lastLatencyMs >= 0.0
  {
    hide SourceTime, Named;
    NamedStep(messages, k);
    if k == 0 {
    } else {
      HealthOfRun(messages, k - 1);
    }
  }

  lemma {:induction false} NamedStep(messages: seq<Message>, k: nat)
    requires k <= |messages|
    ensures k == 0 ==> Named(messages, k) == {}
    ensures k > 0 ==> k - 1 !in Named(messages, k - 1)
    ensures k > 0 ==>
      Named(messages, k) == Named(messages, k - 1) + if messages[k - 1].symbol == "" then {} else {k - 1}
  {
  }

  /** What it shows is the arrival time and the latency of the latest message with a symbol. */
  lemma {:induction false} HealthIsLatest(messages: seq<Message>, j: nat, k: nat)
    requires j < k <= |messages| && messages[j].symbol != ""
    requires forall i :: j < i < k ==> messages[i].symbol == ""
    ensures var h, m := HealthAfter(messages, k), messages[j];
      && h.lastMessageAt == Some(m.received)
      && h.lastLatencyMs == Max(0.0, (m.received - SourceTime(m.rawTime, m.now)) as real / 1000.0)
  {
    hide SourceTime;
    if k == j + 1 {
    } else {
      HealthIsLatest(messages, j, k - 1);
    }
  }

  datatype OrderbookEvent = OrderbookEvent(symbol: string, timestamp: int, book: Book)

  function EventsOf(symbol: string, time: int, book: Option<Book>): seq<OrderbookEvent> {
    if book.Some? then [OrderbookEvent(symbol, time, book.value)] else []
  }

  class DeltaWebSocketProvider {
    const health: ProviderHealth
    const canonical: string -> string

    constructor (canonical: string -> string)
      ensures fresh(health) && health.State() == Health(false, None, 0, 0.0) && this.canonical == canonical
    {
      this.health := new ProviderHealth();
      this.canonical := canonical;
    }

    /**
     `now` and `received` are the two readings of the clock. A message without a symbol leaves no trace;
     any other counts as received, whether or not it yields an event.
     */
    method ParseOrderbook(
      symbol: string, rawTime: Option<int>, rawBids: seq<RawLevel>, rawAsks: seq<RawLevel>, now: int, received: int)
      returns (events: seq<OrderbookEvent>)
      modifies health
      ensures symbol == "" ==> events == [] && health.State() == old(health.State())
      ensures symbol != "" ==>
        && events == EventsOf(canonical(symbol), SourceTime(rawTime, now), BookOf(rawBids, rawAsks))
        && health.State() == Recorded(old(health.State()), Some(SourceTime(rawTime, now)), received)
    {
      events := [];
      if symbol == "" {
        return;
      }
      var sourceTime := SourceTime(rawTime, now);
      health.RecordMessage(Some(sourceTime), received);
      var bids := ParseSideLoop(rawBids);
      var asks := ParseSideLoop(rawAsks);
      bids := SortBids(bids);
      asks := SortAsks(asks);
      if bids == [] || asks == [] {
        return;
      }
      var book := Book(
        if |bids| < |asks| then |bids| else |asks|, FeedMetrics(bids, asks), Top(bids, DEPTH), Top(asks, DEPTH));
      events := [OrderbookEvent(canonical(symbol), sourceTime, book)];
    }
  }

  // ----- the two agree

  ghost predicate NonNegativeSizes(levels: seq<Level>) {
    forall i :: 0 <= i < |levels| ==> levels[i].size >= 0.0
  }

  lemma {:induction false} DepthNonNegative(levels: seq<Level>)
    requires NonNegativeSizes(levels)
    ensures Depth(levels) >= 0.0
  {
    SumNonNegative(Sizes(Top(levels, DEPTH)));
  }

  /**
   The two implementations agree on a pair of ladders exactly when the top sizes do not add up to a
   negative number (or it makes no difference), and neither do the depths; the analyser additionally
   reports zero depths when they cancel out.
   */
  lemma {:induction false} ImplementationsAgreeIff(bids: seq<Level>, asks: seq<Level>)
    requires bids != [] && asks != []
    ensures FeedMetrics(bids, asks) == DepthMetrics(bids, asks) <==>
      && (bids[0].size + asks[0].size >= 0.0 || bids[0].price == asks[0].price || bids[0].size == asks[0].size)
      && (Depth(bids) + Depth(asks) > 0.0 || Depth(bids) == Depth(asks))
  {
  }

  /** So with non-negative sizes, as any exchange sends, the event carries the analyser's unrounded metrics. */
  lemma {:induction false} ImplementationsAgree(rawBids: seq<RawLevel>, rawAsks: seq<RawLevel>)
    requires NonNegativeSizes(ParseSide(rawBids)) && NonNegativeSizes(ParseSide(rawAsks))
    ensures var bids, asks := SortBids(ParseSide(rawBids)), SortAsks(ParseSide(rawAsks));
      match BookOf(rawBids, rawAsks)
      case None => bids == [] || asks == []
      case Some(e) => bids != [] && asks != [] && e.metrics == DepthMetrics(bids, asks)
  {
    var bids, asks := SortBids(ParseSide(rawBids)), SortAsks(ParseSide(rawAsks));
    SortKeepsSizes((l: Level) => -l.price, ParseSide(rawBids));
    SortKeepsSizes((l: Level) => l.price, ParseSide(rawAsks));
    if bids != [] && asks != [] {
      DepthNonNegative(bids);
      DepthNonNegative(asks);
      hide Depth, FeedMetrics, DepthMetrics;
      ImplementationsAgreeIff(bids, asks);
    }
  }

  lemma {:induction false} SortKeepsSizes(key: Level -> real, levels: seq<Level>)
    requires NonNegativeSizes(levels)
    ensures NonNegativeSizes(StableSort(key, levels))
  {
    var sorted := StableSort(key, levels);
    StableSortCorrect(key, levels);
    forall i | 0 <= i < |sorted|
      ensures sorted[i].size >= 0.0
    {
      assert sorted[i] in multiset(levels);
    }
  }

  /** Every figure the analyser publishes is within half a unit of the last digit of what the parser reports. */
  lemma {:induction false} PublishedWithinRounding(rawBids: seq<RawLevel>, rawAsks: seq<RawLevel>)
    requires NonNegativeSizes(ParseSide(rawBids)) && NonNegativeSizes(ParseSide(rawAsks))
    requires BookOf(rawBids, rawAsks).Some?
    ensures var e := BookOf(rawBids, rawAsks).value.metrics;
      var p := AnalyzeOrderbookDepth(SortBids(ParseSide(rawBids)), SortAsks(ParseSide(rawAsks)));
      && p.bestBid == e.bestBid && p.bestAsk == e.bestAsk
      && Abs(p.mid - e.mid) <= 0.00005 && Abs(p.microprice - e.microprice) <= 0.00005
      && Abs(p.spread - e.spread) <= 0.00005 && Abs(p.imbalance - e.imbalance) <= 0.00005
      && Abs(p.bidDepth - e.bidDepth) <= 0.00005 && Abs(p.askDepth - e.askDepth) <= 0.00005
      && Abs(p.spreadBps - e.spreadBps) <= 0.005
  {
    hide FeedMetrics, DepthMetrics, Rounded, Abs, SortBids, SortAsks;
    ImplementationsAgree(rawBids, rawAsks);
    RoundedClose(BookOf(rawBids, rawAsks).value.metrics);
  }

  lemma {:induction false} RoundedClose(e: Metrics)
    ensures var p := Rounded(e);
      && p.bestBid == e.bestBid && p.bestAsk == e.bestAsk
      && Abs(p.mid - e.mid) <= 0.00005 && Abs(p.microprice - e.microprice) <= 0.00005
      && Abs(p.spread - e.spread) <= 0.00005 && Abs(p.imbalance - e.imbalance) <= 0.00005
      && Abs(p.bidDepth - e.bidDepth) <= 0.00005 && Abs(p.askDepth - e.askDepth) <= 0.00005
      && Abs(p.spreadBps - e.spreadBps) <= 0.005
  {
    hide Round4, Round2;
    Round4Close(e.mid);
    Round4Close(e.microprice);
    Round4Close(e.spread);
    Round4Close(e.imbalance);
    Round4Close(e.bidDepth);
    Round4Close(e.askDepth);
    Round2Close(e.spreadBps);
  }

  /**
   The best bid is the highest bid in the raw feed and the best ask the lowest, wherever they came and however
   they are written; there is no event exactly when one side offers nothing.
   */
  lemma {:induction false} BestPrices(rawBids: seq<RawLevel>, rawAsks: seq<RawLevel>)
    ensures BookOf(rawBids, rawAsks).Some? <==>
      (exists p, s :: Offers(rawBids, p, s)) && (exists p, s :: Offers(rawAsks, p, s))
    ensures BookOf(rawBids, rawAsks).Some? ==>
      var m := BookOf(rawBids, rawAsks).value.metrics;
      && (forall p, s :: Offers(rawBids, p, s) ==> p <= m.bestBid) && (exists s :: Offers(rawBids, m.bestBid, s))
      && (forall p, s :: Offers(rawAsks, p, s) ==> m.bestAsk <= p) && (exists s :: Offers(rawAsks, m.bestAsk, s))
  {
    hide ParseSide, Offers, StableSort, Depth;
    var bids, asks := ParseSide(rawBids), ParseSide(rawAsks);
    SideOffered(rawBids);
    SideOffered(rawAsks);
    if bids != [] && asks != [] {
      FirstIsLeast((l: Level) => -l.price, bids);
      FirstIsLeast((l: Level) => l.price, asks);
      var bid, ask := SortBids(bids)[0], SortAsks(asks)[0];
      assert Offers(rawBids, bid.price, bid.size) && Offers(rawAsks, ask.price, ask.size);
    }
  }

  /** What a side offers is what its parsed levels are. */
  lemma {:induction false} SideOffered(raw: seq<RawLevel>)
    ensures forall p, s :: Offers(raw, p, s) <==> Level(p, s) in ParseSide(raw)
    ensures ParseSide(raw) != [] <==> exists p, s :: Offers(raw, p, s)
  {
    hide ParseSide, Offers;
    forall p, s
      ensures Offers(raw, p, s) <==> Level(p, s) in ParseSide(raw)
    {
      ParsedAreOffered(raw, Level(p, s));
    }
    if ParseSide(raw) != [] {
      var l := ParseSide(raw)[0];
      assert Level(l.price, l.size) in ParseSide(raw);
    }
  }

  lemma {:induction false} FirstIsLeast(key: Level -> real, levels: seq<Level>)
    requires levels != []
    ensures StableSort(key, levels)[0] in levels
    ensures forall l :: l in levels ==> key(StableSort(key, levels)[0]) <= key(l)
  {
    var sorted := StableSort(key, levels);
    StableSortCorrect(key, levels);
    assert sorted[0] in multiset(levels);
    forall l | l in levels
      ensures key(sorted[0]) <= key(l)
    {
      assert l in multiset(sorted);
      var i :| 0 <= i < |sorted| && sorted[i] == l;
    }
  }

  /** Where no two levels of a side share a price, the event does not depend on the order the levels arrive in. */
  lemma {:induction false} ArrivalOrderIrrelevant(
    bids: seq<RawLevel>, asks: seq<RawLevel>, bids': seq<RawLevel>, asks': seq<RawLevel>)
    requires multiset(ParseSide(bids)) == multiset(ParseSide(bids')) && DistinctPrices(ParseSide(bids))
    requires multiset(ParseSide(asks)) == multiset(ParseSide(asks')) && DistinctPrices(ParseSide(asks))
    ensures BookOf(bids, asks) == BookOf(bids', asks')
  {
    hide FeedMetrics, Top, ParseSide, DistinctPrices, StableSort;
    SameLadder((l: Level) => -l.price, ParseSide(bids), ParseSide(bids'));
    SameLadder((l: Level) => l.price, ParseSide(asks), ParseSide(asks'));
    assert SortBids(ParseSide(bids)) == SortBids(ParseSide(bids'));
    assert SortAsks(ParseSide(asks)) == SortAsks(ParseSide(asks'));
  }

  ghost predicate DistinctPrices(levels: seq<Level>) {
    forall l, m :: l in multiset(levels) && m in multiset(levels) && l.price == m.price ==> l == m
  }

  lemma {:induction false} SameLadder(key: Level -> real, levels: seq<Level>, levels': seq<Level>)
    requires multiset(levels) == multiset(levels') && DistinctPrices(levels)
    requires forall l, m: Level :: key(l) == key(m) ==> l.price == m.price
    ensures StableSort(key, levels) == StableSort(key, levels')
  {
    hide StableSort, SortedBy, WithKey;
    StableSortCorrect(key, levels);
    StableSortCorrect(key, levels');
    assert DistinctKeys(key, multiset(levels));
    hide DistinctKeys, DistinctPrices;
    SortedUnique(key, StableSort(key, levels), StableSort(key, levels'));
  }

  // ----- ranges

  /** The imbalance lies between -1 and 1. */
  lemma {:induction false} ImbalanceRange(bids: seq<Level>, asks: seq<Level>)
    requires bids != [] && asks != [] && NonNegativeSizes(bids) && NonNegativeSizes(asks)
    ensures -1.0 <= DepthMetrics(bids, asks).imbalance <= 1.0
  {
    DepthNonNegative(bids);
    DepthNonNegative(asks);
    hide Depth, Cross, SpreadBps;
    var b, a := Depth(bids), Depth(asks);
    if b + a != 0.0 {
      DivMonotone(b - a, b + a, b + a);
      DivMonotone(-(b + a), b - a, b + a);
      QuotientIs(b + a, b + a, 1.0);
      QuotientIs(-(b + a), b + a, -1.0);
    }
  }

  /** In an uncrossed market the microprice lies between bid and ask. */
  lemma {:induction false} MicropriceBetween(bid: real, bidSize: real, ask: real, askSize: real)
    requires bid <= ask && bidSize >= 0.0 && askSize >= 0.0
    ensures bid <= CalculateMicroprice(bid, bidSize, ask, askSize) <= ask
  {
    hide Mid;
    if bidSize + askSize == 0.0 {
      MidBetween(bid, ask);
    } else {
      CrossBetween(bid, bidSize, ask, askSize);
    }
  }

  lemma {:induction false} MidBetween(bid: real, ask: real)
    requires bid <= ask
    ensures bid <= Mid(bid, ask) <= ask
  {
  }

  lemma {:induction false} CrossBetween(bid: real, bidSize: real, ask: real, askSize: real)
    requires bid <= ask && bidSize >= 0.0 && askSize >= 0.0 && bidSize + askSize != 0.0
    ensures bid <= Cross(bid, bidSize, ask, askSize) <= ask
  {
    var denom, value := bidSize + askSize, bid * askSize + ask * bidSize;
    CrossWeights(bid, bidSize, ask, askSize, denom, value);
    QuotientBetween(bid, value, ask, denom);
  }

  lemma {:induction false} CrossWeights(
    bid: real, bidSize: real, ask: real, askSize: real, denom: real, value: real)
    requires bid <= ask && bidSize >= 0.0 && askSize >= 0.0
    requires denom == bidSize + askSize && value == bid * askSize + ask * bidSize
    ensures bid * denom <= value <= ask * denom
  {
    MulMonotone(bid, ask, bidSize);
    MulMonotone(bid, ask, askSize);
    Distribute(bid, bidSize, askSize);
    Distribute(ask, bidSize, askSize);
  }

  /**
   Each price pulls on the microprice with the size on the other side: its distances to ask and bid are in the
   ratio of ask size to bid size, so in an uncrossed market it is nearer the ask exactly when more is bid.
   */
  lemma {:induction false} MicropriceBalance(bid: real, bidSize: real, ask: real, askSize: real)
    requires bidSize >= 0.0 && askSize >= 0.0 && bidSize + askSize > 0.0
    ensures var micro := CalculateMicroprice(bid, bidSize, ask, askSize);
      && (ask - micro) * bidSize == (micro - bid) * askSize
      && (bid < ask ==> (ask - micro < micro - bid <==> bidSize > askSize))
  {
    hide Mid;
    var micro, denom := CalculateMicroprice(bid, bidSize, ask, askSize), bidSize + askSize;
    DivTimes(bid * askSize + ask * bidSize, denom);
    Distribute(micro, bidSize, askSize);
    Balance(bid, bidSize, ask, askSize, micro);
    if bid < ask {
      MicropriceBetween(bid, bidSize, ask, askSize);
      hide CalculateMicroprice;
      Nearer(ask - micro, micro - bid, bidSize, askSize);
    }
  }

  lemma {:induction false} Balance(bid: real, bidSize: real, ask: real, askSize: real, micro: real)
    requires micro * bidSize + micro * askSize == bid * askSize + ask * bidSize
    ensures (ask - micro) * bidSize == (micro - bid) * askSize
  {
  }

  lemma {:induction false} Nearer(u: real, v: real, x: real, y: real)
    requires u >= 0.0 && v >= 0.0 && u + v > 0.0 && x >= 0.0 && y >= 0.0 && x + y > 0.0 && u * x == v * y
    ensures u < v <==> x > y
  {
    if u < v && x <= y {
      SmallerProduct(x, u, y, v);
    } else if u >= v && x > y {
      SmallerProduct(v, y, u, x);
    }
  }

  lemma {:induction false} SmallerProduct(a: real, b: real, c: real, d: real)
    requires 0.0 <= a <= c && 0.0 <= b < d && c > 0.0
    ensures a * b < c * d && b * a < d * c
  {
    MulMonotone(a, c, b);
    MulStrict(b, d, c);
  }

  // ----- the figures of an event

  /** The raw level carries this price and size, as an object or as an array; a missing field counts as zero. */
  predicate Carries(raw: RawLevel, price: real, size: real) {
    match raw
    case Fields(p, s) => price == (if p.Some? then p.value else 0.0) && size == (if s.Some? then s.value else 0.0)
    case Items(values) => |values| >= 2 && price == values[0] && size == values[1]
    case Other => false
  }

  ghost predicate Offers(raw: seq<RawLevel>, price: real, size: real) {
    exists k :: 0 <= k < |raw| && Carries(raw[k], price, size)
  }

  /** Parsing keeps exactly what is offered. */
  lemma {:induction false} ParsedAreOffered(raw: seq<RawLevel>, l: Level)
    ensures l in ParseSide(raw) <==> Offers(raw, l.price, l.size)
  {
    if raw == [] {
    } else {
      var front, last := raw[..|raw| - 1], raw[|raw| - 1];
      ParsedAreOffered(front, l);
      OneLevel(last, l);
      hide Carries, ParseLevel;
      if Offers(front, l.price, l.size) {
        var k :| 0 <= k < |front| && Carries(front[k], l.price, l.size);
        assert raw[k] == front[k];
      }
      if Offers(raw, l.price, l.size) && !Carries(last, l.price, l.size) {
        var k :| 0 <= k < |raw| && Carries(raw[k], l.price, l.size);
        assert front[k] == raw[k];
      }
    }
  }

  lemma {:induction false} OneLevel(raw: RawLevel, l: Level)
    ensures l in ParseLevel(raw) <==> Carries(raw, l.price, l.size)
  {
  }

  /** The levels an event publishes are the best 20 of a side: the rest of the side is no better than any of them. */
  lemma {:induction false} TopLevelsBest(key: Level -> real, levels: seq<Level>)
    ensures var sorted := StableSort(key, levels);
      var top := Top(sorted, DEPTH);
      && |top| == (if |levels| < 20 then |levels| else 20)
      && multiset(top) + multiset(sorted[|top|..]) == multiset(levels)
      && Depth(sorted) == Sum(Sizes(top))
      && forall l, m :: l in top && m in sorted[|top|..] ==> key(l) <= key(m)
  {
    var sorted := StableSort(key, levels);
    var top := Top(sorted, DEPTH);
    StableSortCorrect(key, levels);
    hide StableSort, Sum;
    assert sorted == top + sorted[|top|..];
    forall l, m | l in top && m in sorted[|top|..]
      ensures key(l) <= key(m)
    {
      var i :| 0 <= i < |top| && top[i] == l;
      var j :| 0 <= j < |sorted[|top|..]| && sorted[|top|..][j] == m;
      assert sorted[i] == l && sorted[|top| + j] == m;
    }
  }

  /**
   The figures of an event: mid halfway between the best prices, spread their distance or zero when crossed,
   the same in basis points of the mid, and the imbalance the difference of the depths over their sum.
   */
  lemma {:induction false} EventFigures(rawBids: seq<RawLevel>, rawAsks: seq<RawLevel>)
    requires BookOf(rawBids, rawAsks).Some?
    ensures var m := BookOf(rawBids, rawAsks).value.metrics;
      && m.mid - m.bestBid == m.bestAsk - m.mid
      && m.spread == (if m.bestBid <= m.bestAsk then m.bestAsk - m.bestBid else 0.0)
      && (if m.mid > 0.0 then m.spreadBps * m.mid == 10000.0 * m.spread else m.spreadBps == 0.0)
      && (if m.bidDepth + m.askDepth > 0.0 then m.imbalance * (m.bidDepth + m.askDepth) == m.bidDepth - m.askDepth
          else m.imbalance == 0.0)
  {
    hide Depth, Cross, SortBids, SortAsks, ParseSide;
    var m := BookOf(rawBids, rawAsks).value.metrics;
    if m.mid > 0.0 {
      DivTimes(m.spread, m.mid);
      Associate(m.spread / m.mid, 10000.0, m.mid, 10000.0 * m.mid);
    }
    if m.bidDepth + m.askDepth > 0.0 {
      DivTimes(m.bidDepth - m.askDepth, m.bidDepth + m.askDepth);
    }
  }

  // ----- liquidity walls

  datatype Wall = Wall(price: real, size: real, multiple: real)

  predicate IsWall(size: real, average: real, multiplier: real) {
    average > 0.0 && size >= average * multiplier
  }

  /** The levels at least `multiplier` times the average size `average`. */
  function WallsAbove(levels: seq<Level>, average: real, multiplier: real): seq<Wall> {
    if levels == [] then []
    else
      var last := levels[|levels| - 1];
      WallsAbove(levels[..|levels| - 1], average, multiplier)
      + if IsWall(last.size, average, multiplier)
        then [Wall(last.price, last.size, Round2(last.size / average))] else []
  }

  function SideWalls(levels: seq<Level>, multiplier: real): seq<Wall>
    requires levels != []
  {
    var top := Top(levels, DEPTH);
    WallsAbove(top, Mean(Sizes(top)), multiplier)
  }

  function DetectLiquidityWalls(bids: seq<Level>, asks: seq<Level>, multiplier: real): (seq<Wall>, seq<Wall>) {
    if bids == [] || asks == [] then ([], []) else (SideWalls(bids, multiplier), SideWalls(asks, multiplier))
  }

  /**
   A wall is reported exactly for each of the top 20 levels whose size is at least `multiplier` times their
   average, when that is positive; it carries the level's price and size, and the multiple to two decimals.
   */
  lemma {:induction false} WallsExact(levels: seq<Level>, multiplier: real, w: Wall)
    requires levels != []
    ensures var top := Top(levels, DEPTH);
      var average := Sum(Sizes(top)) / |top| as real;
      w in SideWalls(levels, multiplier) <==>
        Level(w.price, w.size) in top && average > 0.0 && w.size >= average * multiplier
        && w.multiple == Round2(w.size / average)
  {
    hide Sum, Round2;
    WallMembers(Top(levels, DEPTH), Mean(Sizes(Top(levels, DEPTH))), multiplier, w);
  }

  lemma {:induction false} WallMembers(levels: seq<Level>, average: real, multiplier: real, w: Wall)
    ensures w in WallsAbove(levels, average, multiplier) <==>
      Level(w.price, w.size) in levels && IsWall(w.size, average, multiplier) && w.multiple == Round2(w.size / average)
  {
    hide Round2;
    if levels == [] {
    } else {
      var front, last := levels[..|levels| - 1], levels[|levels| - 1];
      WallMembers(front, average, multiplier, w);
      assert levels == front + [last];
    }
  }

  function Times(n: nat, x: real): real {
    n as real * x
  }

  /** Counting walls against the volume they hold. */
  lemma {:induction false} WallsWeigh(levels: seq<Level>, average: real, multiplier: real, threshold: real)
    requires NonNegativeSizes(levels)
    requires forall size: real :: IsWall(size, average, multiplier) ==> size >= threshold
    ensures Times(|WallsAbove(levels, average, multiplier)|, threshold) <= Sum(Sizes(levels))
  {
    hide IsWall, Times, Sum;
    Increment(0, threshold);
    if levels == [] {
      SumOfNone(Sizes(levels));
    } else {
      var n := |levels| - 1;
      WallsWeigh(levels[..n], average, multiplier, threshold);
      assert Sizes(levels)[..n] == Sizes(levels[..n]);
      SumSplit(Sizes(levels));
      Increment(|WallsAbove(levels[..n], average, multiplier)|, threshold);
    }
  }

  lemma {:induction false} Increment(n: nat, x: real)
    ensures Times(0, x) == 0.0 && Times(n + 1, x) == Times(n, x) + x
  {
  }

  /** On either side the walls, times the multiplier, are at most the levels looked at. */
  lemma {:induction false} WallBound(levels: seq<Level>, multiplier: real)
    requires levels != [] && NonNegativeSizes(levels) && multiplier > 0.0
    ensures |SideWalls(levels, multiplier)| as real * multiplier <= |Top(levels, DEPTH)| as real
  {
    hide WallsAbove, Sum;
    var top := Top(levels, DEPTH);
    var average := Mean(Sizes(top));
    if average > 0.0 {
      Threshold(average, multiplier);
      WallsWeigh(top, average, multiplier, average * multiplier);
      CancelAverage(|WallsAbove(top, average, multiplier)|, average, multiplier, average * multiplier,
        |top| as real, Sum(Sizes(top)));
    } else {
      NoWalls(top, average, multiplier);
    }
  }

  lemma {:induction false} Threshold(average: real, multiplier: real)
    ensures forall size: real :: IsWall(size, average, multiplier) ==> size >= average * multiplier
  {
  }

  lemma {:induction false} NoWalls(levels: seq<Level>, average: real, multiplier: real)
    requires average <= 0.0
    ensures WallsAbove(levels, average, multiplier) == []
  {
    if levels == [] {
    } else {
      NoWalls(levels[..|levels| - 1], average, multiplier);
    }
  }

  lemma {:induction false} CancelAverage(
    walls: nat, average: real, multiplier: real, threshold: real, n: real, total: real)
    requires average > 0.0 && n > 0.0 && average == total / n
    requires threshold == average * multiplier && Times(walls, threshold) <= total
    ensures walls as real * multiplier <= n
  {
    var w := walls as real;
    DivTimes(total, n);
    assert w * threshold == (w * multiplier) * average;
    if w * multiplier > n {
      MulStrict(n, w * multiplier, average);
    }
  }

  /** At the default multiplier, at most a third of the top levels of a side are walls. */
  lemma {:induction false} DefaultWallBound(bids: seq<Level>, asks: seq<Level>)
    requires NonNegativeSizes(bids) && NonNegativeSizes(asks)
    ensures var (bidWalls, askWalls) := DetectLiquidityWalls(bids, asks, 3.0);
      |bidWalls| <= |Top(bids, DEPTH)| / 3 && |askWalls| <= |Top(asks, DEPTH)| / 3
  {
    if bids != [] && asks != [] {
      WallBound(bids, 3.0);
      WallBound(asks, 3.0);
      hide SideWalls, Top;
      AtMostThird(|SideWalls(bids, 3.0)|, |Top(bids, DEPTH)|);
      AtMostThird(|SideWalls(asks, 3.0)|, |Top(asks, DEPTH)|);
    }
  }

  lemma {:induction false} AtMostThird(walls: nat, n: nat)
    requires walls as real * 3.0 <= n as real
    ensures walls <= n / 3
  {
  }
}
