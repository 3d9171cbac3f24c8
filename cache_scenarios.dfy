/**
 * The behaviour the data cache's unit tests pin down, each stated for any
 * ticks, bars and instruments of the tested shape and proved from the
 * definitions of `Cache.DataCache`.
 */
module CacheScenarios {
  import opened Common
  import opened Market
  import opened Series
  import opened Cache
  import Pricing

  /** A fresh or reset cache answers every query empty, absent, zero or false. */
  lemma EmptyCacheAnswersNothing(c: DataCache, symbol: Symbol, barType: BarType, index: nat,
                                 priceType: PriceType, venue: Venue, from: Currency, to: Currency)
    requires c.Valid() && c.IsEmpty()
    ensures c.Symbols() == [] && c.Instruments() == [] && c.Instrument(symbol) == None
    ensures c.QuoteTicks(symbol) == [] && c.TradeTicks(symbol) == [] && c.Bars(barType) == []
    ensures c.QuoteTick(symbol, index) == None && c.TradeTick(symbol, index) == None
    ensures c.Bar(barType, index) == None
    ensures c.QuoteTickCount(symbol) == 0 && c.TradeTickCount(symbol) == 0 && c.BarCount(barType) == 0
    ensures !c.HasQuoteTicks(symbol) && !c.HasTradeTicks(symbol) && !c.HasBars(barType)
    ensures c.Price(symbol, priceType) == None
    ensures from != to ==> c.GetXRate(venue, from, to) == None
  {
    if from != to {
      Pricing.XRateUnavailable(c.Instruments(), c.quoteTickMap, venue, from, to);
    }
  }

  /** Resetting a cache in any state leaves every series and the instrument list empty. */
  method ResetEmptiesEverything(c: DataCache, symbol: Symbol, barType: BarType)
    returns (instruments: seq<Instrument>, quotes: seq<QuoteTick>, trades: seq<TradeTick>, bars: seq<Bar>)
    requires c.Valid()
    modifies c
    ensures instruments == [] && quotes == [] && trades == [] && bars == []
  {
    c.Reset();
    instruments, quotes, trades, bars := c.Instruments(), c.QuoteTicks(symbol), c.TradeTicks(symbol), c.Bars(barType);
  }

  /** After adding one instrument, it is the only instrument and its symbol the only symbol. */
  method AddOneInstrument(instrument: Instrument)
    returns (symbols: seq<Symbol>, instruments: seq<Instrument>, found: Option<Instrument>)
    ensures symbols == [instrument.symbol]
    ensures instruments == [instrument]
    ensures found == Some(instrument)
  {
    var c := new DataCache();
    c.AddInstrument(instrument);
    symbols, instruments, found := c.Symbols(), c.Instruments(), c.Instrument(instrument.symbol);
  }

  /** Two distinct quotes of one symbol: the count is 2 and index 0 is the later one. */
  method TwoQuoteTicksNewestFirst(tick1: QuoteTick, tick2: QuoteTick)
    returns (count: nat, newest: Option<QuoteTick>, older: Option<QuoteTick>)
    requires tick1.symbol == tick2.symbol && tick1 != tick2
    ensures count == 2 && newest == Some(tick2) && older == Some(tick1)
  {
    var c := new DataCache();
    c.AddQuoteTick(tick1);
    c.AddQuoteTick(tick2);
    count, newest, older := c.QuoteTickCount(tick1.symbol), c.QuoteTick(tick1.symbol, 0), c.QuoteTick(tick1.symbol, 1);
  }

  /** Two distinct trades of one symbol: the count is 2 and index 0 is the later one. */
  method TwoTradeTicksNewestFirst(tick1: TradeTick, tick2: TradeTick)
    returns (count: nat, newest: Option<TradeTick>, older: Option<TradeTick>)
    requires tick1.symbol == tick2.symbol && tick1 != tick2
    ensures count == 2 && newest == Some(tick2) && older == Some(tick1)
  {
    var c := new DataCache();
    c.AddTradeTick(tick1);
    c.AddTradeTick(tick2);
    count, newest, older := c.TradeTickCount(tick1.symbol), c.TradeTick(tick1.symbol, 0), c.TradeTick(tick1.symbol, 1);
  }

  /** Two distinct bars of one bar type: the count is 2 and index 0 is the later one. */
  method TwoBarsNewestFirst(barType: BarType, bar1: Bar, bar2: Bar)
    returns (count: nat, newest: Option<Bar>, older: Option<Bar>)
    requires bar1 != bar2
    ensures count == 2 && newest == Some(bar2) && older == Some(bar1)
  {
    var c := new DataCache();
    c.AddBar(barType, bar1);
    c.AddBar(barType, bar2);
    count, newest, older := c.BarCount(barType), c.Bar(barType, 0), c.Bar(barType, 1);
  }

  /** With one quote held, index 1 is absent and the count stays 1. */
  method QuoteTickPastEnd(tick: QuoteTick, index: nat)
    returns (count: nat, result: Option<QuoteTick>)
    requires index >= 1
    ensures count == 1 && result == None
  {
    var c := new DataCache();
    c.AddQuoteTick(tick);
    result := c.QuoteTick(tick.symbol, index);
    count := c.QuoteTickCount(tick.symbol);
  }

  /** With one trade held, index 1 is absent and the count stays 1. */
  method TradeTickPastEnd(tick: TradeTick, index: nat)
    returns (count: nat, result: Option<TradeTick>)
    requires index >= 1
    ensures count == 1 && result == None
  {
    var c := new DataCache();
    c.AddTradeTick(tick);
    result := c.TradeTick(tick.symbol, index);
    count := c.TradeTickCount(tick.symbol);
  }

  /** With one bar held, index 1 is absent and the count stays 1. */
  method BarPastEnd(barType: BarType, bar: Bar, index: nat)
    returns (count: nat, result: Option<Bar>)
    requires index >= 1
    ensures count == 1 && result == None
  {
    var c := new DataCache();
    c.AddBar(barType, bar);
    result := c.Bar(barType, index);
    count := c.BarCount(barType);
  }

  /** Bulk-adding `[tick]` to an empty cache stores exactly `[tick]`. */
  method BulkQuoteTicksIntoEmpty(tick: QuoteTick) returns (stored: seq<QuoteTick>)
    ensures stored == [tick]
  {
    var c := new DataCache();
    c.AddQuoteTicks([tick]);
    assert [tick][1..] == [];
    stored := c.QuoteTicks(tick.symbol);
  }

  /** Bulk-adding `[tick]` after a single add of `tick` leaves `[tick]`. */
  method BulkQuoteTicksAfterSingle(tick: QuoteTick) returns (stored: seq<QuoteTick>)
    ensures stored == [tick]
  {
    var c := new DataCache();
    c.AddQuoteTick(tick);
    ghost var before := c.quoteTickMap;
    c.AddQuoteTicks([tick]);
    BulkAddKeepsHeld(before, [tick], QuoteSymbol, tick.symbol);
    stored := c.QuoteTicks(tick.symbol);
  }

  /** Bulk-adding `[tick]` to an empty cache stores exactly `[tick]`. */
  method BulkTradeTicksIntoEmpty(tick: TradeTick) returns (stored: seq<TradeTick>)
    ensures stored == [tick]
  {
    var c := new DataCache();
    c.AddTradeTicks([tick]);
    assert [tick][1..] == [];
    stored := c.TradeTicks(tick.symbol);
  }

  /** Bulk-adding `[tick]` after a single add of `tick` leaves `[tick]`. */
  method BulkTradeTicksAfterSingle(tick: TradeTick) returns (stored: seq<TradeTick>)
    ensures stored == [tick]
  {
    var c := new DataCache();
    c.AddTradeTick(tick);
    ghost var before := c.tradeTickMap;
    c.AddTradeTicks([tick]);
    BulkAddKeepsHeld(before, [tick], TradeSymbol, tick.symbol);
    stored := c.TradeTicks(tick.symbol);
  }

  /** Bulk-adding `[bar]` to an empty bar type stores exactly `[bar]`. */
  method BulkBarsIntoEmpty(barType: BarType, bar: Bar) returns (stored: seq<Bar>)
    ensures stored == [bar]
  {
    var c := new DataCache();
    c.AddBars(barType, [bar]);
    assert [bar][1..] == [];
    stored := c.Bars(barType);
  }

  /** Bulk-adding `[bar]` after a single add of `bar` leaves `[bar]`. */
  method BulkBarsAfterSingle(barType: BarType, bar: Bar) returns (stored: seq<Bar>)
    ensures stored == [bar]
  {
    var c := new DataCache();
    c.AddBar(barType, bar);
    ghost var before := c.barMap;
    c.AddBars(barType, [bar]);
    BulkAddKeepsHeld(before, [bar], KeyedBy(barType), barType);
    stored := c.Bars(barType);
  }

  /**
   * One quote 1.00000/1.00001: BID and ASK are its sides, MID is 1.000005
   * exactly, LAST is absent.
   */
  method PricesOfOneQuote(symbol: Symbol, size: Quantity, timestamp: int)
    returns (bid: Option<Price>, ask: Option<Price>, mid: Option<Price>, last: Option<Price>)
    ensures bid == Some(Price(100000, 5)) && ask == Some(Price(100001, 5))
    ensures mid.Some? && mid.value.Value() == 1.000005 && mid.value.precision == 6
    ensures last == None
  {
    var c := new DataCache();
    c.AddQuoteTick(QuoteTick(symbol, Price(100000, 5), Price(100001, 5), size, size, timestamp));
    bid, ask, mid, last := c.Price(symbol, PriceType.Bid), c.Price(symbol, PriceType.Ask),
                           c.Price(symbol, PriceType.Mid), c.Price(symbol, PriceType.Last);
    assert Pow10(5) == 100000;
  }

  /** One trade at 1.00000: LAST is its price; MID is absent. */
  method PricesOfOneTrade(tick: TradeTick) returns (last: Option<Price>, mid: Option<Price>)
    ensures last == Some(tick.price) && mid == None
  {
    var c := new DataCache();
    c.AddTradeTick(tick);
    last, mid := c.Price(tick.symbol, PriceType.Last), c.Price(tick.symbol, PriceType.Mid);
  }

  /** Converting a currency into itself gives exactly 1, whatever the cache holds. */
  method XRateSameCurrency(c: DataCache, venue: Venue, currency: Currency) returns (rate: Option<real>)
    requires c.Valid()
    ensures rate == Some(1.0)
  {
    rate := c.GetXRate(venue, currency, currency);
  }

  /** AUD/USD quoted 0.80000/0.80010: AUD into USD is 0.80005. */
  method XRateDirectPair(venue: Venue, size: Quantity, timestamp: int) returns (rate: Option<real>)
    ensures rate == Some(0.80005)
  {
    var c := new DataCache();
    var audusd := Instrument(Symbol("AUD/USD", venue), Currency("AUD"), Currency("USD"));
    c.AddInstrument(audusd);
    var tick := QuoteTick(audusd.symbol, Price(80000, 5), Price(80010, 5), size, size, timestamp);
    c.AddQuoteTick(tick);
    assert c.Instruments() == [audusd];
    assert Pow10(5) == 100000;
    Pricing.XRateDirect(c.Instruments(), c.quoteTickMap, venue, Currency("AUD"), Currency("USD"), 0, tick);
    rate := c.GetXRate(venue, Currency("AUD"), Currency("USD"));
  }

  /** USD/JPY quoted 110.80000/110.80010: JPY into USD is exactly 1 / 110.80005. */
  method XRateInversePair(venue: Venue, size: Quantity, timestamp: int) returns (rate: Option<real>)
    ensures rate == Some(1.0 / 110.80005)
  {
    var c := new DataCache();
    var usdjpy := Instrument(Symbol("USD/JPY", venue), Currency("USD"), Currency("JPY"));
    c.AddInstrument(usdjpy);
    var tick := QuoteTick(usdjpy.symbol, Price(11080000, 5), Price(11080010, 5), size, size, timestamp);
    c.AddQuoteTick(tick);
    assert c.Instruments() == [usdjpy];
    assert Pow10(5) == 100000;
    Pricing.XRateInverse(c.Instruments(), c.quoteTickMap, venue, Currency("JPY"), Currency("USD"), 0, tick);
    rate := c.GetXRate(venue, Currency("JPY"), Currency("USD"));
  }
}
