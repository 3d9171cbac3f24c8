/**
 * The in-memory market-data cache: instruments keyed by symbol, one
 * newest-first quote-tick series and one trade-tick series per symbol, one
 * newest-first bar series per bar type, and the queries over them.
 */
module Cache {
  import opened Common
  import opened Market
  import opened Series
  import Pricing

  /** The instruments of `order`, in that order. */
  function InstrumentsIn(order: seq<Symbol>, m: map<Symbol, Instrument>): (r: seq<Instrument>)
    requires forall s :: s in order ==> s in m
    ensures |r| == |order|
    ensures forall k :: 0 <= k < |r| ==> r[k] == m[order[k]]
  {
    if order == [] then [] else [m[order[0]]] + InstrumentsIn(order[1..], m)
  }

  class DataCache {
    var instrumentMap: map<Symbol, Instrument>
    /** The symbols of the instruments, in the order they were first added. */
    var symbolOrder: seq<Symbol>
    var quoteTickMap: map<Symbol, seq<QuoteTick>>
    var tradeTickMap: map<Symbol, seq<TradeTick>>
    var barMap: map<BarType, seq<Bar>>

    ghost predicate Valid()
      reads this
    {
      && (forall s :: s in symbolOrder <==> s in instrumentMap)
      && (forall i, j :: 0 <= i < j < |symbolOrder| ==> symbolOrder[i] != symbolOrder[j])
      && (forall s :: s in instrumentMap ==> instrumentMap[s].symbol == s)
    }

    /** Nothing is stored: the state of a fresh or reset cache. */
    predicate IsEmpty()
      reads this
    {
      instrumentMap == map[] && symbolOrder == [] && quoteTickMap == map[] && tradeTickMap == map[] && barMap == map[]
    }

    constructor ()
      ensures Valid() && IsEmpty()
    {
      instrumentMap, symbolOrder := map[], [];
      quoteTickMap, tradeTickMap, barMap := map[], map[], map[];
    }

    /** Clears every instrument, tick and bar; the cache object itself stays. */
    method Reset()
      modifies this
      ensures Valid() && IsEmpty()
    {
      instrumentMap, symbolOrder := map[], [];
      quoteTickMap, tradeTickMap, barMap := map[], map[], map[];
    }

    /** Adds an instrument for a symbol not yet known; a known symbol keeps its instrument. */
    method AddInstrument(instrument: Instrument)
      requires Valid()
      modifies this
      ensures Valid()
      ensures old(instrument.symbol in instrumentMap) ==>
                instrumentMap == old(instrumentMap) && symbolOrder == old(symbolOrder)
      ensures old(instrument.symbol !in instrumentMap) ==>
                && instrumentMap == old(instrumentMap)[instrument.symbol := instrument]
                && symbolOrder == old(symbolOrder) + [instrument.symbol]
      ensures quoteTickMap == old(quoteTickMap) && tradeTickMap == old(tradeTickMap) && barMap == old(barMap)
    {
      if instrument.symbol !in instrumentMap {
        instrumentMap := instrumentMap[instrument.symbol := instrument];
        symbolOrder := symbolOrder + [instrument.symbol];
      }
    }

    /** Adds a quote as the newest of its symbol, unless it repeats the newest one. */
    method AddQuoteTick(tick: QuoteTick)
      requires Valid()
      modifies this
      ensures Valid()
      ensures quoteTickMap == old(quoteTickMap)[tick.symbol := Push(old(QuoteTicks(tick.symbol)), tick)]
      ensures instrumentMap == old(instrumentMap) && symbolOrder == old(symbolOrder)
      ensures tradeTickMap == old(tradeTickMap) && barMap == old(barMap)
    {
      quoteTickMap := quoteTickMap[tick.symbol := Push(QuoteTicks(tick.symbol), tick)];
    }

    /**
     * Adds a list of quotes: a symbol that held quotes when the call began
     * receives none of them; the others are added one by one in list order.
     */
    method AddQuoteTicks(ticks: seq<QuoteTick>)
      requires Valid()
      modifies this
      ensures Valid()
      ensures quoteTickMap == BulkAdd(old(quoteTickMap), Held(old(quoteTickMap)), ticks, QuoteSymbol)
      ensures instrumentMap == old(instrumentMap) && symbolOrder == old(symbolOrder)
      ensures tradeTickMap == old(tradeTickMap) && barMap == old(barMap)
    {
      var held := Held(quoteTickMap);
      var i := 0;
      while i < |ticks|
        invariant 0 <= i <= |ticks| && Valid()
        invariant BulkAdd(quoteTickMap, held, ticks[i..], QuoteSymbol)
                  == BulkAdd(old(quoteTickMap), held, ticks, QuoteSymbol)
        invariant instrumentMap == old(instrumentMap) && symbolOrder == old(symbolOrder)
        invariant tradeTickMap == old(tradeTickMap) && barMap == old(barMap)
      {
        BulkAddStep(quoteTickMap, held, ticks[i..], QuoteSymbol);
        assert ticks[i..][0] == ticks[i] && ticks[i..][1..] == ticks[i + 1..];
        if ticks[i].symbol !in held {
          AddQuoteTick(ticks[i]);
        }
        i := i + 1;
      }
    }

    /** Adds a trade as the newest of its symbol, unless it repeats the newest one. */
    method AddTradeTick(tick: TradeTick)
      requires Valid()
      modifies this
      ensures Valid()
      ensures tradeTickMap == old(tradeTickMap)[tick.symbol := Push(old(TradeTicks(tick.symbol)), tick)]
      ensures instrumentMap == old(instrumentMap) && symbolOrder == old(symbolOrder)
      ensures quoteTickMap == old(quoteTickMap) && barMap == old(barMap)
    {
      tradeTickMap := tradeTickMap[tick.symbol := Push(TradeTicks(tick.symbol), tick)];
    }

    /**
     * Adds a list of trades: a symbol that held trades when the call began
     * receives none of them; the others are added one by one in list order.
     */
    method AddTradeTicks(ticks: seq<TradeTick>)
      requires Valid()
      modifies this
      ensures Valid()
      ensures tradeTickMap == BulkAdd(old(tradeTickMap), Held(old(tradeTickMap)), ticks, TradeSymbol)
      ensures instrumentMap == old(instrumentMap) && symbolOrder == old(symbolOrder)
      ensures quoteTickMap == old(quoteTickMap) && barMap == old(barMap)
    {
      var held := Held(tradeTickMap);
      var i := 0;
      while i < |ticks|
        invariant 0 <= i <= |ticks| && Valid()
        invariant BulkAdd(tradeTickMap, held, ticks[i..], TradeSymbol)
                  == BulkAdd(old(tradeTickMap), held, ticks, TradeSymbol)
        invariant instrumentMap == old(instrumentMap) && symbolOrder == old(symbolOrder)
        invariant quoteTickMap == old(quoteTickMap) && barMap == old(barMap)
      {
        BulkAddStep(tradeTickMap, held, ticks[i..], TradeSymbol);
        assert ticks[i..][0] == ticks[i] && ticks[i..][1..] == ticks[i + 1..];
        if ticks[i].symbol !in held {
          AddTradeTick(ticks[i]);
        }
        i := i + 1;
      }
    }

    /** Adds a bar as the newest of its bar type, unless it repeats the newest one. */
    method AddBar(barType: BarType, bar: Bar)
      requires Valid()
      modifies this
      ensures Valid()
      ensures barMap == old(barMap)[barType := Push(old(Bars(barType)), bar)]
      ensures instrumentMap == old(instrumentMap) && symbolOrder == old(symbolOrder)
      ensures quoteTickMap == old(quoteTickMap) && tradeTickMap == old(tradeTickMap)
    {
      barMap := barMap[barType := Push(Bars(barType), bar)];
    }

    /**
     * Adds a list of bars of one bar type: nothing when that type held bars
     * when the call began, otherwise each bar in list order.
     */
    method AddBars(barType: BarType, bars: seq<Bar>)
      requires Valid()
      modifies this
      ensures Valid()
      ensures barMap == BulkAdd(old(barMap), Held(old(barMap)), bars, KeyedBy(barType))
      ensures instrumentMap == old(instrumentMap) && symbolOrder == old(symbolOrder)
      ensures quoteTickMap == old(quoteTickMap) && tradeTickMap == old(tradeTickMap)
    {
      var held := Held(barMap);
      var i := 0;
      while i < |bars|
        invariant 0 <= i <= |bars| && Valid()
        invariant BulkAdd(barMap, held, bars[i..], KeyedBy(barType))
                  == BulkAdd(old(barMap), held, bars, KeyedBy(barType))
        invariant instrumentMap == old(instrumentMap) && symbolOrder == old(symbolOrder)
        invariant quoteTickMap == old(quoteTickMap) && tradeTickMap == old(tradeTickMap)
      {
        BulkAddStep(barMap, held, bars[i..], KeyedBy(barType));
        assert bars[i..][0] == bars[i] && bars[i..][1..] == bars[i + 1..];
        if barType !in held {
          AddBar(barType, bars[i]);
        }
        i := i + 1;
      }
    }

    // ----- queries -----

    /** The symbols of all instruments, each once, in the order they were added. */
    function Symbols(): (r: seq<Symbol>)
      reads this
      requires Valid()
      ensures forall s :: s in r <==> s in instrumentMap
      ensures forall i, j :: 0 <= i < j < |r| ==> r[i] != r[j]
    {
      symbolOrder
    }

    /** All instruments, in the order their symbols were added. */
    function Instruments(): (r: seq<Instrument>)
      reads this
      requires Valid()
      ensures |r| == |Symbols()|
      ensures forall k :: 0 <= k < |r| ==> r[k].symbol == Symbols()[k] && Instrument(r[k].symbol) == Some(r[k])
    {
      InstrumentsIn(symbolOrder, instrumentMap)
    }

    /** The instrument of `symbol`, or `None` when the symbol is unknown. */
    function Instrument(symbol: Symbol): (r: Option<Instrument>)
      reads this
      requires Valid()
      ensures r.Some? <==> symbol in Symbols()
      ensures r.Some? ==> r.value.symbol == symbol
    {
      if symbol in instrumentMap then Some(instrumentMap[symbol]) else None
    }

    /** All quotes of `symbol`, newest first; empty exactly when none is held. */
    function QuoteTicks(symbol: Symbol): (r: seq<QuoteTick>)
      reads this
      ensures r == [] <==> symbol !in Held(quoteTickMap)
      ensures symbol in quoteTickMap ==> r == quoteTickMap[symbol]
    {
      Get(quoteTickMap, symbol)
    }

    /** All trades of `symbol`, newest first; empty exactly when none is held. */
    function TradeTicks(symbol: Symbol): (r: seq<TradeTick>)
      reads this
      ensures r == [] <==> symbol !in Held(tradeTickMap)
      ensures symbol in tradeTickMap ==> r == tradeTickMap[symbol]
    {
      Get(tradeTickMap, symbol)
    }

    /** All bars of `barType`, newest first; empty exactly when none is held. */
    function Bars(barType: BarType): (r: seq<Bar>)
      reads this
      ensures r == [] <==> barType !in Held(barMap)
      ensures barType in barMap ==> r == barMap[barType]
    {
      Get(barMap, barType)
    }

    /** The quote at newest-first position `index`, or `None` past the end or for an unknown symbol. */
    function QuoteTick(symbol: Symbol, index: nat): (r: Option<QuoteTick>)
      reads this
      ensures r.Some? <==> index < QuoteTickCount(symbol)
      ensures r.Some? ==> r.value == QuoteTicks(symbol)[index]
    {
      At(QuoteTicks(symbol), index)
    }

    function TradeTick(symbol: Symbol, index: nat): (r: Option<TradeTick>)
      reads this
      ensures r.Some? <==> index < TradeTickCount(symbol)
      ensures r.Some? ==> r.value == TradeTicks(symbol)[index]
    {
      At(TradeTicks(symbol), index)
    }

    function Bar(barType: BarType, index: nat): (r: Option<Bar>)
      reads this
      ensures r.Some? <==> index < BarCount(barType)
      ensures r.Some? ==> r.value == Bars(barType)[index]
    {
      At(Bars(barType), index)
    }

    /** The number of quotes held for `symbol`: positive exactly for a symbol a bulk add skips. */
    function QuoteTickCount(symbol: Symbol): (r: nat)
      reads this
      ensures r > 0 <==> symbol in Held(quoteTickMap)
    {
      |QuoteTicks(symbol)|
    }

    /** The number of trades held for `symbol`: positive exactly for a symbol a bulk add skips. */
    function TradeTickCount(symbol: Symbol): (r: nat)
      reads this
      ensures r > 0 <==> symbol in Held(tradeTickMap)
    {
      |TradeTicks(symbol)|
    }

    /** The number of bars held for `barType`: positive exactly for a bar type a bulk add skips. */
    function BarCount(barType: BarType): (r: nat)
      reads this
      ensures r > 0 <==> barType in Held(barMap)
    {
      |Bars(barType)|
    }

    /** Whether `symbol` has a quote: exactly when index 0 holds one. */
    function HasQuoteTicks(symbol: Symbol): (r: bool)
      reads this
      ensures r <==> QuoteTick(symbol, 0).Some?
    {
      QuoteTickCount(symbol) > 0
    }

    /** Whether `symbol` has a trade: exactly when index 0 holds one. */
    function HasTradeTicks(symbol: Symbol): (r: bool)
      reads this
      ensures r <==> TradeTick(symbol, 0).Some?
    {
      TradeTickCount(symbol) > 0
    }

    /** Whether `barType` has a bar: exactly when index 0 holds one. */
    function HasBars(barType: BarType): (r: bool)
      reads this
      ensures r <==> Bar(barType, 0).Some?
    {
      BarCount(barType) > 0
    }

    /** The representative price of `symbol` for `priceType`, or `None` without the needed ticks. */
    function Price(symbol: Symbol, priceType: PriceType): (r: Option<Price>)
      reads this
      requires priceType == Mid ==> Pricing.NewestSamePrecision(QuoteTicks(symbol))
      ensures priceType == Last ==> (r.Some? <==> HasTradeTicks(symbol))
      ensures priceType == Last && r.Some? ==> r.value == TradeTicks(symbol)[0].price
      ensures priceType == Bid ==> (r.Some? <==> HasQuoteTicks(symbol))
      ensures priceType == Bid && r.Some? ==> r.value == QuoteTicks(symbol)[0].bid
      ensures priceType == Ask ==> (r.Some? <==> HasQuoteTicks(symbol))
      ensures priceType == Ask && r.Some? ==> r.value == QuoteTicks(symbol)[0].ask
      ensures priceType == Mid ==> (r.Some? <==> HasQuoteTicks(symbol))
      ensures priceType == Mid && r.Some? ==> r.value.precision == QuoteTicks(symbol)[0].bid.precision + 1
      ensures priceType == Mid && r.Some? ==>
                r.value.Value() == (QuoteTicks(symbol)[0].bid.Value() + QuoteTicks(symbol)[0].ask.Value()) / 2.0
    {
      Pricing.PriceOf(QuoteTicks(symbol), TradeTicks(symbol), priceType)
    }

    /** The rate converting `from` into `to` at `venue`, from the instruments and newest quotes held. */
    function GetXRate(venue: Venue, from: Currency, to: Currency): (r: Option<real>)
      reads this
      requires Valid() && Pricing.XRateDefined(Instruments(), quoteTickMap, venue, from, to)
      ensures from == to ==> r == Some(1.0)
    {
      Pricing.XRate(Instruments(), quoteTickMap, venue, from, to)
    }
  }

  /** Files every bar under the one bar type a bulk call names. */
  function KeyedBy(barType: BarType): Bar -> BarType {
    bar => barType
  }
}
