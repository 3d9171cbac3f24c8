/**
 * The value types the data cache stores: identifiers, fixed-point prices and
 * quantities, quote and trade ticks, bars and bar types.
 */
module Market {

  /** Ten to the power `n`. */
  function Pow10(n: nat): (r: nat)
    ensures r >= 1
  {
    if n == 0 then 1 else 10 * Pow10(n - 1)
  }

  datatype Venue = Venue(name: string)

  /** A tradable symbol: its code ("AUD/USD") at a venue. */
  datatype Symbol = Symbol(code: string, venue: Venue)

  /** An ISO currency code ("AUD", "USD", "JPY"). */
  datatype Currency = Currency(code: string)

  /**
   * Reference data for one symbol. Only the parts the cache reads are kept:
   * the symbol and the two currencies of the pair.
   */
  datatype Instrument = Instrument(symbol: Symbol, baseCurrency: Currency, quoteCurrency: Currency)

  /** A fixed-point decimal: `mantissa` units of 10^-precision. */
  datatype Price = Price(mantissa: int, precision: nat) {
    /** The exact value of the price. */
    function Value(): real {
      mantissa as real / Pow10(precision) as real
    }
  }

  /** A fixed-point decimal size. */
  datatype Quantity = Quantity(mantissa: nat, precision: nat)

  datatype PriceType = Bid | Ask | Mid | Last

  datatype Maker = Buyer | Seller

  datatype QuoteTick = QuoteTick(symbol: Symbol, bid: Price, ask: Price,
                                 bidSize: Quantity, askSize: Quantity, timestamp: int)

  datatype TradeTick = TradeTick(symbol: Symbol, price: Price, size: Quantity,
                                 maker: Maker, matchId: string, timestamp: int)

  datatype BarAggregation = Second | Minute | Hour | Day

  /** The key of one bar series: symbol, step, aggregation unit and price type. */
  datatype BarType = BarType(symbol: Symbol, step: nat, aggregation: BarAggregation, priceType: PriceType)

  datatype Bar = Bar(open: Price, high: Price, low: Price, close: Price, volume: Quantity, timestamp: int)

  function QuoteSymbol(tick: QuoteTick): Symbol { tick.symbol }

  function TradeSymbol(tick: TradeTick): Symbol { tick.symbol }

  /**
   * Bid and ask of a quote share one precision; arithmetic between prices of
   * different precision is a contract violation.
   */
  predicate SamePrecision(tick: QuoteTick) {
    tick.bid.precision == tick.ask.precision
  }

  /**
   * The mid price (bid + ask) / 2 of a quote, exact: it carries one more
   * decimal digit than the quote.
   */
  function MidPrice(tick: QuoteTick): (r: Price)
    requires SamePrecision(tick)
    ensures r.precision == tick.bid.precision + 1
    ensures r.Value() == (tick.bid.Value() + tick.ask.Value()) / 2.0
    ensures tick.bid.Value() <= tick.ask.Value() ==> tick.bid.Value() <= r.Value() <= tick.ask.Value()
  {
    var p := tick.bid.precision;
    var r := Price((tick.bid.mantissa + tick.ask.mantissa) * 5, p + 1);
    MidValue(tick.bid.mantissa, tick.ask.mantissa, Pow10(p) as real);
    r
  }

  lemma MidValue(b: int, a: int, d: real)
    requires d >= 1.0
    ensures ((b + a) * 5) as real / (10.0 * d) == (b as real / d + a as real / d) / 2.0
  {
    calc {
      ((b + a) * 5) as real / (10.0 * d);
      (b + a) as real * 5.0 / (10.0 * d);
      (b + a) as real / (2.0 * d);
    }
  }
}
