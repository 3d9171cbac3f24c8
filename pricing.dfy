/**
 * Prices derived from the newest ticks of a symbol, and exchange rates
 * derived from the instruments of a venue and their newest quotes.
 */
module Pricing {
  import opened Common
  import opened Market
  import Series

  /** The newest quote of a series, if any, has bid and ask of one precision, so its mid exists. */
  predicate NewestSamePrecision(quotes: seq<QuoteTick>) {
    quotes != [] ==> SamePrecision(quotes[0])
  }

  /**
   * The representative price of a symbol from its newest-first quote and trade
   * series: LAST from the newest trade, BID, ASK and MID from the newest quote.
   */
  function PriceOf(quotes: seq<QuoteTick>, trades: seq<TradeTick>, priceType: PriceType): (r: Option<Price>)
    requires priceType == Mid ==> NewestSamePrecision(quotes)
    ensures priceType == Last ==> (r.Some? <==> trades != []) && (r.Some? ==> r.value == trades[0].price)
    ensures priceType == Bid ==> (r.Some? <==> quotes != []) && (r.Some? ==> r.value == quotes[0].bid)
    ensures priceType == Ask ==> (r.Some? <==> quotes != []) && (r.Some? ==> r.value == quotes[0].ask)
    ensures priceType == Mid ==> (r.Some? <==> quotes != [])
    ensures priceType == Mid && r.Some? ==>
              && r.value.precision == quotes[0].bid.precision + 1
              && r.value.Value() == (quotes[0].bid.Value() + quotes[0].ask.Value()) / 2.0
  {
    match priceType
    case Last => if trades == [] then None else Some(trades[0].price)
    case Bid => if quotes == [] then None else Some(quotes[0].bid)
    case Ask => if quotes == [] then None else Some(quotes[0].ask)
    case Mid => if quotes == [] then None else Some(MidPrice(quotes[0]))
  }

  /** Quotes never feed LAST. */
  lemma LastIgnoresQuotes(q1: seq<QuoteTick>, q2: seq<QuoteTick>, trades: seq<TradeTick>)
    ensures PriceOf(q1, trades, Last) == PriceOf(q2, trades, Last)
  {
  }

  /** Trades never feed BID, ASK or MID. */
  lemma QuotePricesIgnoreTrades(quotes: seq<QuoteTick>, t1: seq<TradeTick>, t2: seq<TradeTick>, priceType: PriceType)
    requires priceType == Mid ==> NewestSamePrecision(quotes)
    requires priceType != Last
    ensures PriceOf(quotes, t1, priceType) == PriceOf(quotes, t2, priceType)
  {
  }

  /** The instrument trades `base` against `quote` at `venue`. */
  predicate IsPair(instrument: Instrument, venue: Venue, base: Currency, quote: Currency) {
    && instrument.symbol.venue == venue
    && instrument.baseCurrency == base
    && instrument.quoteCurrency == quote
  }

  /** The position of the first instrument of `instruments` that is the pair `base/quote` at `venue`. */
  function FindPair(instruments: seq<Instrument>, venue: Venue, base: Currency, quote: Currency): (r: Option<nat>)
    ensures r.Some? ==> r.value < |instruments| && IsPair(instruments[r.value], venue, base, quote)
    ensures r.Some? ==> forall k :: 0 <= k < r.value ==> !IsPair(instruments[k], venue, base, quote)
    ensures r.None? ==> forall k :: 0 <= k < |instruments| ==> !IsPair(instruments[k], venue, base, quote)
  {
    if instruments == [] then None
    else if IsPair(instruments[0], venue, base, quote) then Some(0)
    else match FindPair(instruments[1..], venue, base, quote)
      case None => None
      case Some(k) => Some(k + 1)
  }

  /** The first matching position is the one `FindPair` reports. */
  lemma FindPairIsFirst(instruments: seq<Instrument>, venue: Venue, base: Currency, quote: Currency, k: nat)
    requires k < |instruments| && IsPair(instruments[k], venue, base, quote)
    requires forall j :: 0 <= j < k ==> !IsPair(instruments[j], venue, base, quote)
    ensures FindPair(instruments, venue, base, quote) == Some(k)
  {
  }

  /** The exact mid of the newest quote of a series, if any. */
  function MidRate(quotes: seq<QuoteTick>): (r: Option<real>)
    requires NewestSamePrecision(quotes)
    ensures r.Some? <==> quotes != []
    ensures r.Some? ==> r.value == (quotes[0].bid.Value() + quotes[0].ask.Value()) / 2.0
  {
    if quotes == [] then None else Some(MidPrice(quotes[0]).Value())
  }

  /** The reciprocal of a rate; a zero rate has none. */
  function Invert(rate: Option<real>): (r: Option<real>)
    ensures r.Some? <==> rate.Some? && rate.value != 0.0
    ensures r.Some? ==> r.value * rate.value == 1.0
  {
    match rate
    case None => None
    case Some(x) => if x == 0.0 then None else Some(1.0 / x)
  }

  /**
   * The mid `XRate` needs is defined: the newest quote of the first direct
   * pair or, without one, of the first inverse pair has one precision.
   */
  predicate XRateDefined(instruments: seq<Instrument>, quotes: map<Symbol, seq<QuoteTick>>,
                         venue: Venue, from: Currency, to: Currency) {
    from != to ==>
      match FindPair(instruments, venue, from, to)
      case Some(k) => NewestSamePrecision(Series.Get(quotes, instruments[k].symbol))
      case None =>
        match FindPair(instruments, venue, to, from)
        case Some(k) => NewestSamePrecision(Series.Get(quotes, instruments[k].symbol))
        case None => true
  }

  /**
   * The rate converting `from` into `to` at `venue`: exactly 1 for one
   * currency; otherwise the newest quote mid of the first direct pair
   * `from/to`, or, when there is no direct pair, the reciprocal of the newest
   * quote mid of the first inverse pair `to/from`; absent otherwise.
   */
  function XRate(instruments: seq<Instrument>, quotes: map<Symbol, seq<QuoteTick>>,
                 venue: Venue, from: Currency, to: Currency): (r: Option<real>)
    requires XRateDefined(instruments, quotes, venue, from, to)
    ensures from == to ==> r == Some(1.0)
    ensures from != to && r.Some? ==>
              exists k :: 0 <= k < |instruments| &&
                (IsPair(instruments[k], venue, from, to) || IsPair(instruments[k], venue, to, from))
  {
    if from == to then Some(1.0)
    else match FindPair(instruments, venue, from, to)
      case Some(k) => MidRate(Series.Get(quotes, instruments[k].symbol))
      case None =>
        match FindPair(instruments, venue, to, from)
        case Some(k) => Invert(MidRate(Series.Get(quotes, instruments[k].symbol)))
        case None => None
  }

  /** With a direct pair, the rate is the exact mid of its newest quote. */
  lemma XRateDirect(instruments: seq<Instrument>, quotes: map<Symbol, seq<QuoteTick>>,
                    venue: Venue, from: Currency, to: Currency, k: nat, tick: QuoteTick)
    requires from != to && SamePrecision(tick)
    requires k < |instruments| && IsPair(instruments[k], venue, from, to)
    requires forall j :: 0 <= j < k ==> !IsPair(instruments[j], venue, from, to)
    requires Series.At(Series.Get(quotes, instruments[k].symbol), 0) == Some(tick)
    ensures XRateDefined(instruments, quotes, venue, from, to)
    ensures XRate(instruments, quotes, venue, from, to) == Some((tick.bid.Value() + tick.ask.Value()) / 2.0)
  {
    FindPairIsFirst(instruments, venue, from, to, k);
  }

  /** With only an inverse pair, the rate is the reciprocal of its newest quote's exact mid. */
  lemma XRateInverse(instruments: seq<Instrument>, quotes: map<Symbol, seq<QuoteTick>>,
                     venue: Venue, from: Currency, to: Currency, k: nat, tick: QuoteTick)
    requires from != to && SamePrecision(tick)
    requires forall j :: 0 <= j < |instruments| ==> !IsPair(instruments[j], venue, from, to)
    requires k < |instruments| && IsPair(instruments[k], venue, to, from)
    requires forall j :: 0 <= j < k ==> !IsPair(instruments[j], venue, to, from)
    requires Series.At(Series.Get(quotes, instruments[k].symbol), 0) == Some(tick)
    requires tick.bid.Value() + tick.ask.Value() != 0.0
    ensures XRateDefined(instruments, quotes, venue, from, to)
    ensures XRate(instruments, quotes, venue, from, to) == Some(2.0 / (tick.bid.Value() + tick.ask.Value()))
  {
    FindPairIsFirst(instruments, venue, to, from, k);
    assert FindPair(instruments, venue, from, to) == None;
    var sum := tick.bid.Value() + tick.ask.Value();
    assert 1.0 / (sum / 2.0) == 2.0 / sum;
  }

  /**
   * A direct pair without quotes gives no rate: the inverse pair is consulted
   * only when there is no direct pair at all.
   */
  lemma XRateDirectWithoutQuotes(instruments: seq<Instrument>, quotes: map<Symbol, seq<QuoteTick>>,
                                 venue: Venue, from: Currency, to: Currency, k: nat)
    requires from != to
    requires k < |instruments| && IsPair(instruments[k], venue, from, to)
    requires forall j :: 0 <= j < k ==> !IsPair(instruments[j], venue, from, to)
    requires Series.Get(quotes, instruments[k].symbol) == []
    ensures XRateDefined(instruments, quotes, venue, from, to)
    ensures XRate(instruments, quotes, venue, from, to) == None
  {
    FindPairIsFirst(instruments, venue, from, to, k);
  }

  /** Without a direct or an inverse pair at the venue, no rate is available. */
  lemma XRateUnavailable(instruments: seq<Instrument>, quotes: map<Symbol, seq<QuoteTick>>,
                         venue: Venue, from: Currency, to: Currency)
    requires from != to
    requires forall j :: 0 <= j < |instruments| ==> !IsPair(instruments[j], venue, from, to)
    requires forall j :: 0 <= j < |instruments| ==> !IsPair(instruments[j], venue, to, from)
    ensures XRateDefined(instruments, quotes, venue, from, to)
    ensures XRate(instruments, quotes, venue, from, to) == None
  {
  }

  /**
   * When a venue lists a pair in one direction only, the rate the other way
   * is the reciprocal of this one, and there is none when this one is missing
   * or zero.
   */
  lemma {:induction false} XRateReciprocal(instruments: seq<Instrument>, quotes: map<Symbol, seq<QuoteTick>>,
                                           venue: Venue, from: Currency, to: Currency)
    requires from != to && XRateDefined(instruments, quotes, venue, from, to)
    requires forall j :: 0 <= j < |instruments| ==> !IsPair(instruments[j], venue, to, from)
    ensures XRateDefined(instruments, quotes, venue, to, from)
    ensures XRate(instruments, quotes, venue, to, from) == Invert(XRate(instruments, quotes, venue, from, to))
  {
    assert FindPair(instruments, venue, to, from) == None;
    match FindPair(instruments, venue, from, to)
    case None =>
    case Some(k) =>
      var rate := MidRate(Series.Get(quotes, instruments[k].symbol));
      assert XRate(instruments, quotes, venue, from, to) == rate;
      assert XRate(instruments, quotes, venue, to, from) == Invert(rate);
  }
}
