# Market-data cache, UUID value and strategy configuration: a Dafny model

This project models three parts of a Python/Cython algorithmic-trading
platform and proves properties of each.

- **The in-memory market-data cache** (`DataCache`). It holds instruments
  keyed by symbol. It holds one newest-first series of quote ticks and one of
  trade ticks per symbol, and one newest-first series of bars per bar type.
  It answers queries for series, counts, single entries by index,
  representative prices (BID, ASK, MID, LAST) and exchange rates between
  currencies at a venue. The implementation of the cache is not part of this
  model: its unit tests define the behaviour, and the model proves each test
  for every input of the tested shape.
  - `series.dfy` holds the newest-first series and the add and bulk-add rules.
  - `market.dfy` holds the value types (symbols, fixed-point prices, ticks, bars).
  - `pricing.dfy` holds prices and exchange rates.
  - `data_cache.dfy` holds the `DataCache` class. Its fields are maps that the
    add methods reassign.
  - `cache_scenarios.dfy` holds the unit tests restated as verified methods
    over fresh caches.
- **The UUID value object** (`uuid.dfy`, with big-endian and bitwise
  arithmetic on unbounded naturals in `bits.dfy`). It covers:
  - the 16 bytes and the integer, hex, string and `repr` forms;
  - the little-endian bytes;
  - the six fields of section 4.1.2 of RFC 4122, the 60-bit time and the
    14-bit clock sequence;
  - equality.

  The UUID implementation is not part of this model either; its unit tests
  and Python's `uuid` conventions define it. Every concrete value the tests
  check is proved for the test UUID (`12 34 56 78` four times).
- **Importable strategy configuration** (`strategy_config.dfy`), from
  `nautilus_trader/trading/config.py`. It covers:
  - the defaults of `TradingStrategyConfig`;
  - `_check_path`, and the `module` and `cls` properties, which split
    `"path.to.module:Class"`;
  - the `ValueError` guard of `StrategyFactory.create` and which branch it
    takes.

  The import and the `exec` are not modelled: an outcome names the branch
  taken and what it would be given.

Decisions where the sources leave room:

- **Adding one entry.** A tick or bar equal to the current newest entry of
  its series is not stored a second time.
- **Bulk adds.** Each item is keyed by its own symbol; bars go under the bar
  type named by the call. A symbol or bar type that held entries when the
  call began receives nothing from it. This follows the test
  `test_add_quote_ticks_when_already_ticks_does_not_add`. Into an empty
  series, items are added one by one in list order with the single-add rule.
- **Instruments.** Adding an instrument for a known symbol keeps the first
  one. `symbols()` and `instruments()` list symbols in insertion order.
- **Index arguments.** These are natural numbers. Python's negative indices
  are not modelled.
- **MID.** Computed exactly as (bid + ask) / 2, with one more decimal digit
  than the quote. Bid and ask must share a precision for a mid to be taken.
  The cache stores any quote; only the MID price and the exchange rate,
  which read the newest quote's mid, require it of that quote.
- **Exchange rates.** They are exact rationals (`real`):
  - the same currency gives 1;
  - otherwise the first direct pair `from/to` at the venue gives its newest
    quote's mid;
  - failing that, the first inverse pair `to/from` gives the reciprocal of
    its mid;
  - otherwise there is no rate.
- **`create` in `config.py`.** The source branch (config.py:81-86)
  evaluates `config.module`, whose `_check_path` (config.py:105-106) asserts
  that the path is set, so the branch raises before its `exec`. The model
  follows the code as written; the Findings section below has the details.

## Model

| member | source | states |
|---|---|---|
| Series.Push | tests/unit_tests/data/test_data_cache.py:415-443 | the added entry is at index 0; the old series follows it unchanged; the length grows by one unless the entry repeats the current newest |
| Series.PushAll | tests/unit_tests/data/test_data_cache.py:172-189 | a list added one by one grows the series by at most the list length |
| Series.PushAllNewest | tests/unit_tests/data/test_data_cache.py:172-189 | after a non-empty list is added one by one, its last entry is the newest, at index 0 |
| Series.At | tests/unit_tests/data/test_data_cache.py:395-413 | an index yields an entry exactly when it is below the series length, and then the entry at that newest-first position |
| Series.Held | tests/unit_tests/data/test_data_cache.py:191-209 | the keys that hold an entry are exactly those whose series is non-empty |
| Series.PushTwice | tests/unit_tests/data/test_data_cache.py:191-209 | delivering the same entry twice stores it once |
| Series.PushTwoDistinct | tests/unit_tests/data/test_data_cache.py:415-443 | two distinct entries added in turn: two more entries, the later at index 0, the earlier at index 1 |
| Series.PushAllOne | tests/unit_tests/data/test_data_cache.py:172-189 | a bulk add of one entry equals a single add |
| Series.PushAllNoRepeats | tests/unit_tests/data/test_data_cache.py:172-189 | a list without repeated neighbours, added to a series whose newest entry differs from the first item, ends up stored whole, newest first (reversed list followed by the old series) |
| Series.BulkAddEffect | tests/unit_tests/data/test_data_cache.py:191-209 | after a bulk add, a key held at the start is unchanged and every other key has received exactly its own items in list order |
| Series.BulkAddKeepsHeld | tests/unit_tests/data/test_data_cache.py:191-209 | a bulk add never changes a key that already held entries |
| Market.MidPrice | tests/unit_tests/data/test_data_cache.py:376-393 | the mid has one more decimal digit than the quote, equals (bid + ask) / 2 exactly, and lies between bid and ask |
| Pricing.PriceOf | tests/unit_tests/data/test_data_cache.py:308-393 | LAST exists exactly when a trade exists and is the newest trade's price; BID, ASK and MID exist exactly when a quote exists and are the newest quote's bid, ask and exact mid |
| Pricing.LastIgnoresQuotes | tests/unit_tests/data/test_data_cache.py:315-331 | the quotes held never change the LAST price |
| Pricing.QuotePricesIgnoreTrades | tests/unit_tests/data/test_data_cache.py:333-350 | the trades held never change the BID, ASK or MID price |
| Pricing.FindPair | tests/unit_tests/data/test_data_cache.py:547-595 | the reported position holds the pair at the venue and no earlier one does; no position means no instrument is that pair |
| Pricing.FindPairIsFirst | tests/unit_tests/data/test_data_cache.py:547-595 | the first matching position is the one reported |
| Pricing.MidRate | tests/unit_tests/data/test_data_cache.py:576-595 | a rate exists exactly when a quote exists, and is its exact mid |
| Pricing.Invert | tests/unit_tests/data/test_data_cache.py:547-566 | the reciprocal exists exactly for a non-zero rate, and multiplies with it to 1 |
| Pricing.XRate | tests/unit_tests/data/test_data_cache.py:547-595 | one currency converts at exactly 1; any other rate comes from a direct or inverse pair at the venue; only the newest quote of the pair read must share a precision |
| Pricing.XRateDirect | tests/unit_tests/data/test_data_cache.py:576-595 | with a direct pair, the rate is the exact mid of the first such pair's newest quote |
| Pricing.XRateInverse | tests/unit_tests/data/test_data_cache.py:547-566 | with only an inverse pair, the rate is 2 / (bid + ask) of its newest quote |
| Pricing.XRateDirectWithoutQuotes | tests/unit_tests/data/test_data_cache.py:547-595 | when the first direct pair holds no quote there is no rate: the inverse pair is not consulted |
| Pricing.XRateUnavailable | tests/unit_tests/data/test_data_cache.py:547-595 | with no direct and no inverse pair at the venue, there is no rate |
| Pricing.XRateReciprocal | tests/unit_tests/data/test_data_cache.py:547-595 | for a pair listed in one direction only, the rate the other way is defined whenever this one is, and is its reciprocal (their product is 1); there is none when this one is missing or zero |
| Cache.DataCache.constructor | tests/unit_tests/data/test_data_cache.py:49-51 | a new cache is well formed and holds nothing |
| Cache.DataCache.Reset | tests/unit_tests/data/test_data_cache.py:53-62 | after a reset the cache is well formed and holds nothing |
| Cache.DataCache.AddInstrument | tests/unit_tests/data/test_data_cache.py:148-170 | a new symbol is stored with its instrument and appended to the symbol order; a known symbol keeps its instrument; ticks and bars are unchanged |
| Cache.DataCache.AddQuoteTick | tests/unit_tests/data/test_data_cache.py:415-443 | any quote, whatever the precisions of its bid and ask, is accepted: the quote series of the tick's symbol becomes the single-add result; nothing else changes |
| Cache.DataCache.AddQuoteTicks | tests/unit_tests/data/test_data_cache.py:172-209 | any list of quotes is accepted: the quote map becomes the bulk-add result over the symbols held at the start; nothing else changes |
| Cache.DataCache.AddTradeTick | tests/unit_tests/data/test_data_cache.py:465-493 | the trade series of the tick's symbol becomes the single-add result; nothing else changes |
| Cache.DataCache.AddTradeTicks | tests/unit_tests/data/test_data_cache.py:211-248 | the trade map becomes the bulk-add result over the symbols held at the start; nothing else changes |
| Cache.DataCache.AddBar | tests/unit_tests/data/test_data_cache.py:516-545 | the series of the bar type becomes the single-add result; nothing else changes |
| Cache.DataCache.AddBars | tests/unit_tests/data/test_data_cache.py:250-289 | the bar map becomes the bulk-add result with every bar filed under the given type; nothing else changes |
| Cache.DataCache.Symbols | tests/unit_tests/data/test_data_cache.py:148-158 | each symbol of a stored instrument exactly once, and no other |
| Cache.DataCache.QuoteTicks | tests/unit_tests/data/test_data_cache.py:76-80 | the stored quote series of the symbol; empty exactly when the symbol holds no quote, in particular for an unknown symbol |
| Cache.DataCache.TradeTicks | tests/unit_tests/data/test_data_cache.py:82-86 | the stored trade series of the symbol; empty exactly when the symbol holds no trade, in particular for an unknown symbol |
| Cache.DataCache.Bars | tests/unit_tests/data/test_data_cache.py:88-92 | the stored bar series of the bar type; empty exactly when the type holds no bar, in particular for an unknown type |
| Cache.DataCache.QuoteTickCount | tests/unit_tests/data/test_data_cache.py:118-122 | positive exactly for a symbol that holds quotes, the symbols a bulk add leaves alone; zero for an unknown symbol |
| Cache.DataCache.TradeTickCount | tests/unit_tests/data/test_data_cache.py:124-128 | positive exactly for a symbol that holds trades, the symbols a bulk add leaves alone; zero for an unknown symbol |
| Cache.DataCache.BarCount | tests/unit_tests/data/test_data_cache.py:495-513 | positive exactly for a bar type that holds bars, the types a bulk add leaves alone |
| Cache.DataCache.HasQuoteTicks | tests/unit_tests/data/test_data_cache.py:130-134 | true exactly when a quote is found at index 0 |
| Cache.DataCache.HasTradeTicks | tests/unit_tests/data/test_data_cache.py:136-140 | true exactly when a trade is found at index 0 |
| Cache.DataCache.HasBars | tests/unit_tests/data/test_data_cache.py:142-146 | true exactly when a bar is found at index 0 |
| Cache.DataCache.Instruments | tests/unit_tests/data/test_data_cache.py:160-170 | one instrument per known symbol, in symbol order, each the instrument stored for its symbol |
| Cache.DataCache.Instrument | tests/unit_tests/data/test_data_cache.py:291-306 | an instrument exists exactly for a known symbol and carries that symbol |
| Cache.DataCache.QuoteTick | tests/unit_tests/data/test_data_cache.py:395-443 | a quote exists exactly for an index below the count, and is the entry at that newest-first position |
| Cache.DataCache.TradeTick | tests/unit_tests/data/test_data_cache.py:445-493 | a trade exists exactly for an index below the count, and is the entry at that newest-first position |
| Cache.DataCache.Bar | tests/unit_tests/data/test_data_cache.py:495-545 | a bar exists exactly for an index below the count, and is the entry at that newest-first position |
| Cache.DataCache.Price | tests/unit_tests/data/test_data_cache.py:308-393 | each price type exists exactly when the needed series is non-empty, and is taken from its newest entry; MID has one more decimal digit than that quote and is its exact mid |
| Cache.DataCache.GetXRate | tests/unit_tests/data/test_data_cache.py:568-574 | converting a currency into itself gives exactly 1; the rest is `Pricing.XRate` over the stored instruments and quotes |
| CacheScenarios.EmptyCacheAnswersNothing | tests/unit_tests/data/test_data_cache.py:64-146 | an empty cache answers every query with an empty list, nothing, zero or false, and has no rate between two currencies |
| CacheScenarios.ResetEmptiesEverything | tests/unit_tests/data/test_data_cache.py:53-62 | after a reset, the instruments, quotes, trades and bars are all empty |
| CacheScenarios.AddOneInstrument | tests/unit_tests/data/test_data_cache.py:148-170 | after one instrument is added, it is the only instrument and its symbol the only symbol |
| CacheScenarios.TwoQuoteTicksNewestFirst | tests/unit_tests/data/test_data_cache.py:415-443 | two distinct quotes: the count is 2, index 0 is the later quote, index 1 the earlier |
| CacheScenarios.TwoTradeTicksNewestFirst | tests/unit_tests/data/test_data_cache.py:465-493 | two distinct trades: the count is 2, index 0 is the later trade, index 1 the earlier |
| CacheScenarios.TwoBarsNewestFirst | tests/unit_tests/data/test_data_cache.py:516-545 | two distinct bars: the count is 2, index 0 is the later bar, index 1 the earlier |
| CacheScenarios.QuoteTickPastEnd | tests/unit_tests/data/test_data_cache.py:395-413 | with one quote held, any index from 1 gives nothing and the count is 1 |
| CacheScenarios.TradeTickPastEnd | tests/unit_tests/data/test_data_cache.py:445-463 | with one trade held, any index from 1 gives nothing and the count is 1 |
| CacheScenarios.BarPastEnd | tests/unit_tests/data/test_data_cache.py:495-514 | with one bar held, any index from 1 gives nothing and the count is 1 |
| CacheScenarios.BulkQuoteTicksIntoEmpty | tests/unit_tests/data/test_data_cache.py:172-189 | bulk-adding one quote to an empty cache stores exactly that quote |
| CacheScenarios.BulkQuoteTicksAfterSingle | tests/unit_tests/data/test_data_cache.py:191-209 | bulk-adding a quote after adding it singly leaves exactly that quote |
| CacheScenarios.BulkTradeTicksIntoEmpty | tests/unit_tests/data/test_data_cache.py:211-228 | bulk-adding one trade to an empty cache stores exactly that trade |
| CacheScenarios.BulkTradeTicksAfterSingle | tests/unit_tests/data/test_data_cache.py:230-248 | bulk-adding a trade after adding it singly leaves exactly that trade |
| CacheScenarios.BulkBarsIntoEmpty | tests/unit_tests/data/test_data_cache.py:250-268 | bulk-adding one bar to an empty bar type stores exactly that bar |
| CacheScenarios.BulkBarsAfterSingle | tests/unit_tests/data/test_data_cache.py:270-289 | bulk-adding a bar after adding it singly leaves exactly that bar |
| CacheScenarios.PricesOfOneQuote | tests/unit_tests/data/test_data_cache.py:371-393 | a quote of 1.00000/1.00001 gives BID 1.00000, ASK 1.00001 and MID exactly 1.000005 (six digits), and no LAST |
| CacheScenarios.PricesOfOneTrade | tests/unit_tests/data/test_data_cache.py:333-369 | one trade gives its price as LAST and no MID |
| CacheScenarios.XRateSameCurrency | tests/unit_tests/data/test_data_cache.py:568-574 | a currency converts into itself at exactly 1, whatever the cache holds |
| CacheScenarios.XRateDirectPair | tests/unit_tests/data/test_data_cache.py:576-595 | with AUD/USD quoted 0.80000/0.80010, AUD converts into USD at 0.80005 |
| CacheScenarios.XRateInversePair | tests/unit_tests/data/test_data_cache.py:547-566 | with USD/JPY quoted 110.80000/110.80010, JPY converts into USD at exactly 1 / 110.80005 |
| Uuid.IntVal | tests/unit_tests/core/test_core_uuid.py:131-137 | the integer form of 16 bytes is below 2^128 |
| Uuid.IntValRoundTrip | tests/unit_tests/core/test_core_uuid.py:131-137 | the integer form and the bytes determine each other |
| Uuid.HexDigits | tests/unit_tests/core/test_core_uuid.py:123-129 | exactly the requested number of lower-case hexadecimal digits |
| Uuid.HexValueOfHexDigits | tests/unit_tests/core/test_core_uuid.py:123-129 | reading the padded digits back gives the number when it fits |
| Uuid.ByteHex | tests/unit_tests/core/test_core_uuid.py:123-129 | two digits per byte, high nibble first, in byte order |
| Uuid.Hex | tests/unit_tests/core/test_core_uuid.py:123-129 | 32 lower-case hexadecimal digits |
| Uuid.HexIsBytesInOrder | tests/unit_tests/core/test_core_uuid.py:123-129 | the 32-digit hex form lists the bytes' digits in order |
| Uuid.Str | tests/unit_tests/core/test_core_uuid.py:24-33 | 36 characters; `StrIsHyphenatedHex` gives their content |
| Uuid.Repr | tests/unit_tests/core/test_core_uuid.py:24-33 | 44 characters: `UUID('`, the string form, then `')` |
| Uuid.ReprRoundTrip | tests/unit_tests/core/test_core_uuid.py:24-33 | the text between the quotes of the repr parses back to the same UUID |
| Uuid.StrIsHyphenatedHex | tests/unit_tests/core/test_core_uuid.py:24-33 | the string form is the hex form with hyphens at positions 8, 13, 18 and 23 and nowhere else |
| Uuid.StrRoundTrip | tests/unit_tests/core/test_core_uuid.py:24-33 | the string form parses back to the same UUID |
| Uuid.SwapFirstFields | tests/unit_tests/core/test_core_uuid.py:43-49 | bytes 0-3, 4-5 and 6-7 each come out reversed, and bytes 8-15 as they are |
| Uuid.BytesLe | tests/unit_tests/core/test_core_uuid.py:43-49 | bytes 0-3, 4-5 and 6-7 read least significant byte first are time_low, time_mid and time_hi_version; bytes 8-15 are the UUID's own |
| Bits.LittleEndianOfReversed | tests/unit_tests/core/test_core_uuid.py:43-49 | reversing a byte string turns its big-endian value into its little-endian value |
| Uuid.BytesLeRoundTrip | tests/unit_tests/core/test_core_uuid.py:43-49 | the little-endian bytes and the bytes determine each other |
| Uuid.TimeLow | tests/unit_tests/core/test_core_uuid.py:59-65 | the integer shifted right by 96 bits is bytes 0-3 read big-endian |
| Uuid.TimeMid | tests/unit_tests/core/test_core_uuid.py:67-73 | 16 bits of the integer from bit 80 are bytes 4-5 read big-endian |
| Uuid.TimeHiVersion | tests/unit_tests/core/test_core_uuid.py:75-81 | 16 bits of the integer from bit 64 are bytes 6-7 read big-endian |
| Uuid.ClockSeqHiVariant | tests/unit_tests/core/test_core_uuid.py:83-89 | 8 bits of the integer from bit 56 are byte 8 |
| Uuid.ClockSeqLow | tests/unit_tests/core/test_core_uuid.py:91-97 | 8 bits of the integer from bit 48 are byte 9 |
| Uuid.Node | tests/unit_tests/core/test_core_uuid.py:115-121 | the low 48 bits of the integer are bytes 10-15 read big-endian |
| Uuid.GetFields | tests/unit_tests/core/test_core_uuid.py:51-57 | the six fields are the byte groups 4, 2, 2, 1, 1 and 6 read big-endian, and shifted back into place they add up to the integer form |
| Uuid.Time | tests/unit_tests/core/test_core_uuid.py:99-105 | the time is the low 12 bits of time_hi_version, then time_mid, then time_low, below 2^60, and each part can be read back |
| Uuid.ClockSeq | tests/unit_tests/core/test_core_uuid.py:107-113 | the clock sequence is the low 6 bits of clock_seq_hi_variant, then clock_seq_low, below 2^14, and each part can be read back |
| Uuid.ExampleBlocks | tests/unit_tests/core/test_core_uuid.py:35-41 | the test UUID's bytes are 12 34 56 78 four times |
| Uuid.ExampleFields | tests/unit_tests/core/test_core_uuid.py:51-57 | the test UUID's fields are (305419896, 4660, 22136, 18, 52, 95073701484152) |
| Uuid.ExampleInt | tests/unit_tests/core/test_core_uuid.py:131-137 | the test UUID's integer form is 24197857161011715162171839636988778104 |
| Uuid.ExampleTime | tests/unit_tests/core/test_core_uuid.py:99-105 | the test UUID's time is 466142576285865592 |
| Uuid.ExampleClockSeq | tests/unit_tests/core/test_core_uuid.py:107-113 | the test UUID's clock sequence is 4660 |
| Uuid.ExampleHex | tests/unit_tests/core/test_core_uuid.py:123-129 | the test UUID's hex form is 12345678123456781234567812345678 |
| Uuid.ExampleStr | tests/unit_tests/core/test_core_uuid.py:24-33 | the test UUID's string form is 12345678-1234-5678-1234-567812345678 |
| Uuid.ExampleRepr | tests/unit_tests/core/test_core_uuid.py:24-33 | the test UUID's repr is UUID('12345678-1234-5678-1234-567812345678') |
| Uuid.ExampleBytesLe | tests/unit_tests/core/test_core_uuid.py:43-49 | the test UUID's little-endian bytes are 78 56 34 12 34 12 78 56 followed by 12 34 56 78 twice |
| Uuid.Equality | tests/unit_tests/core/test_core_uuid.py:139-149 | two UUIDs are equal exactly when their integer forms are equal, and exactly when their hex forms are equal |
| StrategyConfig.DefaultStrategyConfig | nautilus_trader/trading/config.py:41-42 | the default order ID tag is "000" and the default OMS type is "HEDGING" |
| StrategyConfig.Split | nautilus_trader/trading/config.py:109-117 | splitting at every colon gives at least one piece, no piece holds a colon, and a colon-free string is its own only piece |
| StrategyConfig.JoinSplit | nautilus_trader/trading/config.py:109-117 | joining the pieces with colons gives the path back |
| StrategyConfig.SplitJoin | nautilus_trader/trading/config.py:109-117 | colon-free pieces joined with colons split back into the same pieces |
| StrategyConfig.SplitFirst | nautilus_trader/trading/config.py:109-112 | with a colon present there are at least two pieces, and the first is the text before the first colon |
| StrategyConfig.SplitCount | nautilus_trader/trading/config.py:109-117 | there is one piece more than there are colons |
| StrategyConfig.IsSpace | nautilus_trader/trading/config.py:71 | `str.isspace` holds only for a non-empty string, and such a string holds no colon |
| StrategyConfig.BytesIsSpace | nautilus_trader/trading/config.py:72 | `bytes.isspace` holds only for non-empty bytes, all of them at most 0x20 |
| StrategyConfig.CheckPath | nautilus_trader/trading/config.py:105-107 | the check passes exactly for a set, non-empty path holding a colon; a missing or empty path fails with the "not set" assertion, a colon-free path with the "form" assertion |
| StrategyConfig.Module | nautilus_trader/trading/config.py:109-112 | fails exactly when the path check fails, with its error; otherwise the colon-free text before the first colon |
| StrategyConfig.Cls | nautilus_trader/trading/config.py:114-117 | fails exactly when the path check fails, with its error; otherwise a colon-free piece |
| StrategyConfig.ModuleColonCls | nautilus_trader/trading/config.py:109-117 | with exactly one colon, module, colon and class spell out the path |
| StrategyConfig.ClsOfThreePieces | nautilus_trader/trading/config.py:114-117 | for "m:k:rest" the module is m and the class is k, the second piece and not the last |
| StrategyConfig.ImportBranch | nautilus_trader/trading/config.py:76-80 | the class is constructed exactly when the path check passes and the configuration is a strategy configuration, with that module, class and configuration; a failing path check raises its own assertion; a passing one with a plain-string configuration raises the `isinstance` assertion |
| StrategyConfig.Create | nautilus_trader/trading/config.py:70-86 | ValueError exactly when path and source are both missing or whitespace-only; a set path then takes the import branch; no source is ever run |
| StrategyConfig.CreateIntended | nautilus_trader/trading/config.py:70-86 | as `Create`, except that a missing path with a non-blank source runs that source |
| StrategyConfig.SourceBranchAlwaysFails | nautilus_trader/trading/config.py:81-82 | as written, a missing path with a non-blank source fails the path check; as intended it runs the source |
| StrategyConfig.CreateAgreesOnPaths | nautilus_trader/trading/config.py:71-80 | outside the source branch, the as-written and the intended `create` agree |
| StrategyConfig.PathWinsOverSource | nautilus_trader/trading/config.py:76-80 | a set path that is not whitespace-only selects the import branch whatever the source |
| StrategyConfig.EmptyPathFailsPathCheck | nautilus_trader/trading/config.py:71-74 | an empty path is not whitespace, so it passes the ValueError guard and fails the "not set" assertion |
| StrategyConfig.BlankPathWithSource | nautilus_trader/trading/config.py:71-80 | a whitespace-only path with a non-blank source takes the import branch and fails the "form" assertion |
| StrategyConfig.CreateFromPath | nautilus_trader/trading/config.py:76-80 | a "module:Class" path with a strategy configuration constructs that class of that module with that configuration, whatever the source |

## Left out

- The logger and clock passed to the cache are logging sinks and are not modelled.
- The cache's tick and bar capacity limits are not modelled: series grow without bound.
- The test instrument provider and stubs are not part of this model. An instrument is its symbol and its base and quote currencies. A bar type is a symbol, step, aggregation unit and price type.
- Cache.DataCache.QuoteTick, Cache.DataCache.TradeTick, Cache.DataCache.Bar: a negative index, which Python would count from the end, is not modelled.
- Pricing.XRate: the tests expect a `Decimal` rounded to 28 significant digits (0.009025266685348968705339031887 for JPY into USD). The model proves the exact rational 1 / 110.80005 and does not model the rounding context.
- Pricing.Invert: an inverse pair whose mid is zero gives no rate, where `Decimal` division would raise.
- Market.MidPrice: bid and ask must share a precision. Prices of different precision are a contract violation in the system, and the model does not define a mid for them.
- Cache.DataCache.Price, Cache.DataCache.GetXRate: for the same reason, a MID price requires the newest quote of the symbol, and a rate the newest quote of the pair it reads, to share a precision. Storing such quotes is unrestricted.
- Series.Push: the check that a new tick or bar repeats the newest one compares them structurally. Prices are compared by mantissa and precision, so two entries whose prices differ only in precision (1.0 and 1.00) count as different and both are stored. Equality of prices by value is not modelled.
- `uuid4()` draws random bytes and is not modelled.
- A UUID built from a byte string whose length is not 16 is excluded by the type `Bytes16`, not modelled as an error.
- Uuid.Parse is a reference inverse of the string form that the round-trip lemmas use. It accepts 32 hex digits with hyphens anywhere. No string parser of the system is modelled.
- StrategyConfig.ImportBranch: `importlib.import_module` and `getattr` are foreign runtime calls and are assumed to succeed. Their failures (a missing module or class) are not modelled.
- StrategyConfig.Create: the `exec` of the source, the module registration in `sys.modules` and the constructed strategy object are not modelled. Outcomes name the branch and its inputs.
- `PyCondition.type` and pydantic field validation are library behaviour and are not modelled. The type of the configuration argument is given by the Dafny type.
- The message of the `isinstance` assertion at `config.py:79` is empty in the model, as in the source.
- The serialization tests, the backtest engine tests, the SMA indicator tests, the actor factory and the CSV test-data loader are outside the modelled core.

## Findings

| source | as written | input that shows it | evidently intended | confidence | as-written member | corrected member |
|---|---|---|---|---|---|---|
| nautilus_trader/trading/config.py:81-82 | the source branch, taken only when `path` is `None`, first evaluates `config.module`, whose `_check_path` asserts that `path` is set | `ImportableStrategyConfig(path=None, source=b"class S: ...", config=TradingStrategyConfig())` raises `AssertionError("`path` not set, can't parse module")` before the source is run | with no path and a non-blank source, the branch creates a module, executes the source in it and registers it (config.py:83-86), as its shape shows | not executed | StrategyConfig.Create | StrategyConfig.CreateIntended |
