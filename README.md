# FX conversion service — a Dafny model

This project models the decision logic of the `transactions` app of a small
Django currency-exchange service:

- **TransactionCreateView.create** converts an amount between two currencies.
  The checks run in a fixed order: the output currency must be among the
  user's subscribed currencies; the currencies and the amount must all be
  present; the amount must parse as a decimal. The view then looks up the
  pair's rate in a shared TTL cache under the directional, upper-cased key
  `exchange_rate_<IN>_<OUT>`. On a miss it asks the rate provider and caches
  the answer for 3600 seconds. It multiplies, rounds half-even to two
  places, and refuses results longer than 15 characters once the point is
  removed.
- **AvailableCurrenciesListView.get** returns the provider's `latest/USD`
  payload, cache first, under the key `available_currencies`.
- **UserPreferenceUpdateView.update** checks a new preference: exactly three
  selected codes, each one available, and a precision that is an `int` and
  at least 0. Only then does it replace both fields of the user's record.
- **TransactionSerializer** holds three validators: the input amount must
  be positive, the output amount is quantized to the user's precision, and
  both currency codes must be present.
- **Transaction** is the record, with its field constraints and `__str__`.

Layout, one module per file:

| file | module | contents |
|---|---|---|
| wrappers.dfy | Wrappers | `Option`, `Result` |
| decimals.dfy | Decimals | coefficient/exponent decimals, exact product, ROUND_HALF_EVEN quantize |
| strings.dfy | Strings | `find`, `replace`, `split`, ASCII `upper` on `seq<char>` |
| decimal_text.dfy | DecimalText | Python's `str(Decimal)` for exponents -6 to 0 and `Decimal(str)`, with the round trip between them |
| cache.dfy | Cache | JSON payload shapes, Python truthiness, TTL entries, the mutable `RateCache` |
| models.dfy | Models | `Transaction`, field constraints, `__str__`, a `Ledger` table with unique identifiers |
| serializers.dfy | Serializers | the three validators |
| views.dfy | Views | URLs, cache keys, each view as a pure function from old state to (outcome, requested URLs, new cache) |
| service.dfy | FxService | class `Service`: the views as methods on a mutable cache and preference record, each proved equal to its function in Views |

Modelling choices:

- The clock is a parameter `now`. An entry written at `t` with timeout `T`
  is live while `now < t + T`.
- The rate provider is a function parameter `provider: string -> FetchResult`.
  It stands for whatever `fetch_data_from_api` returns or raises. Every view
  also returns the list of URLs it requested. An empty list means the
  provider was not called.
- Responses keep only the reason and its status code (`Views.Rejection`,
  `Views.StatusCode`).
- The behaviour of the code is reproduced as written:
  - The view computes with two places and ignores the stored precision.
  - The subscription check comes first and compares the raw code, so
    `"eur"` is refused when `"EUR"` is subscribed.
  - The precision has no upper bound, and `True` and `False` pass as 1 and 0.
  - A cached value that is falsy (`0`, `""`, `{}`, `[]`) counts as a miss.
  - `available_currencies` is written as the whole payload by the listing
    view and as a list of codes by the update view. When the update view
    finds the payload shape in the cache, it tests selections against the
    payload's top-level keys.
- `UserPreference` is not defined in models.py. Its two fields are taken
  from their uses: `preferred_currencies` is a list of codes and
  `decimal_precision` an int. A record created by `get_object` is assumed to
  start with `[]` and 2. `objects.create` saves that default record at once, and the update view overwrites both values before its own `save()`.

## Model

| member | source | states |
|---|---|---|
| Decimals.Mul | transactions/views.py:135 | the product's exponent is the sum of the exponents; it is zero exactly when a factor is zero and positive exactly when the signs agree |
| Decimals.MulKeepsValue | transactions/views.py:135 | the product depends on its factors only through their values: factors of equal value give products of equal value |
| Decimals.RoundHalfEvenIsNearestEven | transactions/views.py:135 | sign-preserving half-even rounding of n / m gives a nearest integer, and the even one on a tie |
| Decimals.NearestEvenIsUnique | transactions/views.py:135 | at most one integer meets the ROUND_HALF_EVEN rule, so any rounding that meets it is this one |
| Decimals.Quantize | transactions/serializers.py:33 | the result has exactly `places` fractional digits; it keeps the value when no digit is dropped and is rounded half-even otherwise |
| Decimals.QuantizeIdempotent | transactions/serializers.py:33 | quantizing twice to the same places is quantizing once |
| Decimals.QuantizeWidens | transactions/serializers.py:33 | re-quantizing a 2-place value to 2 or more places only appends zeros and keeps the value |
| Decimals.QuantizeNarrowsTwice | transactions/serializers.py:33 | re-quantizing to fewer places rounds twice: 0.149 becomes 0.15 and then 0.2, while direct rounding gives 0.1 |
| Decimals.WidenedFitsContext | transactions/serializers.py:33 | when no digit is dropped, `quantize` stays within the 28-digit context exactly when the coefficient padded with zeros is below 10^28 |
| Decimals.WholeNumberOverContext | transactions/views.py:135 | a whole number of magnitude 10^26 or more needs over 28 digits at two places, so `quantize(Decimal('0.01'))` raises InvalidOperation |
| Decimals.NinetyTwoAtContextEdge | transactions/serializers.py:33 | 92.00 fits the context at 26 places (28 digits) and not at 27 (29 digits) |
| Decimals.FieldDigitsFitContext | transactions/views.py:135-136 | a 2-place result of at most 15 digits never reaches the 28-digit context limit |
| DecimalText.ParseFormat | transactions/views.py:145 | `Decimal(str(d))` returns d exactly, coefficient and exponent, for every decimal with an exponent from -6 to 0 |
| DecimalText.FormatSign | transactions/views.py:145 | `str(d)` is never empty; it starts with '-' exactly when d is negative, and otherwise with a digit |
| DecimalText.ParseShape | transactions/views.py:82 | `Decimal('')` is refused; a parsed literal never has a positive exponent, and it is negative only after a leading '-' |
| DecimalText.LengthWithoutPoint | transactions/views.py:136 | for a 2-place amount, `len(str(q).replace('.', ''))` is the integer part's digit count plus 2, plus 1 when negative |
| Strings.Upper | transactions/views.py:21 | `s.upper()` keeps the length and upper-cases each ASCII letter in place, leaving every other character |
| Strings.Remove | transactions/views.py:136 | no c is left in `s.replace(c, '')` |
| Strings.RemoveCounts | transactions/views.py:136 | `s.replace(c, '')` drops every c and keeps every other character as often as it occurred |
| Strings.SplitJoin3 | transactions/models.py:18 | splitting `a c b c d` on c gives back the three parts when none of them contains c |
| Cache.Lookup | transactions/views.py:97 | a value comes back exactly when the key is present and not yet expired, and it is the stored value |
| Cache.Hit | transactions/views.py:100 | the `if exchange_rate:` / `if cached_data:` / `if not available_currencies:` test passes exactly when the key is present, not expired and its value is truthy |
| Cache.ExpiryBoundary | transactions/views.py:123 | an entry written at t0 with a timeout is returned before t0 + timeout and missing from then on |
| Cache.SetOtherKey | transactions/views.py:123 | writing one key leaves the lookup of every other key unchanged |
| Cache.RateCache.Set | transactions/views.py:123 | the cache afterwards maps the key to the value with expiry now + timeout, and nothing else changes |
| Models.StoreAmount | transactions/models.py:10 | an amount that DecimalField(15, 2) accepts is stored with exactly two places and at most 15 digits, with its value unchanged (5 becomes 5.00) |
| Models.AmountFieldIsTwoPlaceFit | transactions/models.py:10 | DecimalField(15, 2) accepts an amount exactly when it has at most two fractional digits and its two-place form has at most 15 digits |
| Models.StoredAmountIsKept | transactions/models.py:12 | an amount already in stored form is accepted and stored as it is |
| Models.AmountFieldExamples | transactions/models.py:10 | 5 is accepted and stored as 5.00, 9999999999999 is accepted, 1.005 and 10^13 are refused |
| Models.TransactionStrFields | transactions/models.py:17-18 | `__str__` splits on spaces into the customer id, the amount and the currency, and the amount parses back to the stored decimal |
| Models.AppendFresh | transactions/models.py:8 | appending a record whose identifier is new adds exactly that identifier and keeps the identifiers unique |
| Models.Ledger.Insert | transactions/models.py:6-14 | validation comes first: an amount outside DecimalField(15, 2) or a code longer than 3 is refused, then a used identifier; the table is then unchanged. Otherwise the record is appended with both amounts stored at two places and the same values, the given identifier and creation time, and identifiers stay unique |
| Serializers.ToDecimal | transactions/serializers.py:20 | `Decimal(value)` on text is exactly the parse of that text, so it fails only for text that does not parse; an int i becomes i with exponent 0 and a decimal stays as it is |
| Serializers.ValidateInputAmount | transactions/serializers.py:18-25 | accepted exactly when the value parses and is > 0, returning the parsed value; unparseable values and values <= 0 get their own errors |
| Serializers.InputAmountRejections | transactions/serializers.py:21-25 | "0" and "-5" are refused as not positive, "abc" as invalid |
| Serializers.ValidateOutputAmount | transactions/serializers.py:28-36 | accepted exactly when the value parses and its quantized coefficient fits the 28-digit context; the result has exactly `precision` fractional digits and keeps the value or is rounded half-even; every refusal is "Invalid output amount." |
| Serializers.ValidateOutputAmountIdempotent | transactions/serializers.py:33 | validating a validated amount again with the same precision changes nothing |
| Serializers.ValidateViewOutput | transactions/serializers.py:30-33 | the string the view writes for its 2-place amount q is read back exactly and becomes q quantized to the user's precision, or is refused when that needs more than 28 digits |
| Serializers.OutputAmountAtContextLimit | transactions/serializers.py:33 | 92.00 is accepted at precision 26 |
| Serializers.OutputAmountOverContextLimit | transactions/serializers.py:33-36 | 92.00 is refused as an invalid output amount at precision 27 |
| Serializers.Validate | transactions/serializers.py:39-47 | accepted exactly when both currency codes are non-empty, and then attrs are returned unchanged |
| Views.CaseInsensitiveLookup | transactions/views.py:20-21 | the pair URL and the key depend on the codes only through their upper-case forms |
| Views.PairUrlInjective | transactions/views.py:20-21 | for input codes without '/', two pair URLs of one base and key are equal exactly when the upper-cased codes are equal in order |
| Views.LatestUrlIsNotPairUrl | transactions/views.py:195 | the latest/USD URL is never a pair URL |
| Views.RateKeyInjective | transactions/views.py:93 | for codes without '_', two rate keys are equal exactly when the upper-cased codes are equal in order |
| Views.RateKeyIsDirectional | transactions/views.py:93 | for codes without '_', (A, B) and (B, A) share a key exactly when A and B agree up to case |
| Views.RateKeyIsNotAvailableKey | transactions/views.py:194 | no rate key is `available_currencies` |
| Views.StatusCode | transactions/views.py:62-143 | 502 exactly for a failed rate or currency fetch, 500 exactly for a missing preference record, a rate `Decimal()` refuses or a `quantize` InvalidOperation, and 400 for every other rejection |
| Views.ValidateRequest | transactions/views.py:62-90 | refusals come in order: not subscribed (raw code), then a missing or falsy field, then an unparseable amount; otherwise the parsed amount, with no positivity check |
| Views.LowerCaseCodeIsNotSubscribed | transactions/views.py:62 | "eur" is refused as not subscribed when "EUR" is on the list |
| Views.DigitLimitBounds | transactions/views.py:136 | `DigitCount(q)`, that is `len(str(q).replace('.', ''))`, is over 15 for a 2-place amount exactly when its coefficient is >= 10^15, or <= -10^14 when negative |
| Views.ComputeOutput | transactions/views.py:135-143 | the result is the product quantized half-even to 2 places; it is a 500 (QuantizeInvalid) exactly when that needs over 28 digits, the precision-limit 400 exactly when it fits but -10^14 < coefficient < 10^15 fails, and accepted otherwise, and then it fits DecimalField(15, 2) |
| Views.HugeProductRaises | transactions/views.py:135 | a whole-number product of magnitude 10^26 or more makes `quantize` raise, an uncaught 500 |
| Views.LargeProductIsRefused | transactions/views.py:136-143 | 999999999.99 × 999999999.99 is refused for the precision limit |
| Views.HundredAtNinetyTwo | transactions/views.py:135 | 100.00 at a rate of 0.92 gives 92.00 |
| Views.RateField | transactions/views.py:115-120 | a rate is taken from the reply exactly when the fetch succeeded and `conversion_rate` is present and not null, and it is that value |
| Views.RateValue | transactions/views.py:135 | a numeric rate is used as it is, a string rate is parsed as `Decimal(str)` parses it, and a null or object rate cannot be converted |
| Views.Finish | transactions/views.py:135-146 | a rate that `Decimal()` refuses is a 500; for a numeric rate the outcome is `Accepted(str(q), customer_id)` when the two-place product q passes, and otherwise the rejection that the product computation gives |
| Views.ResolveRate | transactions/views.py:93-132 | nothing is requested exactly on a live, truthy cached rate, which is used unchanged; otherwise the pair URL is requested, the rate is `conversion_rate` of the reply, and a rate found is cached under the pair key for 3600 s while none writes nothing |
| Views.Conversion | transactions/views.py:46-148 | a user with no preference record gets the 500 with no request and no write; the cache keeps its shapes, at most one URL is requested, and an accepted outcome carries the user's id |
| Views.ConversionRateNotNumeric | transactions/views.py:97-135 | for a valid request whose cached or fetched rate `Decimal()` refuses, create is the uncaught 500, with the cache as the rate lookup left it |
| Views.ConversionAcceptance | transactions/views.py:135-146 | for a valid request with a numeric rate, create accepts exactly when the two-place product passes, and then hands on `str` of it with the customer id; otherwise it rejects with the 400 of the 15-digit limit or the 500 of an over-wide quantize |
| Views.ConversionRejectsBeforeLookup | transactions/views.py:62-90 | a request refused by the validation never touches the cache or the provider |
| Views.ConversionCacheHit | transactions/views.py:97-101 | on a live, truthy cached rate nothing is requested and the cache is unchanged |
| Views.ConversionCacheMiss | transactions/views.py:102-132 | on a miss the pair URL is requested once; without a rate the result is a 502 and nothing is written, otherwise the rate is cached under the pair key for 3600 s |
| Views.ConversionOutputAmount | transactions/views.py:135-145 | an accepted output string parses to the product of the amount and the rate used, quantized half-even to 2 places, and fits DecimalField(15, 2) |
| Views.ConversionIgnoresPrecision | transactions/views.py:51 | the outcome, the requests and the cache do not depend on the stored precision |
| Views.RepeatedConversionHitsCache | transactions/views.py:97-123 | a truthy rate fetched once serves the same request for the next hour with no request and the same outcome |
| Views.ZeroRateIsFetchedAgain | transactions/views.py:100 | a falsy cached rate (0) is requested again by the next conversion |
| Views.AvailableCurrencies | transactions/views.py:193-239 | nothing is requested exactly on a live, truthy cache value, which is returned unchanged; otherwise latest/USD is requested, a failure is the only error and writes nothing, and a success returns and caches the whole payload for 3600 s |
| Views.RepeatedListingHitsCache | transactions/views.py:199-220 | a fetched payload is served from the cache for the next hour exactly when it is non-empty |
| Views.ResolvePrecision | transactions/views.py:295-303 | precision defaults to 2, an int passes exactly when it is >= 0 with no upper bound, a bool passes, and anything else is refused |
| Views.RateTableCodes | transactions/views.py:261 | the codes are the keys of `conversion_rates`, none when it is absent, and an error when it is not a table |
| Views.ResolveAvailable | transactions/views.py:256-271 | a truthy cached value gives its codes with no request; otherwise latest/USD is requested, and the codes returned and cached as a list for 3600 s are exactly the keys of the reply's `conversion_rates`; a failure is a 502 that writes nothing |
| Views.InvalidCodes | transactions/views.py:284 | exactly the selections that are not available, and never more than were selected |
| Views.ValidatePreference | transactions/views.py:274-303 | refusals come in order: not three selections, then some unavailable selection (all of them listed), then a bad precision; otherwise the record holds the selections and the resolved precision |
| Views.PreferenceUpdate | transactions/views.py:254-320 | the cache keeps its shapes; the URLs requested and the new cache are those of resolving the available codes, on every path; the 502 comes exactly from unresolved codes, and once they resolve every rejection is the one the count, availability and precision checks give, in that order; on an error the preference is unchanged, and on success it is the record returned |
| Views.PreferenceUpdateAllOrNothing | transactions/views.py:256-309 | the update succeeds exactly when the codes resolve, three available codes are selected and the precision is valid; it then stores both fields together, otherwise nothing changes, and a failed code fetch is a 502 |
| Views.PayloadShapedCacheRefusesCodes | transactions/views.py:284 | with the listing view's payload in the cache, three codes that are not top-level payload keys are all refused |
| FxService.Service.CreateTransaction | transactions/views.py:46-148 | the response, the requested URLs and the new cache are those of Views.Conversion on the old cache; cache shapes are kept |
| FxService.Service.GetAvailableCurrencies | transactions/views.py:193-239 | the response, requests and new cache are those of Views.AvailableCurrencies |
| FxService.Service.GetObject | transactions/views.py:245-252 | returns the user's record, creating the default one when there is none |
| FxService.Service.UpdatePreference | transactions/views.py:254-320 | the response, requests, new cache and new preference are those of Views.PreferenceUpdate on the old state |

Functions that only compute are covered by the lemmas about them: `Views.ExchangeRateUrl` by PairUrlInjective and CaseInsensitiveLookup, `Views.RateKey` by the RateKey lemmas, `Views.LatestUrl` by LatestUrlIsNotPairUrl, `DecimalText.Format` and `DecimalText.Parse` by ParseFormat, FormatSign and ParseShape, `Views.DigitCount` by DigitLimitBounds, `Models.TransactionStr` by TransactionStrFields, and `Models.FitsAmountField` and `Models.ValidTransaction` by AmountFieldIsTwoPlaceFit and Ledger.Insert.

## Left out

- HTTP transport in `fetch_data_from_api` (`requests.get`, `verify=False`, the 10 s timeout, status checks, JSON decoding) is left out. It is an abstract provider that returns a payload or fails.
- Timing and logging (`time.time()`, `logger.*`) are left out: they only observe.
- An amount or a rate that arrives as a JSON float goes through `Decimal(float)`, which is binary floating point, so it is not modelled: amounts and rates are exact decimals. JSON booleans and lists, as rates and as input or output amounts, are also left out: `Decimal(True)` is 1, for one. A rate that is an object or null raises, and the model keeps that.
- A JSON object given as the input amount is left out: the amount is text, an integer or a decimal. A non-empty object passes the truthiness test of the create view, and `Decimal(dict)` then raises a TypeError that the `except InvalidOperation` does not catch, so the view answers 500.
- Decimals.Mul: the product is exact. Python's `*` rounds a product of more than 28 significant digits to 28 before `quantize` sees it, so for such products the model rounds once where Python rounds twice. The 28-digit InvalidOperation of `quantize` is modelled (Views.ComputeOutput's QuantizeInvalid, Serializers.ValidateOutputAmount's InvalidOutput).
- Serializers.ValidateOutputAmount: Python's exponent range (Emin, Etiny) is not modelled. So `Decimal(10) ** -precision` is taken as exact for every precision; below an exponent of about -10^6, Python would underflow it.
- DecimalText.Parse covers an optional sign, ASCII digits and at most one point. NaN, Infinity, exponent notation, surrounding whitespace, underscores and the non-ASCII Unicode decimal digits accepted by `Decimal(str)` are left out.
- DecimalText.Format: `str` is modelled for exponents from -6 to 0, which covers every amount the views print. Python also prints smaller exponents plainly when the number has enough digits (`1.0000000`), and that case is not modelled. Negative zero (`-0.00`) is not representable with an integer coefficient.
- Strings.Upper: only ASCII letters are upper-cased. Python's full Unicode case mapping is left out.
- Currency codes and selections are strings. A non-string code (a number, a list) and a non-list `preferred_currencies` are left out. So is a provider reply that is not a JSON object, which makes `.get` raise.
- The Django cache backend is not part of this model. An entry is live while `now < expiry`. Cache failures and eviction are left out, and cached code lists are sets, without their order.
- `super().create`: DRF's request handling and the ORM save are not modelled as one call. The serializer validators and the `Ledger` table are modelled separately; `Serializers.ValidateViewOutput` connects the view's output string to the validator, and `Models.Ledger.Insert` applies the DecimalField(15, 2) and CharField(3) checks. In DRF the field's own check and two-place quantizing run before `validate_output_amount`; the model keeps the checks but does not order them.
- Models.FitsAmountField: zero is accepted with any exponent of 0 or more. DRF counts the digits of `0E+k` as k + 1 whole digits and refuses it from k = 13 on (at most 13 whole digits).
- The `customer` serializer field, the response envelopes and the messages are left out. Outcomes keep a reason and its status code.
- `TransactionListView`, `TransactionDetailView`, signals.py, urls.py and admin.py are left out: they are queryset filters, signal wiring, routing and admin setup with no decision logic.
- Views.ResolvePrecision: `True`/`False` are stored as 1/0. The echo of the bool in the response as `true`/`false` is not modelled.
- The UUID identifier is a number given to `Ledger.Insert`; uuid4's randomness is not modelled. The creation time is the `now` parameter.
- Concurrent requests sharing the cache are left out: the service is sequential.
