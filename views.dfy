/**
  The three views of the conversion service: converting an amount
  (TransactionCreateView.create), listing available currencies
  (AvailableCurrenciesListView.get) and updating the user's preferences
  (UserPreferenceUpdateView.update). Each view is a pure function from the
  old state to the response, the provider URLs it requested and the new
  state; the class Service of module FxService runs the same steps on
  mutable state.
*/
module Views {
  import opened Wrappers
  import opened Decimals
  import opened Strings
  import opened DecimalText
  import opened Cache
  import opened Serializers
  import opened Models

  const CacheTimeout: nat := 3600
  const AvailableKey: string := "available_currencies"
  const RatePrefix: string := "exchange_rate_"
  const DigitLimit: nat := 15

  // ---------------------------------------------------------------------
  // Provider URLs and cache keys

  /** `get_exchange_rate_url`: the pair endpoint, both codes upper-cased. */
  function ExchangeRateUrl(baseUrl: string, apiKey: string, input: string, output: string): string
  {
    PairPrefix(baseUrl, apiKey) + (Upper(input) + "/" + Upper(output))
  }

  function PairPrefix(baseUrl: string, apiKey: string): string
  {
    baseUrl + "/" + apiKey + "/pair/"
  }

  /** The endpoint of the whole rate table for USD. */
  function LatestUrl(baseUrl: string, apiKey: string): string
  {
    baseUrl + "/" + apiKey + "/latest/USD"
  }

  /** The cache key of a rate: directional and upper-cased. */
  function RateKey(input: string, output: string): string
  {
    RatePrefix + (Upper(input) + "_" + Upper(output))
  }

  lemma {:induction false} UpperIdempotent(s: string)
    ensures Upper(Upper(s)) == Upper(s)
  {
    if s != [] {
      UpperIdempotent(s[1..]);
      assert Upper(s)[1..] == Upper(s[1..]);
    }
  }

  /** Both the URL and the key depend on the codes only through their upper-case forms. */
  lemma CaseInsensitiveLookup(baseUrl: string, apiKey: string, input: string, output: string)
    ensures ExchangeRateUrl(baseUrl, apiKey, Upper(input), Upper(output)) == ExchangeRateUrl(baseUrl, apiKey, input, output)
    ensures RateKey(Upper(input), Upper(output)) == RateKey(input, output)
  {
    UpperIdempotent(input);
    UpperIdempotent(output);
  }

  /**
    Rate keys identify their pair: for codes without '_', two keys are equal
    exactly when the upper-cased codes are equal in the same order. So
    (A, B) and (B, A) share a key only when A and B agree up to case.
  */
  lemma RateKeyInjective(a: string, b: string, c: string, d: string)
    requires Free(Upper(a), '_') && Free(Upper(c), '_')
    ensures RateKey(a, b) == RateKey(c, d) <==> Upper(a) == Upper(c) && Upper(b) == Upper(d)
  {
    var ua, ub, uc, ud := Upper(a), Upper(b), Upper(c), Upper(d);
    var t1, t2 := ua + ['_'] + ub, uc + ['_'] + ud;
    if RateKey(a, b) == RateKey(c, d) {
      assert t1 == RateKey(a, b)[|RatePrefix|..];
      assert t2 == RateKey(c, d)[|RatePrefix|..];
      JoinInjective(ua, ub, uc, ud, '_');
    }
  }

  /**
    Pair URLs identify their pair the same way: for input codes without
    '/', two URLs of one provider and key are equal exactly when the
    upper-cased codes are equal in the same order.
  */
  lemma PairUrlInjective(baseUrl: string, apiKey: string, a: string, b: string, c: string, d: string)
    requires Free(Upper(a), '/') && Free(Upper(c), '/')
    ensures ExchangeRateUrl(baseUrl, apiKey, a, b) == ExchangeRateUrl(baseUrl, apiKey, c, d) <==>
            Upper(a) == Upper(c) && Upper(b) == Upper(d)
  {
    var prefix := PairPrefix(baseUrl, apiKey);
    var ua, ub, uc, ud := Upper(a), Upper(b), Upper(c), Upper(d);
    var t1, t2 := ua + ['/'] + ub, uc + ['/'] + ud;
    if ExchangeRateUrl(baseUrl, apiKey, a, b) == ExchangeRateUrl(baseUrl, apiKey, c, d) {
      assert t1 == ExchangeRateUrl(baseUrl, apiKey, a, b)[|prefix|..];
      assert t2 == ExchangeRateUrl(baseUrl, apiKey, c, d)[|prefix|..];
      JoinInjective(ua, ub, uc, ud, '/');
    }
  }

  /** The rate-table URL is never a pair URL: after `<base>/<key>/` one reads "latest", the other "pair". */
  lemma LatestUrlIsNotPairUrl(baseUrl: string, apiKey: string, input: string, output: string)
    ensures LatestUrl(baseUrl, apiKey) != ExchangeRateUrl(baseUrl, apiKey, input, output)
  {
    var n := |baseUrl| + 1 + |apiKey| + 1;
    assert LatestUrl(baseUrl, apiKey)[n] == 'l';
    assert ExchangeRateUrl(baseUrl, apiKey, input, output)[n] == 'p';
  }

  lemma RateKeyIsDirectional(a: string, b: string)
    requires Free(Upper(a), '_') && Free(Upper(b), '_')
    ensures RateKey(a, b) == RateKey(b, a) <==> Upper(a) == Upper(b)
  {
    RateKeyInjective(a, b, b, a);
  }

  /** A rate key is never the key of the currency list. */
  lemma RateKeyIsNotAvailableKey(a: string, b: string)
    ensures RateKey(a, b) != AvailableKey
  {
    assert RateKey(a, b)[0] == 'e' && AvailableKey[0] == 'a';
  }

  // ---------------------------------------------------------------------
  // Responses

  datatype Rejection =
    | NotSubscribed              // 400 "Currency not in subscription list"
    | MissingFields              // 400 "Missing required fields"
    | InvalidAmount              // 400 "Invalid input amount"
    | RateFetchFailed            // 502 "Failed to fetch exchange rate"
    | PrecisionLimitExceeded     // 400 "Output amount exceeds precision limit"
    | CurrenciesFetchFailed      // 502 "Failed to fetch ... available currencies ..."
    | WrongSelectionCount        // 400 "Please select exactly three currency pairs."
    | InvalidSelections(codes: seq<string>)  // 400 "Invalid currency pairs: ..."
    | InvalidPrecision           // 400 "Decimal precision must be a positive integer."
    | NoPreferenceRecord         // 500: `user.preferences` raises
    | RateNotNumeric             // 500: `Decimal(exchange_rate)` raises
    | QuantizeInvalid            // 500: `quantize` raises InvalidOperation (over 28 digits)

  function StatusCode(r: Rejection): (code: int)
    ensures code in {400, 500, 502}
    ensures code == 502 <==> r.RateFetchFailed? || r.CurrenciesFetchFailed?
    ensures code == 500 <==> r.NoPreferenceRecord? || r.RateNotNumeric? || r.QuantizeInvalid?
  {
    match r
    case RateFetchFailed | CurrenciesFetchFailed => 502
    case NoPreferenceRecord | RateNotNumeric | QuantizeInvalid => 500
    case _ => 400
  }

  // ---------------------------------------------------------------------
  // Conversion: request validation

  datatype ConversionRequest = ConversionRequest(
    inputCurrency: Option<string>,
    outputCurrency: Option<string>,
    inputAmount: Option<RawAmount>
  )

  /** `output_currency in subscribed_currencies`: the raw code, compared exactly. */
  predicate Subscribed(subscribed: seq<string>, output: Option<string>)
  {
    output.Some? && output.value in subscribed
  }

  /** `all([input_currency, output_currency, input_amount])`. */
  predicate AllPresent(req: ConversionRequest)
  {
    Present(req.inputCurrency) && Present(req.outputCurrency) &&
    req.inputAmount.Some? && AmountTruthy(req.inputAmount.value)
  }

  /**
    The checks of create, in their order: subscription, then presence,
    then parsing. The amount is not required to be positive here.
  */
  function ValidateRequest(subscribed: seq<string>, req: ConversionRequest): (r: Result<Decimal, Rejection>)
    ensures r == Err(NotSubscribed) <==> !Subscribed(subscribed, req.outputCurrency)
    ensures r == Err(MissingFields) <==> Subscribed(subscribed, req.outputCurrency) && !AllPresent(req)
    ensures r == Err(InvalidAmount) <==>
              Subscribed(subscribed, req.outputCurrency) && AllPresent(req) && ToDecimal(req.inputAmount.value).None?
    ensures r.Ok? <==>
              Subscribed(subscribed, req.outputCurrency) && AllPresent(req) && ToDecimal(req.inputAmount.value).Some?
    ensures r.Ok? ==> r.value == ToDecimal(req.inputAmount.value).value
  {
    if !Subscribed(subscribed, req.outputCurrency) then Err(NotSubscribed)
    else if !AllPresent(req) then Err(MissingFields)
    else match ToDecimal(req.inputAmount.value)
      case None => Err(InvalidAmount)
      case Some(d) => Ok(d)
  }

  /** A code that differs from a subscribed one only in case is refused before anything else. */
  lemma LowerCaseCodeIsNotSubscribed(amount: Option<RawAmount>)
    ensures ValidateRequest(["EUR", "GBP", "JPY"], ConversionRequest(Some("usd"), Some("eur"), amount)) ==
            Err(NotSubscribed)
  {
  }

  // ---------------------------------------------------------------------
  // Conversion: the output amount

  /** `len(str(q).replace('.', ''))`, the length the view limits. */
  function DigitCount(q: Decimal): nat
    requires -6 <= q.exp <= 0
  {
    |Remove(Format(q), '.')|
  }

  /**
    For a 2-place amount the limit of 15 characters admits exactly the
    coefficients below 10^15, or, when negative (the sign counts), above -10^14.
  */
  lemma {:induction false} DigitLimitBounds(q: Decimal)
    requires q.exp == -2
    ensures DigitCount(q) > DigitLimit <==>
            (q.coef >= 0 && q.coef >= Pow10(15)) || (q.coef < 0 && -q.coef >= Pow10(14))
  {
    LengthWithoutPoint(q);
    var m := Abs(q.coef);
    var w := m / 100;
    assert Pow10(13) == 10000000000000;
    assert Pow10(12) == 1000000000000;
    assert Pow10(14) == 100000000000000;
    assert Pow10(15) == 1000000000000000;
    NatStrShorterThanPower(w, 13);
    NatStrShorterThanPower(w, 12);
  }

  /**
    `(input_amount * rate).quantize(Decimal('0.01'))` and the length check:
    the product rounded half-even to two places, refused when longer than
    15 characters without its point. A result wider than the context's 28
    digits makes `quantize` raise, and nothing catches it. The user's
    precision plays no part.
  */
  function ComputeOutput(amount: Decimal, rate: Decimal): (r: Result<Decimal, Rejection>)
    ensures r == Err(QuantizeInvalid) <==> !QuantizeFitsContext(Mul(amount, rate), 2)
    ensures r == Err(PrecisionLimitExceeded) <==>
              QuantizeFitsContext(Mul(amount, rate), 2) &&
              !(-(Pow10(14) as int) < Quantize(Mul(amount, rate), 2).coef < Pow10(15))
    ensures r.Err? ==> r.error == QuantizeInvalid || r.error == PrecisionLimitExceeded
    ensures r.Ok? ==> r.value == Quantize(Mul(amount, rate), 2)
    ensures r.Ok? <==> -(Pow10(14) as int) < Quantize(Mul(amount, rate), 2).coef < Pow10(15)
    ensures r.Ok? ==> StoredAmount(r.value)
  {
    var q := Quantize(Mul(amount, rate), 2);
    DigitLimitBounds(q);
    FieldDigitsFitContext(Mul(amount, rate));
    if !QuantizeFitsContext(Mul(amount, rate), 2) then Err(QuantizeInvalid)
    else if DigitCount(q) > DigitLimit then Err(PrecisionLimitExceeded)
    else Ok(q)
  }

  /**
    A whole-number product of magnitude 10^26 or more needs over 28 digits
    at two places, so quantize raises (10^26 at a rate of 1, for one).
  */
  lemma HugeProductRaises(amount: Decimal, rate: Decimal)
    requires Mul(amount, rate).exp == 0 && Abs(Mul(amount, rate).coef) >= Pow10(26)
    ensures ComputeOutput(amount, rate) == Err(QuantizeInvalid)
  {
    WholeNumberOverContext(Mul(amount, rate));
  }

  /** 999999999.99 at a rate of 999999999.99 is over the limit. */
  lemma LargeProductIsRefused()
    ensures ComputeOutput(Decimal(99999999999, -2), Decimal(99999999999, -2)) == Err(PrecisionLimitExceeded)
  {
    var q := Quantize(Mul(Decimal(99999999999, -2), Decimal(99999999999, -2)), 2);
    assert Pow10(2) == 100;
    assert Pow10(15) == 1000000000000000;
    assert q.coef >= Pow10(15);
  }

  /** 100.00 at a rate of 0.92 gives 92.00. */
  lemma HundredAtNinetyTwo()
    ensures ComputeOutput(Decimal(10000, -2), Decimal(92, -2)) == Ok(Decimal(9200, -2))
  {
    assert Pow10(2) == 100;
    assert Pow10(14) == 100000000000000;
    assert Pow10(15) == 1000000000000000;
  }

  // ---------------------------------------------------------------------
  // The provider and the shapes the cache holds

  /** What `fetch_data_from_api(url)` does: returns a JSON object or raises. */
  datatype FetchResult = Fetched(payload: Payload) | FetchFailed

  /** `fetch_data_from_api(url).get('conversion_rate')`, None also when the fetch raised. */
  function RateField(f: FetchResult): (r: Option<Json>)
    ensures f.FetchFailed? ==> r.None?
    ensures f.Fetched? ==>
              (r.Some? <==> "conversion_rate" in f.payload && f.payload["conversion_rate"] != JNull)
    ensures r.Some? ==> r.value == f.payload["conversion_rate"] && r.value != JNull
  {
    match f
    case FetchFailed => None
    case Fetched(p) =>
      if "conversion_rate" in p && p["conversion_rate"] != JNull then Some(p["conversion_rate"]) else None
  }

  /** `Decimal(exchange_rate)`: a number as it is, a string parsed, anything else raises. */
  function RateValue(j: Json): (r: Option<Decimal>)
    ensures j.JNumber? ==> r == Some(j.n)
    ensures j.JString? ==> r == Parse(j.s)
    ensures j.JNull? || j.JTable? ==> r.None?
  {
    match j
    case JNumber(n) => Some(n)
    case JString(s) => Parse(s)
    case _ => None
  }

  /** Rate keys hold a JSON scalar; the currency key holds a payload or a list of codes. */
  predicate CacheShapes(entries: map<string, Entry>)
  {
    forall k :: k in entries ==> (entries[k].value.Scalar? <==> k != AvailableKey)
  }

  datatype Step<T> = Step(outcome: T, requested: seq<string>, entries: map<string, Entry>)

  // ---------------------------------------------------------------------
  // TransactionCreateView.create

  datatype Preference = Preference(currencies: seq<string>, precision: int)

  /**
    The two values create puts into the request data before handing it to
    the serializer: `str(output_amount)` and the customer id.
  */
  datatype ConversionOutcome = Accepted(outputAmount: string, customerId: int) | Rejected(reason: Rejection)

  /** From the rate as cached or fetched to the response. */
  function Finish(amount: Decimal, rate: Json, customerId: int): (r: ConversionOutcome)
    ensures r.Accepted? ==> r.customerId == customerId && RateValue(rate).Some?
    ensures r == Rejected(RateNotNumeric) <==> RateValue(rate).None?
    ensures RateValue(rate).Some? ==>
              r == (match ComputeOutput(amount, RateValue(rate).value)
                    case Ok(q) => Accepted(Format(q), customerId)
                    case Err(e) => Rejected(e))
  {
    match RateValue(rate)
    case None => Rejected(RateNotNumeric)
    case Some(rate) =>
      match ComputeOutput(amount, rate)
      case Err(e) => Rejected(e)
      case Ok(q) => Accepted(Format(q), customerId)
  }

  /**
    create: validate, look the rate up in the cache, fetch it on a miss
    and write it through for an hour, then compute the output amount.
  */
  function Conversion(pref: Option<Preference>, customerId: int, req: ConversionRequest,
                      entries: map<string, Entry>, now: int,
                      baseUrl: string, apiKey: string, provider: string -> FetchResult): (r: Step<ConversionOutcome>)
    requires CacheShapes(entries)
    ensures CacheShapes(r.entries)
    ensures r.outcome.Accepted? ==> r.outcome.customerId == customerId
    ensures |r.requested| <= 1
    ensures pref.None? ==> r == Step(Rejected(NoPreferenceRecord), [], entries)
  {
    if pref.None? then Step(Rejected(NoPreferenceRecord), [], entries)
    else
      match ValidateRequest(pref.value.currencies, req)
      case Err(e) => Step(Rejected(e), [], entries)
      case Ok(amount) =>
        var rate := ResolveRate(entries, req.inputCurrency.value, req.outputCurrency.value, now, baseUrl, apiKey, provider);
        match rate.outcome
        case None => Step(Rejected(RateFetchFailed), rate.requested, rate.entries)
        case Some(j) => Step(Finish(amount, j, customerId), rate.requested, rate.entries)
  }

  /**
    The rate create works with: the cached one on a live, truthy entry,
    else conversion_rate from the pair URL, which is then cached for an
    hour; None is the 502, and then nothing is written.
  */
  function ResolveRate(entries: map<string, Entry>, input: string, output: string, now: int,
                       baseUrl: string, apiKey: string, provider: string -> FetchResult)
    : (r: Step<Option<Json>>)
    requires CacheShapes(entries)
    ensures CacheShapes(r.entries)
    ensures r.outcome.None? ==> r.entries == entries
    ensures r.requested == [] <==> Hit(entries, RateKey(input, output), now)
    ensures r.requested == [] ==>
              r.entries == entries && r.outcome.Some? && entries[RateKey(input, output)].value == Scalar(r.outcome.value)
    ensures r.requested != [] ==>
              && r.requested == [ExchangeRateUrl(baseUrl, apiKey, input, output)]
              && r.outcome == RateField(provider(ExchangeRateUrl(baseUrl, apiKey, input, output)))
              && (r.outcome.Some? ==>
                    r.entries == entries[RateKey(input, output) := Entry(Scalar(r.outcome.value), now + 3600)])
  {
    var key := RateKey(input, output);
    RateKeyIsNotAvailableKey(input, output);
    if Hit(entries, key, now) then
      Step(Some(entries[key].value.json), [], entries)
    else
      var url := ExchangeRateUrl(baseUrl, apiKey, input, output);
      match RateField(provider(url))
      case None => Step(None, [url], entries)
      case Some(j) => Step(Some(j), [url], entries[key := Entry(Scalar(j), now + CacheTimeout)])
  }

  /** Subscription, presence and parsing are decided before the cache or the provider is used. */
  lemma ConversionRejectsBeforeLookup(pref: Preference, customerId: int, req: ConversionRequest,
                                      entries: map<string, Entry>, now: int,
                                      baseUrl: string, apiKey: string, provider: string -> FetchResult)
    requires CacheShapes(entries)
    requires ValidateRequest(pref.currencies, req).Err?
    ensures Conversion(Some(pref), customerId, req, entries, now, baseUrl, apiKey, provider) ==
            Step(Rejected(ValidateRequest(pref.currencies, req).error), [], entries)
  {
  }

  /** A live, truthy cached rate is used as it is: no request, no write. */
  lemma ConversionCacheHit(pref: Preference, customerId: int, req: ConversionRequest,
                           entries: map<string, Entry>, now: int,
                           baseUrl: string, apiKey: string, provider: string -> FetchResult)
    requires CacheShapes(entries)
    requires ValidateRequest(pref.currencies, req).Ok?
    requires Hit(entries, RateKey(req.inputCurrency.value, req.outputCurrency.value), now)
    ensures var r := Conversion(Some(pref), customerId, req, entries, now, baseUrl, apiKey, provider);
            r.requested == [] && r.entries == entries
  {
  }

  /**
    On a miss the pair URL is requested once. A rate in the reply is cached
    under the pair key for 3600 seconds; a failed fetch or a reply without
    conversion_rate is a 502 and writes nothing.
  */
  lemma ConversionCacheMiss(pref: Preference, customerId: int, req: ConversionRequest,
                            entries: map<string, Entry>, now: int,
                            baseUrl: string, apiKey: string, provider: string -> FetchResult)
    requires CacheShapes(entries)
    requires ValidateRequest(pref.currencies, req).Ok?
    requires !Hit(entries, RateKey(req.inputCurrency.value, req.outputCurrency.value), now)
    ensures var url := ExchangeRateUrl(baseUrl, apiKey, req.inputCurrency.value, req.outputCurrency.value);
            var key := RateKey(req.inputCurrency.value, req.outputCurrency.value);
            var r := Conversion(Some(pref), customerId, req, entries, now, baseUrl, apiKey, provider);
            && r.requested == [url]
            && (RateField(provider(url)).None? ==>
                  r.outcome == Rejected(RateFetchFailed) && StatusCode(r.outcome.reason) == 502 && r.entries == entries)
            && (RateField(provider(url)).Some? ==>
                  r.entries == entries[key := Entry(Scalar(RateField(provider(url)).value), now + 3600)])
  {
  }

  /**
    An accepted conversion hands on the string of the product of the
    parsed amount and the rate used, rounded half-even to two places, and
    that amount fits the model's DecimalField(15, 2).
  */
  lemma {:induction false} ConversionOutputAmount(pref: Preference, customerId: int, req: ConversionRequest,
                                                  entries: map<string, Entry>, now: int,
                                                  baseUrl: string, apiKey: string, provider: string -> FetchResult)
    requires CacheShapes(entries)
    requires ValidateRequest(pref.currencies, req).Ok?
    ensures var amount := ValidateRequest(pref.currencies, req).value;
            var rate := ResolveRate(entries, req.inputCurrency.value, req.outputCurrency.value, now, baseUrl, apiKey, provider).outcome;
            var r := Conversion(Some(pref), customerId, req, entries, now, baseUrl, apiKey, provider);
            r.outcome.Accepted? ==>
              && rate.Some? && RateValue(rate.value).Some?
              && Parse(r.outcome.outputAmount) == Some(Quantize(Mul(amount, RateValue(rate.value).value), 2))
              && StoredAmount(Quantize(Mul(amount, RateValue(rate.value).value), 2))
  {
    var amount := ValidateRequest(pref.currencies, req).value;
    var rate := ResolveRate(entries, req.inputCurrency.value, req.outputCurrency.value, now, baseUrl, apiKey, provider).outcome;
    if rate.Some? && RateValue(rate.value).Some? {
      var q := Quantize(Mul(amount, RateValue(rate.value).value), 2);
      ParseFormat(q);
    }
  }

  /**
    When create accepts: for a valid request whose rate (cached or fetched)
    is numeric, the outcome is acceptance exactly when the two-place product
    passes the context and the 15-digit limit; otherwise it is the 400 of the
    digit limit or the 500 of an over-wide quantize.
  */
  lemma ConversionAcceptance(pref: Preference, customerId: int, req: ConversionRequest,
                                                entries: map<string, Entry>, now: int,
                                                baseUrl: string, apiKey: string, provider: string -> FetchResult)
    requires CacheShapes(entries)
    requires ValidateRequest(pref.currencies, req).Ok?
    requires var rate := ResolveRate(entries, req.inputCurrency.value, req.outputCurrency.value, now, baseUrl, apiKey, provider).outcome;
             rate.Some? && RateValue(rate.value).Some?
    ensures var amount := ValidateRequest(pref.currencies, req).value;
            var rate := ResolveRate(entries, req.inputCurrency.value, req.outputCurrency.value, now, baseUrl, apiKey, provider).outcome;
            var out := ComputeOutput(amount, RateValue(rate.value).value);
            var r := Conversion(Some(pref), customerId, req, entries, now, baseUrl, apiKey, provider);
            && (r.outcome.Accepted? <==> out.Ok?)
            && (out.Ok? ==> r.outcome == Accepted(Format(out.value), customerId))
            && (out.Err? ==>
                  && r.outcome == Rejected(out.error)
                  && (StatusCode(out.error) == 400 <==> out.error == PrecisionLimitExceeded)
                  && (StatusCode(out.error) == 500 <==> out.error == QuantizeInvalid))
  {
  }

  /**
    A rate that is cached or fetched but that `Decimal()` refuses (null is
    already a miss; a JSON object or a non-numeric string) is the uncaught
    500 of create, and the rate is still written through.
  */
  lemma ConversionRateNotNumeric(pref: Preference, customerId: int, req: ConversionRequest,
                                 entries: map<string, Entry>, now: int,
                                 baseUrl: string, apiKey: string, provider: string -> FetchResult)
    requires CacheShapes(entries)
    requires ValidateRequest(pref.currencies, req).Ok?
    requires var rate := ResolveRate(entries, req.inputCurrency.value, req.outputCurrency.value, now, baseUrl, apiKey, provider).outcome;
             rate.Some? && RateValue(rate.value).None?
    ensures var r := Conversion(Some(pref), customerId, req, entries, now, baseUrl, apiKey, provider);
            r.outcome == Rejected(RateNotNumeric) && StatusCode(r.outcome.reason) == 500 &&
            r.entries == ResolveRate(entries, req.inputCurrency.value, req.outputCurrency.value, now, baseUrl, apiKey, provider).entries
  {
  }

  /** The stored decimal precision has no influence on create. */
  lemma ConversionIgnoresPrecision(currencies: seq<string>, p1: int, p2: int, customerId: int,
                                   req: ConversionRequest, entries: map<string, Entry>, now: int,
                                   baseUrl: string, apiKey: string, provider: string -> FetchResult)
    requires CacheShapes(entries)
    ensures Conversion(Some(Preference(currencies, p1)), customerId, req, entries, now, baseUrl, apiKey, provider) ==
            Conversion(Some(Preference(currencies, p2)), customerId, req, entries, now, baseUrl, apiKey, provider)
  {
  }

  /**
    A rate that one conversion fetched and cached serves the same request
    for the next hour: no second request, the same outcome. This needs the
    rate to be truthy; a cached rate of 0 counts as a miss.
  */
  lemma {:induction false} RepeatedConversionHitsCache(pref: Preference, customerId: int, req: ConversionRequest,
                                                       entries: map<string, Entry>, now: int, later: int,
                                                       baseUrl: string, apiKey: string, provider: string -> FetchResult)
    requires CacheShapes(entries)
    requires ValidateRequest(pref.currencies, req).Ok?
    requires !Hit(entries, RateKey(req.inputCurrency.value, req.outputCurrency.value), now)
    requires now <= later < now + CacheTimeout
    requires var url := ExchangeRateUrl(baseUrl, apiKey, req.inputCurrency.value, req.outputCurrency.value);
             RateField(provider(url)).Some? && JsonTruthy(RateField(provider(url)).value)
    ensures var first := Conversion(Some(pref), customerId, req, entries, now, baseUrl, apiKey, provider);
            var second := Conversion(Some(pref), customerId, req, first.entries, later, baseUrl, apiKey, provider);
            second.requested == [] && second.entries == first.entries && second.outcome == first.outcome
  {
    var key := RateKey(req.inputCurrency.value, req.outputCurrency.value);
    var url := ExchangeRateUrl(baseUrl, apiKey, req.inputCurrency.value, req.outputCurrency.value);
    var j := RateField(provider(url)).value;
    var first := Conversion(Some(pref), customerId, req, entries, now, baseUrl, apiKey, provider);
    assert first.entries == entries[key := Entry(Scalar(j), now + CacheTimeout)];
    assert Lookup(first.entries, key, later) == Some(Scalar(j));
  }

  /** A cached rate of 0 is falsy: the next conversion requests the pair again. */
  lemma {:induction false} ZeroRateIsFetchedAgain(pref: Preference, customerId: int, req: ConversionRequest,
                                                  entries: map<string, Entry>, now: int, later: int,
                                                  baseUrl: string, apiKey: string, provider: string -> FetchResult)
    requires CacheShapes(entries)
    requires ValidateRequest(pref.currencies, req).Ok?
    requires !Hit(entries, RateKey(req.inputCurrency.value, req.outputCurrency.value), now)
    requires var url := ExchangeRateUrl(baseUrl, apiKey, req.inputCurrency.value, req.outputCurrency.value);
             RateField(provider(url)).Some? && !JsonTruthy(RateField(provider(url)).value)
    ensures var url := ExchangeRateUrl(baseUrl, apiKey, req.inputCurrency.value, req.outputCurrency.value);
            var first := Conversion(Some(pref), customerId, req, entries, now, baseUrl, apiKey, provider);
            Conversion(Some(pref), customerId, req, first.entries, later, baseUrl, apiKey, provider).requested == [url]
  {
    var key := RateKey(req.inputCurrency.value, req.outputCurrency.value);
    var url := ExchangeRateUrl(baseUrl, apiKey, req.inputCurrency.value, req.outputCurrency.value);
    var first := Conversion(Some(pref), customerId, req, entries, now, baseUrl, apiKey, provider);
    assert first.entries == entries[key := Entry(Scalar(RateField(provider(url)).value), now + CacheTimeout)];
    assert !Hit(first.entries, key, later);
  }

  // ---------------------------------------------------------------------
  // AvailableCurrenciesListView.get

  /**
    get: a live, truthy value under `available_currencies` is returned as
    it is; otherwise the whole latest/USD payload is fetched, cached for an
    hour and returned. Only a failed fetch is a 502: the payload is not
    checked for conversion_rates.
  */
  function AvailableCurrencies(entries: map<string, Entry>, now: int,
                               baseUrl: string, apiKey: string, provider: string -> FetchResult)
    : (r: Step<Result<CacheValue, Rejection>>)
    requires CacheShapes(entries)
    ensures CacheShapes(r.entries)
    ensures r.outcome.Err? ==> r.outcome.error == CurrenciesFetchFailed && r.entries == entries
    ensures r.requested == [] <==> Hit(entries, AvailableKey, now)
    ensures r.requested == [] ==> r.entries == entries && r.outcome == Ok(entries[AvailableKey].value)
    ensures r.requested != [] ==>
              && r.requested == [LatestUrl(baseUrl, apiKey)]
              && (r.outcome.Err? <==> provider(LatestUrl(baseUrl, apiKey)).FetchFailed?)
              && (r.outcome.Ok? ==>
                    var p := provider(LatestUrl(baseUrl, apiKey)).payload;
                    r.outcome.value == WholePayload(p) &&
                    r.entries == entries[AvailableKey := Entry(WholePayload(p), now + 3600)])
  {
    if Hit(entries, AvailableKey, now) then Step(Ok(entries[AvailableKey].value), [], entries)
    else
      var url := LatestUrl(baseUrl, apiKey);
      match provider(url)
      case FetchFailed => Step(Err(CurrenciesFetchFailed), [url], entries)
      case Fetched(p) =>
        Step(Ok(WholePayload(p)), [url], entries[AvailableKey := Entry(WholePayload(p), now + CacheTimeout)])
  }

  /**
    A non-empty payload fetched once is served from the cache for the next
    hour; an empty one (`{}` is falsy) is fetched again.
  */
  lemma {:induction false} RepeatedListingHitsCache(entries: map<string, Entry>, now: int, later: int,
                                                    baseUrl: string, apiKey: string, provider: string -> FetchResult)
    requires CacheShapes(entries)
    requires !Hit(entries, AvailableKey, now)
    requires now <= later < now + CacheTimeout
    requires provider(LatestUrl(baseUrl, apiKey)).Fetched?
    ensures var first := AvailableCurrencies(entries, now, baseUrl, apiKey, provider);
            var second := AvailableCurrencies(first.entries, later, baseUrl, apiKey, provider);
            (second.requested == [] <==> |provider(LatestUrl(baseUrl, apiKey)).payload| > 0) &&
            (second.requested == [] ==> second.outcome == first.outcome)
  {
    var p := provider(LatestUrl(baseUrl, apiKey)).payload;
    var first := AvailableCurrencies(entries, now, baseUrl, apiKey, provider);
    assert Lookup(first.entries, AvailableKey, later) == Some(WholePayload(p));
  }

  // ---------------------------------------------------------------------
  // UserPreferenceUpdateView.update

  /** `request.data.get('decimal_precision', 2)`, by the JSON kinds that matter. */
  datatype PrecisionInput =
    | PrecisionAbsent
    | PrecisionInt(i: int)
    | PrecisionBool(b: bool)   // bool is a subclass of int in Python
    | PrecisionOther           // a string, float, null, list or object

  /**
    `isinstance(p, int) and p >= 0` with the default 2. True and False pass
    and are stored as 1 and 0; no upper bound is imposed.
  */
  function ResolvePrecision(p: PrecisionInput): (r: Option<int>)
    ensures r.Some? ==> r.value >= 0
    ensures p.PrecisionAbsent? ==> r == Some(2)
    ensures p.PrecisionInt? ==> (r.Some? <==> p.i >= 0) && (r.Some? ==> r.value == p.i)
    ensures p.PrecisionOther? ==> r.None?
    ensures p.PrecisionBool? ==> r.Some?
  {
    match p
    case PrecisionAbsent => Some(2)
    case PrecisionInt(i) => if i < 0 then None else Some(i)
    case PrecisionBool(b) => Some(if b then 1 else 0)
    case PrecisionOther => None
  }

  /**
    The codes `pair in available_currencies` tests against: the elements of
    a cached list, or the top-level keys of a cached payload.
  */
  function AvailableCodes(v: CacheValue): set<string>
    requires !v.Scalar?
  {
    match v
    case WholePayload(p) => p.Keys
    case CodeList(c) => c
  }

  /** `data.get('conversion_rates', {}).keys()`; None where `.keys()` raises. */
  function RateTableCodes(p: Payload): (r: Option<set<string>>)
    ensures "conversion_rates" !in p ==> r == Some({})
    ensures "conversion_rates" in p && p["conversion_rates"].JTable? ==> r == Some(p["conversion_rates"].rates.Keys)
    ensures "conversion_rates" in p && !p["conversion_rates"].JTable? ==> r.None?
  {
    if "conversion_rates" !in p then Some({})
    else match p["conversion_rates"]
      case JTable(t) => Some(t.Keys)
      case _ => None
  }

  /**
    The available codes from the cache, or fetched from latest/USD and then
    cached for an hour as a list of codes; None is the 502.
  */
  function ResolveAvailable(entries: map<string, Entry>, now: int,
                            baseUrl: string, apiKey: string, provider: string -> FetchResult)
    : (r: Step<Option<set<string>>>)
    requires CacheShapes(entries)
    ensures CacheShapes(r.entries)
    ensures r.outcome.None? ==> r.entries == entries
    ensures r.requested == [] <==> Hit(entries, AvailableKey, now)
    ensures r.requested == [] ==> r.entries == entries && r.outcome == Some(AvailableCodes(entries[AvailableKey].value))
    ensures r.requested != [] ==>
              && r.requested == [LatestUrl(baseUrl, apiKey)]
              && var f := provider(LatestUrl(baseUrl, apiKey));
              && (r.outcome.None? <==> f.FetchFailed? || RateTableCodes(f.payload).None?)
              && (r.outcome.Some? ==> r.outcome.value == RateTableCodes(f.payload).value)
              && (r.outcome.Some? ==> r.entries == entries[AvailableKey := Entry(CodeList(r.outcome.value), now + 3600)])
  {
    if Hit(entries, AvailableKey, now) then
      Step(Some(AvailableCodes(entries[AvailableKey].value)), [], entries)
    else
      var url := LatestUrl(baseUrl, apiKey);
      match provider(url)
      case FetchFailed => Step(None, [url], entries)
      case Fetched(p) =>
        match RateTableCodes(p)
        case None => Step(None, [url], entries)
        case Some(codes) => Step(Some(codes), [url], entries[AvailableKey := Entry(CodeList(codes), now + CacheTimeout)])
  }

  /** `[pair for pair in selected if pair not in available]`, in order. */
  function InvalidCodes(selected: seq<string>, available: set<string>): (r: seq<string>)
    ensures forall x :: x in r <==> x in selected && x !in available
    ensures |r| <= |selected|
  {
    if selected == [] then []
    else (if selected[0] in available then [] else [selected[0]]) + InvalidCodes(selected[1..], available)
  }

  /**
    The checks of update, in their order: exactly three selections, each
    available, then the precision. The result is the record to save.
  */
  function ValidatePreference(selected: seq<string>, precision: PrecisionInput, available: set<string>)
    : (r: Result<Preference, Rejection>)
    ensures r == Err(WrongSelectionCount) <==> |selected| != 3
    ensures r.Err? && r.error.InvalidSelections? <==>
              |selected| == 3 && exists x :: x in selected && x !in available
    ensures r.Err? && r.error.InvalidSelections? ==> r.error == InvalidSelections(InvalidCodes(selected, available))
    ensures r == Err(InvalidPrecision) <==>
              |selected| == 3 && (forall x :: x in selected ==> x in available) && ResolvePrecision(precision).None?
    ensures r.Ok? <==>
              |selected| == 3 && (forall x :: x in selected ==> x in available) && ResolvePrecision(precision).Some?
    ensures r.Ok? ==> r.value == Preference(selected, ResolvePrecision(precision).value) && r.value.precision >= 0
  {
    if |selected| != 3 then Err(WrongSelectionCount)
    else
      var invalid := InvalidCodes(selected, available);
      if invalid != [] then
        assert invalid[0] in selected && invalid[0] !in available;
        Err(InvalidSelections(invalid))
      else
        assert forall x :: x in selected ==> x in available;
        match ResolvePrecision(precision)
        case None => Err(InvalidPrecision)
        case Some(p) => Ok(Preference(selected, p))
  }

  /** The record `get_object` creates when the user has none; both fields are overwritten before saving. */
  const DefaultPreference := Preference([], 2)

  datatype UpdateStep = UpdateStep(
    outcome: Result<Preference, Rejection>,
    requested: seq<string>,
    entries: map<string, Entry>,
    preference: Option<Preference>
  )

  /**
    update: resolve the available codes (cache or provider), validate, and
    only then replace both preference fields together.
  */
  function PreferenceUpdate(pref: Option<Preference>, selected: seq<string>, precision: PrecisionInput,
                            entries: map<string, Entry>, now: int,
                            baseUrl: string, apiKey: string, provider: string -> FetchResult)
    : (r: UpdateStep)
    requires CacheShapes(entries)
    ensures CacheShapes(r.entries)
    ensures r.outcome.Err? ==> r.preference == pref
    ensures r.outcome.Ok? ==> r.preference == Some(r.outcome.value)
    ensures r.requested == ResolveAvailable(entries, now, baseUrl, apiKey, provider).requested
    ensures r.entries == ResolveAvailable(entries, now, baseUrl, apiKey, provider).entries
    ensures var a := ResolveAvailable(entries, now, baseUrl, apiKey, provider).outcome;
            && (a.None? ==> r.outcome == Err(CurrenciesFetchFailed))
            && (a.Some? && ValidatePreference(selected, precision, a.value).Err? ==>
                  r.outcome == ValidatePreference(selected, precision, a.value))
  {
    var avail := ResolveAvailable(entries, now, baseUrl, apiKey, provider);
    match avail.outcome
    case None => UpdateStep(Err(CurrenciesFetchFailed), avail.requested, avail.entries, pref)
    case Some(codes) =>
      match ValidatePreference(selected, precision, codes)
      case Err(e) => UpdateStep(Err(e), avail.requested, avail.entries, pref)
      case Ok(p) =>
        var record := if pref.Some? then pref.value else DefaultPreference;
        var saved := record.(currencies := p.currencies, precision := p.precision);
        UpdateStep(Ok(saved), avail.requested, avail.entries, Some(saved))
  }

  /**
    All or nothing: the stored preference changes exactly when every check
    passes, and then both fields take the requested values.
  */
  lemma PreferenceUpdateAllOrNothing(pref: Option<Preference>, selected: seq<string>, precision: PrecisionInput,
                                     entries: map<string, Entry>, now: int,
                                     baseUrl: string, apiKey: string, provider: string -> FetchResult)
    requires CacheShapes(entries)
    ensures var r := PreferenceUpdate(pref, selected, precision, entries, now, baseUrl, apiKey, provider);
            var avail := ResolveAvailable(entries, now, baseUrl, apiKey, provider).outcome;
            && (r.outcome.Ok? <==>
                  avail.Some? && |selected| == 3 && (forall x :: x in selected ==> x in avail.value) &&
                  ResolvePrecision(precision).Some?)
            && (r.outcome.Ok? ==>
                  r.preference == Some(Preference(selected, ResolvePrecision(precision).value)))
            && (r.outcome.Err? ==> r.preference == pref)
            && (avail.None? ==> r.outcome == Err(CurrenciesFetchFailed) && StatusCode(r.outcome.error) == 502)
  {
  }

  /**
    The key `available_currencies` holds the whole payload once the listing
    view has cached it, and update then tests selections against that
    payload's top-level keys ("result", "conversion_rates", ...): three
    codes that are not top-level keys are refused, even when they are
    among the payload's conversion rates.
  */
  lemma PayloadShapedCacheRefusesCodes(pref: Option<Preference>, selected: seq<string>, precision: PrecisionInput,
                                       entries: map<string, Entry>, now: int, p: Payload,
                                       baseUrl: string, apiKey: string, provider: string -> FetchResult)
    requires CacheShapes(entries)
    requires Lookup(entries, AvailableKey, now) == Some(WholePayload(p)) && |p| > 0
    requires |selected| == 3 && forall x :: x in selected ==> x !in p
    ensures PreferenceUpdate(pref, selected, precision, entries, now, baseUrl, apiKey, provider).outcome ==
            Err(InvalidSelections(selected))
  {
    InvalidCodesAllInvalid(selected, p.Keys);
  }

  lemma {:induction false} InvalidCodesAllInvalid(selected: seq<string>, available: set<string>)
    requires forall x :: x in selected ==> x !in available
    ensures InvalidCodes(selected, available) == selected
  {
    if selected != [] {
      InvalidCodesAllInvalid(selected[1..], available);
    }
  }
}
