/**
  The views run as a service over mutable state: the shared rate cache and
  the requesting user's preference record. Each method performs the view's
  steps in the source's order, with early returns, and its postcondition
  ties the response, the provider requests and the new state to the view
  functions of module Views.
*/
module FxService {
  import opened Wrappers
  import opened Cache
  import opened Views

  class Service {
    const cache: RateCache
    const baseUrl: string   // settings.EXCHANGE_RATE_API_URL
    const apiKey: string    // settings.EXCHANGE_RATE_API_KEY
    var preference: Option<Preference>

    ghost predicate Valid()
      reads this, cache
    {
      CacheShapes(cache.entries)
    }

    constructor (cache: RateCache, baseUrl: string, apiKey: string, preference: Option<Preference>)
      requires CacheShapes(cache.entries)
      ensures Valid()
      ensures this.cache == cache && this.baseUrl == baseUrl && this.apiKey == apiKey
      ensures this.preference == preference
    {
      this.cache := cache;
      this.baseUrl := baseUrl;
      this.apiKey := apiKey;
      this.preference := preference;
    }

    /** TransactionCreateView.create. */
    method CreateTransaction(customerId: int, req: ConversionRequest, now: int, provider: string -> FetchResult)
      returns (outcome: ConversionOutcome, requested: seq<string>)
      requires Valid()
      modifies cache
      ensures Valid()
      ensures Step(outcome, requested, cache.entries) ==
              Conversion(preference, customerId, req, old(cache.entries), now, baseUrl, apiKey, provider)
    {
      if preference.None? {
        return Rejected(NoPreferenceRecord), [];
      }
      var subscribed := preference.value.currencies;
      var checked := ValidateRequest(subscribed, req);
      if checked.Err? {
        return Rejected(checked.error), [];
      }
      var amount := checked.value;
      var input, output := req.inputCurrency.value, req.outputCurrency.value;
      ghost var resolved := ResolveRate(cache.entries, input, output, now, baseUrl, apiKey, provider);
      var key := RateKey(input, output);
      RateKeyIsNotAvailableKey(input, output);
      var rate: Json;
      var cached := Lookup(cache.entries, key, now);
      if cached.Some? && Truthy(cached.value) {
        assert Hit(cache.entries, key, now);
        rate := cached.value.json;
        requested := [];
      } else {
        assert !Hit(cache.entries, key, now);
        var url := ExchangeRateUrl(baseUrl, apiKey, input, output);
        requested := [url];
        var field := RateField(provider(url));
        if field.None? {
          outcome := Rejected(RateFetchFailed);
          return;
        }
        rate := field.value;
        cache.Set(key, Scalar(rate), CacheTimeout, now);
      }
      assert resolved == Step(Some(rate), requested, cache.entries);
      outcome := Finish(amount, rate, customerId);
    }

    /** AvailableCurrenciesListView.get. */
    method GetAvailableCurrencies(now: int, provider: string -> FetchResult)
      returns (outcome: Result<CacheValue, Rejection>, requested: seq<string>)
      requires Valid()
      modifies cache
      ensures Valid()
      ensures Step(outcome, requested, cache.entries) ==
              AvailableCurrencies(old(cache.entries), now, baseUrl, apiKey, provider)
    {
      var cached := Lookup(cache.entries, AvailableKey, now);
      if cached.Some? && Truthy(cached.value) {
        return Ok(cached.value), [];
      }
      var url := LatestUrl(baseUrl, apiKey);
      requested := [url];
      var fetched := provider(url);
      if fetched.FetchFailed? {
        outcome := Err(CurrenciesFetchFailed);
        return;
      }
      cache.Set(AvailableKey, WholePayload(fetched.payload), CacheTimeout, now);
      outcome := Ok(WholePayload(fetched.payload));
    }

    /** UserPreferenceUpdateView.get_object: the user's record, created on first use. */
    method GetObject() returns (record: Preference)
      modifies this
      ensures preference == Some(record)
      ensures record == if old(preference).Some? then old(preference).value else DefaultPreference
    {
      if preference.None? {
        preference := Some(DefaultPreference);
      }
      record := preference.value;
    }

    /** UserPreferenceUpdateView.update. */
    method UpdatePreference(selected: seq<string>, precision: PrecisionInput, now: int, provider: string -> FetchResult)
      returns (outcome: Result<Preference, Rejection>, requested: seq<string>)
      requires Valid()
      modifies this, cache
      ensures Valid()
      ensures UpdateStep(outcome, requested, cache.entries, preference) ==
              PreferenceUpdate(old(preference), selected, precision, old(cache.entries), now, baseUrl, apiKey, provider)
    {
      var available: set<string>;
      ghost var resolved := ResolveAvailable(cache.entries, now, baseUrl, apiKey, provider);
      var cached := Lookup(cache.entries, AvailableKey, now);
      if cached.Some? && Truthy(cached.value) {
        available := AvailableCodes(cached.value);
        requested := [];
      } else {
        var url := LatestUrl(baseUrl, apiKey);
        requested := [url];
        var fetched := provider(url);
        if fetched.FetchFailed? {
          outcome := Err(CurrenciesFetchFailed);
          return;
        }
        var codes := RateTableCodes(fetched.payload);
        if codes.None? {
          outcome := Err(CurrenciesFetchFailed);
          return;
        }
        available := codes.value;
        cache.Set(AvailableKey, CodeList(available), CacheTimeout, now);
      }
      assert resolved == Step(Some(available), requested, cache.entries);
      var checked := ValidatePreference(selected, precision, available);
      if checked.Err? {
        outcome := Err(checked.error);
        return;
      }
      var record := GetObject();
      record := record.(currencies := checked.value.currencies, precision := checked.value.precision);
      preference := Some(record);
      outcome := Ok(record);
    }
  }
}
