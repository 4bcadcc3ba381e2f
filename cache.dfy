/**
  The shared TTL cache and the provider's JSON payloads. A payload is a
  JSON object whose values are modelled by the shapes the views read:
  numbers, strings, null and a table of rates.
*/
module Cache {
  import opened Wrappers
  import opened Decimals

  datatype Json =
    | JNull
    | JNumber(n: Decimal)
    | JString(s: string)
    | JTable(rates: map<string, Decimal>)

  type Payload = map<string, Json>

  /** What can be stored: a rate as the provider sent it, a payload, a list of codes. */
  datatype CacheValue =
    | Scalar(json: Json)
    | WholePayload(payload: Payload)
    | CodeList(codes: set<string>)

  datatype Entry = Entry(value: CacheValue, expiry: int)

  /** Python truthiness of a JSON value. */
  predicate JsonTruthy(j: Json)
  {
    match j
    case JNull => false
    case JNumber(n) => n.coef != 0
    case JString(s) => s != ""
    case JTable(t) => |t| > 0
  }

  /** Python truthiness of a cached value: `if cached:`. */
  predicate Truthy(v: CacheValue)
  {
    match v
    case Scalar(j) => JsonTruthy(j)
    case WholePayload(p) => |p| > 0
    case CodeList(c) => |c| > 0
  }

  /** `cache.get(key)`: the value while the entry lives, None once it has expired. */
  function Lookup(entries: map<string, Entry>, key: string, now: int): (r: Option<CacheValue>)
    ensures r.Some? <==> key in entries && now < entries[key].expiry
    ensures r.Some? ==> r.value == entries[key].value
  {
    if key in entries && now < entries[key].expiry then Some(entries[key].value) else None
  }

  /** The `if cached:` test of the views: present, unexpired and truthy. */
  predicate Hit(entries: map<string, Entry>, key: string, now: int)
    ensures Hit(entries, key, now) <==>
              key in entries && now < entries[key].expiry && Truthy(entries[key].value)
  {
    var r := Lookup(entries, key, now);
    r.Some? && Truthy(r.value)
  }

  /** An entry written at t0 with a timeout lives until just before t0 + timeout. */
  lemma ExpiryBoundary(entries: map<string, Entry>, key: string, v: CacheValue, t0: int, timeout: nat, t: int)
    ensures Lookup(entries[key := Entry(v, t0 + timeout)], key, t) ==
            (if t < t0 + timeout then Some(v) else None)
  {
  }

  /** Writing one key leaves every other key's lookup as it was. */
  lemma SetOtherKey(entries: map<string, Entry>, key: string, other: string, e: Entry, t: int)
    requires other != key
    ensures Lookup(entries[key := e], other, t) == Lookup(entries, other, t)
  {
  }

  /** Django's cache object: a mutable map of entries shared by all views. */
  class RateCache {
    var entries: map<string, Entry>

    constructor ()
      ensures entries == map[]
    {
      entries := map[];
    }

    /** `cache.set(key, value, timeout=timeout)` at time now. */
    method Set(key: string, value: CacheValue, timeout: nat, now: int)
      modifies this
      ensures entries == old(entries)[key := Entry(value, now + timeout)]
    {
      entries := entries[key := Entry(value, now + timeout)];
    }
  }
}
