/** The exchange-rate module: the cache of rate tables by base currency, its 24-hour
    validity, the direct-rate `convert`, and the bookkeeping of `fetchRatesForBase`
    around its network call. The network answer is a parameter; time is passed in. */
module Fx {
  import opened Js
  import Lines
  import Money

  /** `CACHE_TTL_MS`: 24 hours in milliseconds. */
  const CacheTtlMs: int := 24 * 60 * 60 * 1000

  /** A cached rate table: when it was fetched (0 when the record has no truthy
      `fetchedAt`) and the rate of each quote currency. */
  datatype BaseRates = BaseRates(fetchedAt: int, rates: map<string, real>)

  /** `ratesByBase`: rate tables by base currency. */
  type RatesByBase = map<string, BaseRates>

  /** `isCacheValid(base)`: a table for `base` with a truthy `fetchedAt` less than 24
      hours old. */
  predicate CacheValid(cache: RatesByBase, base: string, now: int) {
    base in cache && cache[base].fetchedAt != 0 && now - cache[base].fetchedAt < CacheTtlMs
  }

  /** A missing or absent code is the default currency; codes are upper-cased. */
  function Code(c: string): (r: string)
    ensures |r| == |OrStr(c, Lines.DefaultCurrency)|
  {
    ToUpper(OrStr(c, Lines.DefaultCurrency))
  }

  /** `ratesByBase[from]?.rates?.[to]`, when defined. */
  function DirectRate(cache: RatesByBase, from: string, to: string): Option<real> {
    if from in cache && to in cache[from].rates then Some(cache[from].rates[to]) else None
  }

  /** The value `convert(amount, from, to)` returns. */
  function ConvertValue(cache: RatesByBase, amount: Num, from: string, to: string): Num {
    var f, t := Code(from), Code(to);
    if f == t then amount
    else match DirectRate(cache, f, t)
      case Some(rate) => Times(amount, Real(rate))
      case None => NaN
  }

  /** A missing rate asks for a fetch of the source base, unless its table is still
      valid or a fetch for it is already running. */
  predicate WantsFetch(cache: RatesByBase, inFlight: set<string>, from: string, to: string, now: int) {
    var f, t := Code(from), Code(to);
    f != t && DirectRate(cache, f, t).None? && !CacheValid(cache, f, now) && f !in inFlight
  }

  /** The cache as a converter, for the money aggregation. */
  function Converter(cache: RatesByBase): Money.Converter {
    (amount: Num, from: string, to: string) => ConvertValue(cache, amount, from, to)
  }

  /** The three outcomes of `convert`: the same code returns the amount, a direct
      rate multiplies, and anything else is NaN. */
  lemma ConvertOutcomes(cache: RatesByBase, amount: Num, from: string, to: string)
    ensures var f, t := Code(from), Code(to);
      && (f == t ==> ConvertValue(cache, amount, from, to) == amount)
      && (f != t && f in cache && t in cache[f].rates ==>
            ConvertValue(cache, amount, from, to) == Times(amount, Real(cache[f].rates[t])))
      && (f != t && !(f in cache && t in cache[f].rates) ==> ConvertValue(cache, amount, from, to) == NaN)
  {
  }

  /** No cross rate: the result depends on the source base's table alone, so two
      caches that agree on it convert alike. */
  lemma ConvertUsesSourceTable(c1: RatesByBase, c2: RatesByBase, amount: Num, from: string, to: string)
    requires Code(from) in c1 <==> Code(from) in c2
    requires Code(from) in c1 ==> c1[Code(from)].rates == c2[Code(from)].rates
    ensures ConvertValue(c1, amount, from, to) == ConvertValue(c2, amount, from, to)
  {
  }

  /** An empty code means the default currency, and case does not matter. */
  lemma ConvertDefaults(cache: RatesByBase, amount: Num, from: string, to: string)
    ensures ConvertValue(cache, amount, "", to) == ConvertValue(cache, amount, Lines.DefaultCurrency, to)
    ensures ConvertValue(cache, amount, from, "") == ConvertValue(cache, amount, from, Lines.DefaultCurrency)
    ensures from != "" ==> ConvertValue(cache, amount, ToUpper(from), to) == ConvertValue(cache, amount, from, to)
  {
    if from != "" {
      UpperIdempotent(from);
    }
  }

  lemma UpperIdempotent(s: string)
    ensures ToUpper(ToUpper(s)) == ToUpper(s)
  {
    assert forall i :: 0 <= i < |s| ==> UpperChar(UpperChar(s[i])) == UpperChar(s[i]);
  }

  /** The rate state of the page: the cache, the bases being fetched, and the fetches
      started so far (the network requests, in order). */
  class Rates {
    var cache: RatesByBase
    var inFlight: set<string>
    var requests: seq<string>

    constructor (loaded: RatesByBase)
      ensures cache == loaded && inFlight == {} && requests == []
    {
      cache := loaded;
      inFlight := {};
      requests := [];
    }

    /** The synchronous start of `fetchRatesForBase(base)`: `null` at once when the
        base is in flight, else the base is marked in flight and its request sent. */
    method BeginFetch(base: string) returns (started: bool)
      modifies this
      ensures started <==> base !in old(inFlight)
      ensures inFlight == old(inFlight) + {base}
      ensures requests == old(requests) + (if started then [base] else [])
      ensures cache == old(cache)
    {
      if base in inFlight {
        return false;
      }
      inFlight := inFlight + {base};
      requests := requests + [base];
      started := true;
    }

    /** The end of `fetchRatesForBase(base)` once the response is in: a table stamped
        `now` with the self-rate 1 added is stored and returned; a failed request
        stores nothing and returns `null`. The base is no longer in flight. */
    method CompleteFetch(base: string, now: int, response: Option<map<string, real>>) returns (r: Option<BaseRates>)
      modifies this
      ensures r.Some? <==> response.Some?
      ensures r.Some? ==> r.value == BaseRates(now, response.value[base := 1.0]) && cache == old(cache)[base := r.value]
      ensures r.None? ==> cache == old(cache)
      ensures inFlight == old(inFlight) - {base}
      ensures requests == old(requests)
    {
      if response.Some? {
        var rec := BaseRates(now, response.value[base := 1.0]);
        cache := cache[base := rec];
        r := Some(rec);
      } else {
        r := None;
      }
      inFlight := inFlight - {base};
    }

    /** `convert(amount, from, to)`: the value, and the fetch it may start. */
    method Convert(amount: Num, from: string, to: string, now: int) returns (r: Num)
      modifies this
      ensures r == ConvertValue(old(cache), amount, from, to)
      ensures cache == old(cache)
      ensures var f := Code(from);
        if WantsFetch(old(cache), old(inFlight), from, to, now)
        then inFlight == old(inFlight) + {f} && requests == old(requests) + [f]
        else inFlight == old(inFlight) && requests == old(requests)
    {
      var f, t := Code(from), Code(to);
      if f == t {
        return amount;
      }
      if f in cache && t in cache[f].rates {
        return Times(amount, Real(cache[f].rates[t]));
      }
      if !CacheValid(cache, f, now) && f !in inFlight {
        var _ := BeginFetch(f);
      }
      r := NaN;
    }
  }

  /** A stored table always holds the self-rate 1 and is valid for the next 24
      hours, so converting from that base to a currency it lists uses the fetched
      rate, and converting into the base itself is the identity. */
  lemma FetchedTable(cache: RatesByBase, base: string, now: int, fetched: map<string, real>, later: int)
    requires base != "" && ToUpper(base) == base
    ensures var c := cache[base := BaseRates(now, fetched[base := 1.0])];
      && DirectRate(c, base, base) == Some(1.0)
      && (now != 0 && now <= later < now + CacheTtlMs ==> CacheValid(c, base, later))
      && (later >= now + CacheTtlMs ==> !CacheValid(c, base, later))
      && (forall to :: to in fetched && to != "" && ToUpper(to) == to && to != base ==>
            ConvertValue(c, Real(1.0), base, to) == Real(fetched[to]))
  {
    var c := cache[base := BaseRates(now, fetched[base := 1.0])];
    assert c[base].rates[base] == 1.0;
    forall to | to in fetched && to != "" && ToUpper(to) == to && to != base
      ensures ConvertValue(c, Real(1.0), base, to) == Real(fetched[to])
    {
      FetchedQuote(c, base, to, fetched[to]);
    }
  }

  lemma FetchedQuote(c: RatesByBase, base: string, to: string, rate: real)
    requires base != "" && ToUpper(base) == base && to != "" && ToUpper(to) == to && to != base
    requires base in c && to in c[base].rates && c[base].rates[to] == rate
    ensures ConvertValue(c, Real(1.0), base, to) == Real(rate)
  {
    assert OrStr(base, Lines.DefaultCurrency) == base && OrStr(to, Lines.DefaultCurrency) == to;
    assert Code(base) == base && Code(to) == to;
    assert DirectRate(c, base, to) == Some(rate);
    assert 1.0 * rate == rate;
  }
}
