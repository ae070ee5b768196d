/** The price cache: eviction and staleness (internal/price/service.go). */
module Prices {
  import opened Sorting
  import opened Wrappers

  /** Stale entries are served up to this many times the TTL. */
  const MAX_STALE_FACTOR := 10

  const DEFAULT_TTL := 60_000_000_000

  datatype CachedPrice = CachedPrice(usd: real, updatedAt: int)

  type Cache = map<string, CachedPrice>

  /** A fetched price that was put in the cache at some time. */
  datatype Quote = Quote(key: string, usd: real, at: int)

  /** What a request to the price API produced; an entry may lack its USD field. */
  datatype Fetch = Failed | Garbled | Prices(byId: map<string, Option<real>>)

  datatype PriceError = FetchFailed | BadResponse | NoData

  /** Another caller's write: it waits, then stores a price that it fetched. */
  datatype Write = Write(delay: nat, key: string, usd: real, pause: nat)

  /** What a request asks for, with the outcome of its fetch and the writes that come in between. */
  datatype Query =
    | ByID(coinID: string, fetch: Fetch, meanwhile: seq<Write>, pause: nat)
    | ByContract(contractAddr: string, fetch: Fetch, meanwhile: seq<Write>, pause: nat)
    | Batch(coinIDs: seq<string>, fetch: Fetch, meanwhile: seq<Write>, pause: nat)

  /** A request that comes after some idle time and other callers' writes. */
  datatype Request = Request(idle: nat, before: seq<Write>, query: Query)

  datatype Answer =
    | One(price: Result<real, PriceError>, readAt: int, attempted: bool)
    | Many(prices: Result<map<string, real>, PriceError>, readAt: int)

  function IDKey(coinID: string): string {
    "id:" + coinID
  }

  function ContractKey(contractAddr: string): string {
    "contract:" + Lower(contractAddr)
  }

  /** A price for `key` went into the cache less than `age` before `time`. */
  predicate FetchedWithin(log: set<Quote>, key: string, usd: real, time: int, age: int) {
    exists q :: q in log && q.key == key && q.usd == usd && q.at <= time && time - q.at < age
  }

  predicate StoredSince(log: set<Quote>, key: string, usd: real, time: int) {
    exists q :: q in log && q.key == key && q.usd == usd && time <= q.at
  }

  /** Without a fetch only fresh prices are served; after a failed one, stale ones too. */
  function AgeBound(ttl: int, attempted: bool): int {
    if attempted then ttl * MAX_STALE_FACTOR else ttl
  }

  /** One price: stored for its key within the bound before it was read. */
  predicate OneBounded(log: set<Quote>, ttl: int, key: string, a: Answer) {
    && a.One?
    && (a.price.Ok? ==> FetchedWithin(log, key, a.price.value, a.readAt, AgeBound(ttl, a.attempted)))
  }

  /** A batch: prices just fetched, or requested ones fetched less than ten TTLs before they were read. */
  predicate BatchBounded(log: set<Quote>, ttl: int, coinIDs: seq<string>, fetch: Fetch, a: Answer) {
    && a.Many?
    && (a.prices.Ok? ==> forall id :: id in a.prices.value ==>
          var usd := a.prices.value[id];
          if fetch.Prices? then
            && id in fetch.byId && fetch.byId[id] == Some(usd)
            && StoredSince(log, IDKey(id), usd, a.readAt)
          else id in coinIDs && FetchedWithin(log, IDKey(id), usd, a.readAt, ttl * MAX_STALE_FACTOR))
  }

  predicate Bounded(log: set<Quote>, ttl: int, q: Query, a: Answer) {
    match q
    case ByID(coinID, _, _, _) => OneBounded(log, ttl, IDKey(coinID), a)
    case ByContract(contractAddr, _, _, _) => OneBounded(log, ttl, ContractKey(contractAddr), a)
    case Batch(coinIDs, fetch, _, _) => BatchBounded(log, ttl, coinIDs, fetch, a)
  }

  /** A longer log proves what a shorter one did. */
  lemma StaysBounded(log: set<Quote>, longer: set<Quote>, ttl: int, q: Query, a: Answer)
    requires log <= longer && Bounded(log, ttl, q, a)
    ensures Bounded(longer, ttl, q, a)
  {
  }

  function Lower(s: string): (r: string)
    ensures |r| == |s|
  {
    seq(|s|, i requires 0 <= i < |s| => if 'A' <= s[i] <= 'Z' then 'a' + (s[i] - 'A') else s[i])
  }

  function Without(c: Cache, keys: set<string>): Cache {
    map k | k in c && k !in keys :: c[k]
  }

  /** The entries no older than `age` at time `now`. */
  function Recent(c: Cache, now: int, age: int): Cache {
    map k | k in c && now - c[k].updatedAt <= age :: c[k]
  }

  // ----- Eviction -----

  datatype Timed = Timed(key: string, at: int)

  predicate Older(a: Timed, b: Timed) {
    a.at <= b.at
  }

  /** `kept` is what eviction may leave of `full`: a newest part of it, with its prices. */
  ghost predicate KeepsNewest(full: Cache, kept: Cache) {
    && (forall k :: k in kept ==> k in full && kept[k] == full[k])
    && (forall k, e :: k in kept && e in full && e !in kept ==> full[e].updatedAt <= kept[k].updatedAt)
  }

  lemma KeepsNewestTwice(full: Cache, middle: Cache, kept: Cache)
    requires KeepsNewest(full, middle) && KeepsNewest(middle, kept)
    ensures KeepsNewest(full, kept)
  {
  }

  /** The entries of a cache, oldest first; equal ages in any order. */
  method ByAge(c: Cache) returns (order: seq<Timed>)
    ensures Sorted(order, Older) && Distinct(order) && |order| == |c|
    ensures forall t :: t in order <==> t.key in c && c[t.key].updatedAt == t.at
  {
    var entries: seq<Timed> := [];
    var left := c.Keys;
    while left != {}
      invariant left <= c.Keys && |entries| + |left| == |c.Keys|
      invariant Distinct(entries)
      invariant forall t :: t in entries <==> t.key in c && t.key !in left && c[t.key].updatedAt == t.at
      decreases |left|
    {
      var k :| k in left;
      assert Timed(k, c[k].updatedAt) !in entries;
      entries := entries + [Timed(k, c[k].updatedAt)];
      left := left - {k};
    }
    order := Sort(entries, Older);
    SameDistinct(entries, order);
    assert |multiset(order)| == |multiset(entries)|;
    forall t ensures t in order <==> t in entries {
      assert t in multiset(order) <==> t in multiset(entries);
    }
  }

  function Keys(order: seq<Timed>): set<string> {
    set t | t in order :: t.key
  }

  lemma {:induction false} KeysCount(order: seq<Timed>)
    requires forall i, j :: 0 <= i < j < |order| ==> order[i].key != order[j].key
    ensures |Keys(order)| == |order|
  {
    if order != [] {
      var front, last := order[..|order| - 1], order[|order| - 1];
      KeysCount(front);
      assert order == front + [last];
      assert Keys(order) == Keys(front) + {last.key};
    }
  }

  /** Dropping the oldest entries keeps the newest. */
  lemma OldestDropped(c: Cache, order: seq<Timed>, n: nat)
    requires Sorted(order, Older) && Distinct(order) && n <= |order| == |c|
    requires forall t :: t in order <==> t.key in c && c[t.key].updatedAt == t.at
    ensures KeepsNewest(c, Without(c, Keys(order[..n])))
    ensures |Without(c, Keys(order[..n]))| == |c| - n
  {
    var kept := Without(c, Keys(order[..n]));
    forall i | 0 <= i < n
      ensures order[i].key in Keys(order[..n])
    {
      assert order[..n][i] in order[..n];
    }
    forall k, e | k in kept && e in c && e !in kept
      ensures c[e].updatedAt <= kept[k].updatedAt
    {
      assert Timed(k, c[k].updatedAt) in order && Timed(e, c[e].updatedAt) in order;
      var i :| 0 <= i < |order| && order[i] == Timed(k, c[k].updatedAt);
      var j :| 0 <= j < n && order[j].key == e;
      assert order[j] in order;
      assert Older(order[j], order[i]);
    }
    forall i, j | 0 <= i < j < n
      ensures order[..n][i].key != order[..n][j].key
    {
      assert order[i] in order && order[j] in order;
    }
    KeysCount(order[..n]);
    assert Keys(order[..n]) <= c.Keys by {
      forall k | k in Keys(order[..n]) ensures k in c {
        var t :| t in order[..n] && t.key == k;
        assert t in order;
      }
    }
    assert kept.Keys == c.Keys - Keys(order[..n]);
  }

  // ----- The service -----

  class Service {
    const cacheTTL: int
    const maxCacheSize: int
    var cache: Cache
    var now: int
    /** Every price ever put in the cache. */
    ghost var log: set<Quote>

    ghost predicate Valid()
      reads this
    {
      && cacheTTL > 0
      && (forall k :: k in cache ==> Quote(k, cache[k].usd, cache[k].updatedAt) in log)
      && (forall q :: q in log ==> q.at <= now)
    }

    constructor (ttl: int, max: int, start: int)
      ensures Valid() && cache == map[] && log == {} && now == start
      ensures cacheTTL == if ttl <= 0 then DEFAULT_TTL else ttl
      ensures maxCacheSize == max
    {
      cacheTTL := if ttl <= 0 then DEFAULT_TTL else ttl;
      maxCacheSize := max;
      cache, now, log := map[], start, {};
    }

    function GetCached(key: string): Option<CachedPrice>
      reads this
    {
      if key in cache && now - cache[key].updatedAt < cacheTTL then Some(cache[key]) else None
    }

    function GetStale(key: string): Option<CachedPrice>
      reads this
    {
      if key in cache && now - cache[key].updatedAt < cacheTTL * MAX_STALE_FACTOR then Some(cache[key]) else None
    }

    /** Drops what is beyond the stale age. */
    method DropStale(age: int)
      modifies this`cache
      ensures cache == Recent(old(cache), now, age)
    {
      var left := cache.Keys;
      while left != {}
        invariant left <= old(cache).Keys
        invariant cache
                  == map k | k in old(cache) && (k in left || now - old(cache)[k].updatedAt <= age) :: old(cache)[k]
        decreases |left|
      {
        var k :| k in left;
        if now - cache[k].updatedAt > age {
          cache := cache - {k};
        }
        left := left - {k};
      }
    }

    /** Drops the oldest entries until the cache is within its size. */
    method DropOldest()
      requires 0 <= maxCacheSize < |cache|
      modifies this`cache
      ensures |cache| == maxCacheSize && KeepsNewest(old(cache), cache)
    {
      var order := ByAge(cache);
      var toRemove := |cache| - maxCacheSize;
      for i := 0 to toRemove
        invariant cache == Without(old(cache), Keys(order[..i]))
      {
        assert order[..i + 1] == order[..i] + [order[i]];
        cache := cache - {order[i].key};
      }
      OldestDropped(old(cache), order, toRemove);
    }

    /** Both passes of eviction. */
    method Evict()
      requires maxCacheSize >= 0
      modifies this`cache
      ensures |cache| <= maxCacheSize && KeepsNewest(old(cache), cache)
      ensures |old(cache)| <= maxCacheSize ==> cache == old(cache)
      ensures forall k :: k in old(cache) && k !in cache ==>
                            |cache| == maxCacheSize || now - old(cache)[k].updatedAt > cacheTTL * MAX_STALE_FACTOR
    {
      if |cache| > maxCacheSize {
        DropStale(cacheTTL * MAX_STALE_FACTOR);
        ghost var middle := cache;
        assert KeepsNewest(old(cache), middle);
        if |cache| > maxCacheSize {
          DropOldest();
          KeepsNewestTwice(old(cache), middle, cache);
        }
      }
    }

    /** Stores a fetched price; `pause` separates the two readings of the clock. */
    method SetCache(key: string, usd: real, pause: nat)
      requires Valid() && maxCacheSize >= 0
      modifies this
      ensures Valid() && log == old(log) + {Quote(key, usd, old(now))} && now == old(now) + pause
      ensures var full := old(cache)[key := CachedPrice(usd, old(now))];
              && |cache| <= maxCacheSize && KeepsNewest(full, cache)
              && (|full| <= maxCacheSize ==> cache == full)
              && (forall k :: k in full && k !in cache ==>
                                |cache| == maxCacheSize || now - full[k].updatedAt > cacheTTL * MAX_STALE_FACTOR)
      ensures && maxCacheSize >= 1 && pause <= cacheTTL * MAX_STALE_FACTOR
              && (forall k :: k in old(cache) && k != key ==> old(cache)[k].updatedAt < old(now)) ==>
                key in cache
    {
      cache := cache[key := CachedPrice(usd, now)];
      log := log + {Quote(key, usd, now)};
      ghost var full := cache;
      now := now + pause;
      Evict();
      if maxCacheSize >= 1 && |cache| == maxCacheSize
         && forall k :: k in full && k != key ==> full[k].updatedAt < full[key].updatedAt {
        NewestSurvives(full, cache, key);
      }
    }

    /** Other callers' writes between two steps of one call. */
    method Others(writes: seq<Write>)
      requires Valid() && maxCacheSize >= 0
      modifies this
      ensures Valid() && log >= old(log) && now >= old(now)
    {
      for i := 0 to |writes|
        invariant Valid() && log >= old(log) && now >= old(now)
      {
        now := now + writes[i].delay;
        SetCache(writes[i].key, writes[i].usd, writes[i].pause);
      }
    }

    /** `readAt` is when the answer was read; `attempted` tells whether a fetch was made. */
    method GetPriceByID(coinID: string, fetch: Fetch, meanwhile: seq<Write>, pause: nat)
      returns (r: Result<real, PriceError>, readAt: int, attempted: bool)
      requires Valid() && maxCacheSize >= 0
      modifies this
      ensures Valid() && log >= old(log) && old(now) <= readAt <= now
      ensures r.Ok? ==>
                FetchedWithin(log, IDKey(coinID), r.value, readAt, AgeBound(cacheTTL, attempted))
      ensures attempted <==> old(GetCached(IDKey(coinID))).None?
      ensures !attempted ==> r.Ok?
      ensures attempted && fetch.Prices? ==>
                r == if coinID in fetch.byId && fetch.byId[coinID].Some? then Ok(fetch.byId[coinID].value)
                    else Err(NoData)
      ensures attempted && fetch.Garbled? ==> r == Err(BadResponse)
      ensures attempted && fetch.Failed? ==>
                var stale := GetStale(IDKey(coinID));
                r == if stale.Some? then Ok(stale.value.usd) else Err(FetchFailed)
    {
      var cacheKey := IDKey(coinID);
      var cached := GetCached(cacheKey);
      readAt, attempted := now, false;
      if cached.Some? {
        assert Quote(cacheKey, cached.value.usd, cached.value.updatedAt) in log;
        return Ok(cached.value.usd), readAt, attempted;
      }
      attempted := true;
      Others(meanwhile);
      readAt := now;
      match fetch
      case Failed =>
        var stale := GetStale(cacheKey);
        if stale.Some? {
          assert Quote(cacheKey, stale.value.usd, stale.value.updatedAt) in log;
          return Ok(stale.value.usd), readAt, attempted;
        }
        return Err(FetchFailed), readAt, attempted;
      case Garbled =>
        return Err(BadResponse), readAt, attempted;
      case Prices(byId) =>
        if coinID !in byId || byId[coinID].None? {
          return Err(NoData), readAt, attempted;
        }
        var usd := byId[coinID].value;
        SetCache(cacheKey, usd, pause);
        assert Quote(cacheKey, usd, readAt) in log;
        return Ok(usd), readAt, attempted;
    }

    method GetPriceByContract(contractAddr: string, fetch: Fetch, meanwhile: seq<Write>, pause: nat)
      returns (r: Result<real, PriceError>, readAt: int, attempted: bool)
      requires Valid() && maxCacheSize >= 0
      modifies this
      ensures Valid() && log >= old(log) && old(now) <= readAt <= now
      ensures r.Ok? ==>
                FetchedWithin(log, ContractKey(contractAddr), r.value, readAt, AgeBound(cacheTTL, attempted))
      ensures attempted <==> old(GetCached(ContractKey(contractAddr))).None?
      ensures !attempted ==> r.Ok?
      ensures attempted && fetch.Prices? ==>
                if r.Ok? then
                  exists k :: k in fetch.byId && Lower(k) == Lower(contractAddr) && fetch.byId[k] == Some(r.value)
                else forall k :: k in fetch.byId && Lower(k) == Lower(contractAddr) ==> fetch.byId[k].None?
      ensures attempted && fetch.Garbled? ==> r == Err(BadResponse)
      ensures attempted && fetch.Failed? ==>
                var stale := GetStale(ContractKey(contractAddr));
                r == if stale.Some? then Ok(stale.value.usd) else Err(FetchFailed)
    {
      var lowerAddr := Lower(contractAddr);
      var cacheKey := ContractKey(contractAddr);
      var cached := GetCached(cacheKey);
      readAt, attempted := now, false;
      if cached.Some? {
        assert Quote(cacheKey, cached.value.usd, cached.value.updatedAt) in log;
        return Ok(cached.value.usd), readAt, attempted;
      }
      attempted := true;
      Others(meanwhile);
      readAt := now;
      if fetch.Failed? {
        var stale := GetStale(cacheKey);
        if stale.Some? {
          assert Quote(cacheKey, stale.value.usd, stale.value.updatedAt) in log;
          return Ok(stale.value.usd), readAt, attempted;
        }
        return Err(FetchFailed), readAt, attempted;
      }
      if fetch.Garbled? {
        return Err(BadResponse), readAt, attempted;
      }
      var left := fetch.byId.Keys;
      while left != {}
        invariant left <= fetch.byId.Keys
        invariant forall k :: k in fetch.byId && k !in left && Lower(k) == lowerAddr ==> fetch.byId[k].None?
        invariant Valid() && log >= old(log) && now == readAt >= old(now)
        decreases |left|
      {
        var k :| k in left;
        if Lower(k) == lowerAddr && fetch.byId[k].Some? {
          var usd := fetch.byId[k].value;
          SetCache(cacheKey, usd, pause);
          assert Quote(cacheKey, usd, readAt) in log;
          return Ok(usd), readAt, attempted;
        }
        left := left - {k};
      }
      return Err(NoData), readAt, attempted;
    }

    method BatchStale(coinIDs: seq<string>) returns (prices: map<string, real>)
      requires Valid()
      ensures forall id :: id in prices <==> id in coinIDs && GetStale(IDKey(id)).Some?
      ensures forall id :: id in prices ==> prices[id] == GetStale(IDKey(id)).value.usd
    {
      prices := map[];
      for i := 0 to |coinIDs|
        invariant forall id :: id in prices <==> id in coinIDs[..i] && GetStale(IDKey(id)).Some?
        invariant forall id :: id in prices ==> prices[id] == GetStale(IDKey(id)).value.usd
      {
        var stale := GetStale(IDKey(coinIDs[i]));
        if stale.Some? {
          prices := prices[coinIDs[i] := stale.value.usd];
        }
      }
    }

    method BatchGetPrices(coinIDs: seq<string>, fetch: Fetch, meanwhile: seq<Write>, pause: nat)
      returns (r: Result<map<string, real>, PriceError>, readAt: int)
      requires Valid() && maxCacheSize >= 0
      modifies this
      ensures Valid() && log >= old(log) && old(now) <= readAt <= now
      ensures fetch.Prices? ==> r.Ok?
      ensures fetch.Prices? ==> forall id :: id in r.value <==> id in fetch.byId && fetch.byId[id].Some?
      ensures fetch.Prices? ==> forall id :: id in r.value ==>
                Some(r.value[id]) == fetch.byId[id] && StoredSince(log, IDKey(id), r.value[id], readAt)
      ensures !fetch.Prices? && r.Ok? ==> r.value != map[]
      ensures !fetch.Prices? && r.Ok? ==>
                forall id :: id in r.value ==>
                    id in coinIDs && FetchedWithin(log, IDKey(id), r.value[id], readAt, cacheTTL * MAX_STALE_FACTOR)
      ensures !fetch.Prices? && r.Err? ==> forall id :: id in coinIDs ==> GetStale(IDKey(id)).None?
    {
      Others(meanwhile);
      readAt := now;
      if !fetch.Prices? {
        var stale := BatchStale(coinIDs);
        forall id | id in stale
          ensures FetchedWithin(log, IDKey(id), stale[id], now, cacheTTL * MAX_STALE_FACTOR)
        {
          assert Quote(IDKey(id), cache[IDKey(id)].usd, cache[IDKey(id)].updatedAt) in log;
        }
        return if |stale| > 0 then Ok(stale) else Err(if fetch.Failed? then FetchFailed else BadResponse), readAt;
      }
      var prices: map<string, real> := map[];
      var left := fetch.byId.Keys;
      while left != {}
        invariant left <= fetch.byId.Keys
        invariant Valid() && log >= old(log) && now >= readAt >= old(now)
        invariant forall id :: id in prices <==> id in fetch.byId && id !in left && fetch.byId[id].Some?
        invariant forall id :: id in prices ==> Some(prices[id]) == fetch.byId[id]
        invariant forall id :: id in prices ==> StoredSince(log, IDKey(id), prices[id], readAt)
        decreases |left|
      {
        var id :| id in left;
        if fetch.byId[id].Some? {
          var usd := fetch.byId[id].value;
          prices := prices[id := usd];
          assert Quote(IDKey(id), usd, now) in log + {Quote(IDKey(id), usd, now)};
          SetCache(IDKey(id), usd, pause);
        }
        left := left - {id};
      }
      return Ok(prices), readAt;
    }

    /** One request: idle time, other callers' writes, then the call. */
    method Answered(q: Request) returns (a: Answer)
      requires Valid() && maxCacheSize >= 0
      modifies this
      ensures Valid() && log >= old(log) && Bounded(log, cacheTTL, q.query, a)
    {
      now := now + q.idle;
      Others(q.before);
      match q.query {
        case ByID(coinID, fetch, meanwhile, pause) =>
          var r, readAt, attempted := GetPriceByID(coinID, fetch, meanwhile, pause);
          a := One(r, readAt, attempted);
        case ByContract(contractAddr, fetch, meanwhile, pause) =>
          var r, readAt, attempted := GetPriceByContract(contractAddr, fetch, meanwhile, pause);
          a := One(r, readAt, attempted);
        case Batch(coinIDs, fetch, meanwhile, pause) =>
          var r, readAt := BatchGetPrices(coinIDs, fetch, meanwhile, pause);
          a := Many(r, readAt);
      }
    }

    /** Over a whole run, no price that was answered is older than its bound. */
    method Serve(requests: seq<Request>) returns (answers: seq<Answer>)
      requires Valid() && maxCacheSize >= 0
      modifies this
      ensures Valid() && log >= old(log) && |answers| == |requests|
      ensures forall i :: 0 <= i < |answers| ==> Bounded(log, cacheTTL, requests[i].query, answers[i])
    {
      answers := [];
      for i := 0 to |requests|
        invariant Valid() && log >= old(log) && |answers| == i
        invariant forall j :: 0 <= j < i ==> Bounded(log, cacheTTL, requests[j].query, answers[j])
      {
        ghost var earlier := log;
        var a := Answered(requests[i]);
        forall j | 0 <= j < i
          ensures Bounded(log, cacheTTL, requests[j].query, answers[j])
        {
          StaysBounded(earlier, log, cacheTTL, requests[j].query, answers[j]);
        }
        answers := answers + [a];
      }
    }
  }

  /** An entry newer than every other one is kept whenever anything is. */
  lemma NewestSurvives(full: Cache, kept: Cache, key: string)
    requires KeepsNewest(full, kept) && key in full && |kept| >= 1
    requires forall k :: k in full && k != key ==> full[k].updatedAt < full[key].updatedAt
    ensures key in kept
  {
  }
}
