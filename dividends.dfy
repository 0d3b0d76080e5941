/**
 * The cache-then-chain dividend queries of bittensor_interface.py.
 *
 * Redis is a map from key to (value, expiry) read against an explicit clock;
 * the chain is a `Ledger` oracle giving what a query at the current head
 * answers. `DividendGateway` holds the cache, the clock and how Redis is
 * behaving; its methods are proved against the pure lookups below.
 */
module Dividends {
  import opened Basics
  import opened CacheKeys

  /** Seconds a pair dividend stays cached (`setex(key, 120, value)`). */
  const DividendTtl: int := 120

  /** Netuids the address fan-out visits: `range(1, 51)`. */
  const FanOutWidth: nat := 50

  datatype CacheEntry = CacheEntry(value: real, expiry: int)

  /** How Redis answers: not at all, reads only (`setex` raises), or fully. */
  datatype RedisHealth = Unreachable | WritesFail | Healthy

  /** Redis `get`: the value of an entry whose expiry lies after `now`, else a miss. */
  function CacheGet(cache: map<string, CacheEntry>, now: int, key: string): Option<real> {
    if key in cache && now < cache[key].expiry then Some(cache[key].value) else None
  }

  /** What `substrate.query(... TaoDividendsPerSubnet, [netuid, address])` gives. */
  datatype ChainReply =
    | ChainFails          // the connection, the head lookup or the query raised
    | NoValue             // the query returned None
    | Value(amount: real) // a storage object holding `amount`

  /** `if result:` — a storage object is truthy when the value it holds is. */
  predicate Truthy(reply: ChainReply) {
    reply.Value? && reply.amount != 0.0
  }

  /** An account id as the chain encodes it, before `decode_account_id`. */
  type RawAccount = seq<bv8>

  /** What draining `substrate.query_map(... TaoDividendsPerSubnet, [netuid])` gives. */
  datatype MapReply =
    | MapFails                                  // the query or a step of the iteration raised
    | Pairs(items: seq<(RawAccount, real)>)     // every (key, value) pair, in iteration order

  /** The chain as seen from the current head block. */
  datatype Ledger = Ledger(
    query: (int, string) -> ChainReply,
    queryMap: int -> MapReply,
    decode: RawAccount -> Option<string>)  // None: `decode_account_id` raises

  /** A request sent to the chain, recorded to state when the chain is consulted. */
  datatype ChainRequest = PairRequest(netuid: int, address: string) | SubnetRequest(netuid: int)

  /** The result, new cache, and whether the chain was asked, of one pair query. */
  datatype PairOutcome = PairOutcome(result: Option<real>, cache: map<string, CacheEntry>, queried: bool)

  /** `get_tao_dividend_from_netuid_address`: any exception makes the result `None`. */
  function PairLookup(cache: map<string, CacheEntry>, now: int, redis: RedisHealth, chain: Ledger,
                      netuid: int, address: string): PairOutcome
  {
    var key := PairKey(netuid, address);
    if redis.Unreachable? then PairOutcome(None, cache, false)
    else if CacheGet(cache, now, key).Some? then PairOutcome(CacheGet(cache, now, key), cache, false)
    else
      var reply := chain.query(netuid, address);
      if Truthy(reply) && redis.WritesFail? then
        PairOutcome(None, cache, true)
      else if Truthy(reply) then
        PairOutcome(Some(reply.amount), cache[key := CacheEntry(reply.amount, now + DividendTtl)], true)
      else
        PairOutcome(None, cache, true)
  }

  /** `decode_account_id` succeeds on every drained account. */
  predicate AllDecode(items: seq<(RawAccount, real)>, decode: RawAccount -> Option<string>) {
    forall i :: 0 <= i < |items| ==> decode(items[i].0).Some?
  }

  /** One single-entry map `{decode_account_id(k): v}` per drained pair, in order. */
  function AccountDicts(items: seq<(RawAccount, real)>, decode: RawAccount -> Option<string>): seq<map<string, real>>
    requires AllDecode(items, decode)
  {
    seq(|items|, i requires 0 <= i < |items| => map[decode(items[i].0).value := items[i].1])
  }

  /** A subnet query answers a cached float or a list of single-entry maps. */
  datatype SubnetDividends = CachedScalar(value: real) | PerAccount(entries: seq<map<string, real>>)

  /** `get_tao_dividends_for_subnet`: any exception makes the result `[]`; the cache is only read. */
  function SubnetLookup(cache: map<string, CacheEntry>, now: int, redis: RedisHealth, chain: Ledger,
                        netuid: int): SubnetDividends
  {
    if redis.Unreachable? then PerAccount([])
    else match CacheGet(cache, now, SubnetKey(netuid))
      case Some(v) => CachedScalar(v)
      case None =>
        match chain.queryMap(netuid)
        case MapFails => PerAccount([])
        case Pairs(items) =>
          if AllDecode(items, chain.decode) then PerAccount(AccountDicts(items, chain.decode)) else PerAccount([])
  }

  /** Results, cache and chain requests after the pair queries for netuids 1..k, run one after another. */
  datatype FanOutState = FanOutState(results: seq<Option<real>>, cache: map<string, CacheEntry>, requests: seq<ChainRequest>)

  function FanOut(cache: map<string, CacheEntry>, now: int, redis: RedisHealth, chain: Ledger,
                  address: string, k: nat): FanOutState
  {
    if k == 0 then FanOutState([], cache, [])
    else
      var prev := FanOut(cache, now, redis, chain, address, k - 1);
      var o := PairLookup(prev.cache, now, redis, chain, k, address);
      FanOutState(prev.results + [o.result], o.cache,
                  prev.requests + if o.queried then [PairRequest(k, address)] else [])
  }

  // ---------------------------------------------------------------------------
  // Properties of the lookups

  /** A live cached pair is served from the cache: same value, cache unchanged, chain not asked. */
  lemma PairHitServesCache(cache: map<string, CacheEntry>, now: int, chain: Ledger, netuid: int, address: string)
    requires PairKey(netuid, address) in cache && now < cache[PairKey(netuid, address)].expiry
    ensures var o := PairLookup(cache, now, Healthy, chain, netuid, address);
      o.result == Some(cache[PairKey(netuid, address)].value) && o.cache == cache && !o.queried
  {
  }

  /** On a miss the chain is asked once; a truthy answer is cached until now + 120 and returned. */
  lemma PairMissCachesTruthy(cache: map<string, CacheEntry>, now: int, chain: Ledger, netuid: int, address: string)
    requires CacheGet(cache, now, PairKey(netuid, address)) == None
    requires Truthy(chain.query(netuid, address))
    ensures var o := PairLookup(cache, now, Healthy, chain, netuid, address);
      var v := chain.query(netuid, address).amount;
      o.queried && o.result == Some(v) &&
      o.cache == cache[PairKey(netuid, address) := CacheEntry(v, now + 120)]
  {
  }

  /**
   * When Redis reads but `setex` raises, a truthy answer from the chain is
   * fetched and then discarded: the `except` returns `None`, nothing is written.
   */
  lemma PairWriteFailureDiscardsValue(cache: map<string, CacheEntry>, now: int, chain: Ledger, netuid: int, address: string)
    requires CacheGet(cache, now, PairKey(netuid, address)) == None
    requires Truthy(chain.query(netuid, address))
    ensures var o := PairLookup(cache, now, WritesFail, chain, netuid, address);
      o.queried && o.result == None && o.cache == cache
  {
  }

  /** On a miss, a falsy, absent or failed answer gives `None` and writes nothing. */
  lemma PairMissFalsyWritesNothing(cache: map<string, CacheEntry>, now: int, chain: Ledger, netuid: int, address: string)
    requires CacheGet(cache, now, PairKey(netuid, address)) == None
    requires !Truthy(chain.query(netuid, address))
    ensures var o := PairLookup(cache, now, Healthy, chain, netuid, address);
      o.queried && o.result == None && o.cache == cache
  {
  }

  /** An unreachable Redis gives `None`, before the chain is asked. */
  lemma PairCacheDownGivesNone(cache: map<string, CacheEntry>, now: int, chain: Ledger, netuid: int, address: string)
    ensures var o := PairLookup(cache, now, Unreachable, chain, netuid, address);
      o.result == None && o.cache == cache && !o.queried
  {
  }

  /** A pair query only ever writes its own key. */
  lemma PairLookupWritesOnlyItsKey(cache: map<string, CacheEntry>, now: int, redis: RedisHealth, chain: Ledger,
                                   netuid: int, address: string, key: string)
    requires key != PairKey(netuid, address)
    ensures var o := PairLookup(cache, now, redis, chain, netuid, address);
      (key in o.cache <==> key in cache) && (key in cache ==> o.cache[key] == cache[key])
  {
  }

  /**
   * A value written on a miss is served for the next 120 seconds without asking
   * the chain, and the chain is asked again once they have passed.
   */
  lemma {:induction false} CachedValueLivesForTtl(cache: map<string, CacheEntry>, now: int, chain: Ledger,
                                                  later: Ledger, netuid: int, address: string, t: int)
    requires CacheGet(cache, now, PairKey(netuid, address)) == None
    requires Truthy(chain.query(netuid, address))
    requires t >= now
    ensures var first := PairLookup(cache, now, Healthy, chain, netuid, address);
      var second := PairLookup(first.cache, t, Healthy, later, netuid, address);
      (t < now + DividendTtl ==> second.result == first.result && !second.queried) &&
      (t >= now + DividendTtl ==> second.queried && second.result == PairLookup(cache, t, Healthy, later, netuid, address).result)
  {
    var key := PairKey(netuid, address);
    var first := PairLookup(cache, now, Healthy, chain, netuid, address);
    assert first.cache == cache[key := CacheEntry(chain.query(netuid, address).amount, now + DividendTtl)];
    if t >= now + DividendTtl {
      assert CacheGet(first.cache, t, key) == None;
      assert CacheGet(cache, t, key) == None by {
        if key in cache {
          assert !(now < cache[key].expiry);
        }
      }
    }
  }

  /** The pair query only looks at its own key: caches that agree there give the same outcome there. */
  lemma PairLookupIsLocal(c1: map<string, CacheEntry>, c2: map<string, CacheEntry>, now: int, redis: RedisHealth,
                          chain: Ledger, netuid: int, address: string)
    requires var key := PairKey(netuid, address);
      (key in c1 <==> key in c2) && (key in c1 ==> c1[key] == c2[key])
    ensures PairLookup(c1, now, redis, chain, netuid, address).result == PairLookup(c2, now, redis, chain, netuid, address).result
    ensures PairLookup(c1, now, redis, chain, netuid, address).queried == PairLookup(c2, now, redis, chain, netuid, address).queried
  {
  }

  /** The fan-out over netuids 1..k leaves the keys of later netuids as they were. */
  lemma {:induction false} FanOutSparesLaterKeys(cache: map<string, CacheEntry>, now: int, redis: RedisHealth,
                                                 chain: Ledger, address: string, k: nat, n: int)
    requires n > k
    ensures var c := FanOut(cache, now, redis, chain, address, k).cache;
      var key := PairKey(n, address);
      (key in c <==> key in cache) && (key in cache ==> c[key] == cache[key])
  {
    if k > 0 {
      FanOutSparesLaterKeys(cache, now, redis, chain, address, k - 1, n);
      var prev := FanOut(cache, now, redis, chain, address, k - 1);
      PairKeyInjective(k, address, n, address);
      PairLookupWritesOnlyItsKey(prev.cache, now, redis, chain, k, address, PairKey(n, address));
    }
  }

  /**
   * `asyncio.gather` keeps results in call order: element i of the fan-out over
   * netuids 1..k is what the pair query for netuid i + 1 answers against the
   * cache as it was before the fan-out, since no other netuid writes that key.
   */
  lemma {:induction false} FanOutIsIndexAligned(cache: map<string, CacheEntry>, now: int, redis: RedisHealth,
                                                chain: Ledger, address: string, k: nat)
    ensures var f := FanOut(cache, now, redis, chain, address, k);
      |f.results| == k &&
      forall i :: 0 <= i < k ==> f.results[i] == PairLookup(cache, now, redis, chain, i + 1, address).result
  {
    if k > 0 {
      FanOutIsIndexAligned(cache, now, redis, chain, address, k - 1);
      var prev := FanOut(cache, now, redis, chain, address, k - 1);
      FanOutSparesLaterKeys(cache, now, redis, chain, address, k - 1, k);
      PairLookupIsLocal(prev.cache, cache, now, redis, chain, k, address);
    }
  }

  /**
   * The subnet query answers the cached float on a hit, one map per drained
   * pair when every account decodes, and `[]` when the drain or a decode raises.
   */
  lemma SubnetLookupShape(cache: map<string, CacheEntry>, now: int, chain: Ledger, netuid: int)
    ensures var r := SubnetLookup(cache, now, Healthy, chain, netuid);
      (CacheGet(cache, now, SubnetKey(netuid)).Some? ==> r == CachedScalar(cache[SubnetKey(netuid)].value)) &&
      (CacheGet(cache, now, SubnetKey(netuid)).None? && chain.queryMap(netuid).Pairs? &&
       AllDecode(chain.queryMap(netuid).items, chain.decode) ==>
        var items := chain.queryMap(netuid).items;
        r.PerAccount? && |r.entries| == |items| &&
        forall i :: 0 <= i < |items| ==> r.entries[i] == map[chain.decode(items[i].0).value := items[i].1]) &&
      (CacheGet(cache, now, SubnetKey(netuid)).None? && chain.queryMap(netuid).MapFails? ==> r == PerAccount([]))
  {
  }

  /** An account whose `decode_account_id` raises makes the whole subnet answer `[]`. */
  lemma SubnetDecodeFailureGivesEmpty(cache: map<string, CacheEntry>, now: int, chain: Ledger, netuid: int, i: nat)
    requires CacheGet(cache, now, SubnetKey(netuid)).None?
    requires chain.queryMap(netuid).Pairs?
    requires i < |chain.queryMap(netuid).items| && chain.decode(chain.queryMap(netuid).items[i].0).None?
    ensures SubnetLookup(cache, now, Healthy, chain, netuid) == PerAccount([])
  {
  }

  /** The subnet query issues no Redis write, so a failing `setex` does not change its answer. */
  lemma SubnetIgnoresWriteFailure(cache: map<string, CacheEntry>, now: int, chain: Ledger, netuid: int)
    ensures SubnetLookup(cache, now, WritesFail, chain, netuid) == SubnetLookup(cache, now, Healthy, chain, netuid)
  {
  }

  /** An unreachable Redis makes the subnet query answer `[]` without asking the chain. */
  lemma SubnetCacheDownGivesEmpty(cache: map<string, CacheEntry>, now: int, chain: Ledger, netuid: int)
    ensures SubnetLookup(cache, now, Unreachable, chain, netuid) == PerAccount([])
  {
  }

  // ---------------------------------------------------------------------------
  // The drain loop of `get_tao_dividends_for_subnet`

  /**
   * `exhaust` collects the query map's pairs and the `as_completed` loop extends the
   * result with `{decode_account_id(k): v.value}` for each; fused here into one loop.
   */
  method DrainToDicts(items: seq<(RawAccount, real)>, decode: RawAccount -> Option<string>)
    returns (r: Option<seq<map<string, real>>>)
    ensures r.Some? <==> AllDecode(items, decode)
    ensures r.Some? ==> |r.value| == |items|
    ensures r.Some? ==> forall i :: 0 <= i < |items| ==> r.value[i] == map[decode(items[i].0).value := items[i].1]
  {
    var dicts := [];
    var i := 0;
    while i < |items|
      invariant 0 <= i <= |items|
      invariant |dicts| == i
      invariant forall j :: 0 <= j < i ==> decode(items[j].0).Some?
      invariant forall j :: 0 <= j < i ==> dicts[j] == map[decode(items[j].0).value := items[j].1]
    {
      var (k, v) := items[i];
      var name := decode(k);
      if name.None? {
        return None;
      }
      dicts := dicts + [map[name.value := v]];
      i := i + 1;
    }
    return Some(dicts);
  }

  // ---------------------------------------------------------------------------
  // The gateway: Redis, the clock, and the three queries

  class DividendGateway {
    /** Redis: key to (value, expiry). */
    var cache: map<string, CacheEntry>
    /** The current time in seconds. */
    var now: int
    /** Whether `get_redis_connection`, `get` and `setex` succeed. */
    var redis: RedisHealth
    /** Every request sent to the chain so far. */
    ghost var chainRequests: seq<ChainRequest>

    constructor (start: int)
      ensures cache == map[] && now == start && redis == Healthy && chainRequests == []
    {
      cache := map[];
      now := start;
      redis := Healthy;
      chainRequests := [];
    }

    /** Time passes. */
    method Tick(seconds: nat)
      modifies this`now
      ensures now == old(now) + seconds
    {
      now := now + seconds;
    }

    /** Redis changes how it answers. */
    method SetRedisHealth(health: RedisHealth)
      modifies this`redis
      ensures redis == health
    {
      redis := health;
    }

    /** `get_tao_dividend_from_netuid_address(netuid, address)`. */
    method PairDividend(chain: Ledger, netuid: int, address: string) returns (r: Option<real>)
      modifies this`cache, this`chainRequests
      ensures var o := PairLookup(old(cache), now, redis, chain, netuid, address);
        r == o.result && cache == o.cache &&
        chainRequests == old(chainRequests) + if o.queried then [PairRequest(netuid, address)] else []
    {
      if redis.Unreachable? {
        return None;
      }
      var key := PairKey(netuid, address);
      var cached := CacheGet(cache, now, key);
      if cached.Some? {
        return cached;
      }
      chainRequests := chainRequests + [PairRequest(netuid, address)];
      var reply := chain.query(netuid, address);
      if reply.ChainFails? {
        return None;
      }
      if Truthy(reply) {
        if redis.WritesFail? {
          return None;  // `setex` raises and the `except` discards the value
        }
        cache := cache[key := CacheEntry(reply.amount, now + DividendTtl)];
        return Some(reply.amount);
      }
      return None;
    }

    /** `get_tao_dividends_for_subnet(netuid)`: never writes the cache. */
    method SubnetDividendsOf(chain: Ledger, netuid: int) returns (r: SubnetDividends)
      modifies this`chainRequests
      ensures r == SubnetLookup(cache, now, redis, chain, netuid)
      ensures cache == old(cache)
      ensures chainRequests == old(chainRequests) +
        if !redis.Unreachable? && CacheGet(cache, now, SubnetKey(netuid)).None? then [SubnetRequest(netuid)] else []
    {
      if redis.Unreachable? {
        return PerAccount([]);
      }
      var cached := CacheGet(cache, now, SubnetKey(netuid));
      if cached.Some? {
        return CachedScalar(cached.value);
      }
      chainRequests := chainRequests + [SubnetRequest(netuid)];
      var reply := chain.queryMap(netuid);
      if reply.MapFails? {
        return PerAccount([]);
      }
      var dicts := DrainToDicts(reply.items, chain.decode);
      if dicts.None? {
        return PerAccount([]);
      }
      assert dicts.value == AccountDicts(reply.items, chain.decode);
      return PerAccount(dicts.value);
    }

    /** `get_tao_dividends_for_address(address)`: the pair query for netuids 1..50, results in netuid order. */
    method AddressDividends(chain: Ledger, address: string) returns (r: seq<Option<real>>)
      modifies this`cache, this`chainRequests
      ensures var f := FanOut(old(cache), now, redis, chain, address, FanOutWidth);
        r == f.results && cache == f.cache && chainRequests == old(chainRequests) + f.requests
      ensures |r| == FanOutWidth
      ensures forall i :: 0 <= i < FanOutWidth ==>
        r[i] == PairLookup(old(cache), now, redis, chain, i + 1, address).result
    {
      r := [];
      var netuid := 1;
      while netuid <= FanOutWidth
        invariant 1 <= netuid <= FanOutWidth + 1
        invariant var f := FanOut(old(cache), now, redis, chain, address, netuid - 1);
          r == f.results && cache == f.cache && chainRequests == old(chainRequests) + f.requests
      {
        var v := PairDividend(chain, netuid, address);
        r := r + [v];
        netuid := netuid + 1;
      }
      FanOutIsIndexAligned(old(cache), now, redis, chain, address, FanOutWidth);
    }
  }
}
