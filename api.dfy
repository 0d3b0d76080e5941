/**
 * The dividend endpoint of main.py: which of `netuid` and `hotkey` are present
 * picks the query, `trade` with both present runs `trading_process` first, and
 * every dividend reply says `cached: True`. The case split is pure; the
 * handler method runs it against the gateway, the task and the store.
 */
module Api {
  import opened Basics
  import opened CacheKeys
  import opened Dividends
  import opened Database
  import opened Sentiment
  import opened Trading

  const RootMessage: string := "Please refer to the Swagger doc at /docs"
  const NoParametersMessage: string := "No netuid or hotkey provided"

  /** The `dividend` field: a pair value, a subnet answer, or the 50 per-netuid values. */
  datatype Dividend = PairValue(value: Option<real>) | SubnetValue(subnet: SubnetDividends) | AddressValues(values: seq<Option<real>>)

  datatype Reply =
    | MessageReply(message: string)
    | DividendReply(netuid: Option<int>, hotkey: Option<string>, dividend: Dividend, cached: bool, stakeTxTriggered: bool)

  /** The dividend query a request runs. */
  datatype Query = NoQuery | PairQuery(netuid: int, hotkey: string) | SubnetQuery(netuid: int) | AddressQuery(hotkey: string)

  /** `read_root`. */
  function ReadRoot(): (r: Reply)
    ensures r.MessageReply? && r.message == RootMessage
  {
    MessageReply(RootMessage)
  }

  /** The `if trade: if netuid is not None and hotkey is not None` guard. */
  predicate RunsTrade(netuid: Option<int>, hotkey: Option<string>, trade: bool) {
    trade && netuid.Some? && hotkey.Some?
  }

  /** The `if / elif / elif / else` over the two parameters. */
  function QueryFor(netuid: Option<int>, hotkey: Option<string>): Query {
    if netuid.None? && hotkey.None? then NoQuery
    else if netuid.Some? && hotkey.Some? then PairQuery(netuid.value, hotkey.value)
    else if netuid.Some? then SubnetQuery(netuid.value)
    else AddressQuery(hotkey.value)
  }

  /** The reply, given what the trade returned (False when it did not run) and what the query answered. */
  function TaoDividendsReply(netuid: Option<int>, hotkey: Option<string>, trade: bool, tradeOk: bool,
                             answer: Dividend): Reply
  {
    var triggered := RunsTrade(netuid, hotkey, trade) && tradeOk;
    if QueryFor(netuid, hotkey).NoQuery? then MessageReply(NoParametersMessage)
    else DividendReply(netuid, hotkey, answer, true, triggered)
  }

  // ---------------------------------------------------------------------------
  // Properties of the dispatch

  /** With neither parameter, the reply is exactly the informational message. */
  lemma NoParametersGivesMessage(trade: bool, tradeOk: bool, answer: Dividend)
    ensures TaoDividendsReply(None, None, trade, tradeOk, answer) == MessageReply("No netuid or hotkey provided")
  {
  }

  /** Both parameters run the pair query; netuid alone the subnet query; hotkey alone the fan-out. */
  lemma QueryFollowsParameters(netuid: Option<int>, hotkey: Option<string>)
    ensures QueryFor(netuid, hotkey).NoQuery? <==> netuid.None? && hotkey.None?
    ensures QueryFor(netuid, hotkey).PairQuery? <==> netuid.Some? && hotkey.Some?
    ensures QueryFor(netuid, hotkey).SubnetQuery? <==> netuid.Some? && hotkey.None?
    ensures QueryFor(netuid, hotkey).AddressQuery? <==> netuid.None? && hotkey.Some?
    ensures QueryFor(netuid, hotkey).PairQuery? ==>
      QueryFor(netuid, hotkey) == PairQuery(netuid.value, hotkey.value)
  {
  }

  /**
   * Every dividend reply echoes both parameters, says `cached: True` whether or
   * not the cache was hit, and reports a trade only when `trade` was set, both
   * parameters were present and `trading_process` returned True.
   */
  lemma DividendReplyFields(netuid: Option<int>, hotkey: Option<string>, trade: bool, tradeOk: bool,
                            answer: Dividend)
    requires netuid.Some? || hotkey.Some?
    ensures var r := TaoDividendsReply(netuid, hotkey, trade, tradeOk, answer);
      r.DividendReply? && r.netuid == netuid && r.hotkey == hotkey && r.dividend == answer && r.cached &&
      (r.stakeTxTriggered <==> trade && netuid.Some? && hotkey.Some? && tradeOk)
  {
  }

  /** A trade never runs without both parameters, so a request with neither never trades. */
  lemma TradeNeedsBothParameters(netuid: Option<int>, hotkey: Option<string>, trade: bool)
    ensures RunsTrade(netuid, hotkey, trade) ==> QueryFor(netuid, hotkey).PairQuery?
  {
  }

  // ---------------------------------------------------------------------------
  // The handler

  /**
   * `get_tao_dividends` for the authenticated user `username`: at most one
   * `trading_process`, run before the dividend query.
   */
  method GetTaoDividends(gw: DividendGateway, task: SentimentTask, db: MongoStore, chain: Ledger,
                         wallet: WalletReply, username: string, timestamp: int,
                         netuid: Option<int>, hotkey: Option<string>, trade: bool)
    returns (reply: Reply, walletCall: Option<WalletCall>)
    modifies gw`cache, gw`chainRequests, db`tradingLogs
    ensures RunsTrade(netuid, hotkey, trade) ==>
      var s := TradeStepOf(task.sentimentScore, wallet, db.online, netuid.value, hotkey.value, username, timestamp);
      walletCall == s.call && db.tradingLogs == old(db.tradingLogs) + s.entries
    ensures !RunsTrade(netuid, hotkey, trade) ==> walletCall == None && db.tradingLogs == old(db.tradingLogs)
    ensures
      var tradeOk := RunsTrade(netuid, hotkey, trade) &&
        TradeStepOf(task.sentimentScore, wallet, db.online, netuid.value, hotkey.value, username, timestamp).ok;
      match QueryFor(netuid, hotkey)
      case NoQuery =>
        reply == MessageReply(NoParametersMessage) && gw.cache == old(gw.cache) && gw.chainRequests == old(gw.chainRequests)
      case PairQuery(n, h) =>
        var o := PairLookup(old(gw.cache), gw.now, gw.redis, chain, n, h);
        reply == TaoDividendsReply(netuid, hotkey, trade, tradeOk, PairValue(o.result)) && gw.cache == o.cache &&
        gw.chainRequests == old(gw.chainRequests) + if o.queried then [PairRequest(n, h)] else []
      case SubnetQuery(n) =>
        reply == TaoDividendsReply(netuid, hotkey, trade, tradeOk,
                                   SubnetValue(SubnetLookup(old(gw.cache), gw.now, gw.redis, chain, n))) &&
        gw.cache == old(gw.cache) &&
        gw.chainRequests == old(gw.chainRequests) +
          if !gw.redis.Unreachable? && CacheGet(old(gw.cache), gw.now, SubnetKey(n)).None? then [SubnetRequest(n)] else []
      case AddressQuery(h) =>
        var f := FanOut(old(gw.cache), gw.now, gw.redis, chain, h, FanOutWidth);
        reply == TaoDividendsReply(netuid, hotkey, trade, tradeOk, AddressValues(f.results)) && gw.cache == f.cache &&
        gw.chainRequests == old(gw.chainRequests) + f.requests
  {
    var stakeTxTriggered := false;
    walletCall := None;
    if trade && netuid.Some? && hotkey.Some? {
      stakeTxTriggered, walletCall := TradingProcess(task, db, wallet, netuid.value, hotkey.value, username, timestamp);
    }
    match QueryFor(netuid, hotkey)
    case NoQuery =>
      reply := MessageReply(NoParametersMessage);
    case PairQuery(n, h) =>
      var value := gw.PairDividend(chain, n, h);
      reply := DividendReply(netuid, hotkey, PairValue(value), true, stakeTxTriggered);
    case SubnetQuery(n) =>
      var values := gw.SubnetDividendsOf(chain, n);
      reply := DividendReply(netuid, hotkey, SubnetValue(values), true, stakeTxTriggered);
    case AddressQuery(h) =>
      var values := gw.AddressDividends(chain, h);
      reply := DividendReply(netuid, hotkey, AddressValues(values), true, stakeTxTriggered);
  }
}
