/**
 * `trading_process` of trading.py: the sign of the shared sentiment signal
 * picks stake, unstake or nothing; the amount is 1% of its magnitude. The
 * wallet is a collaborator given as what its call does; the audit log is the
 * store's trading-log collection.
 */
module Trading {
  import opened Basics
  import opened Database
  import opened Sentiment

  /** `amount = abs(score) * 0.01`. */
  const StakeFraction: real := 0.01

  datatype Decision = NoAction | StakeAction(amount: real) | UnstakeAction(amount: real)

  /** The pure part: sign test and amount. */
  function Decide(score: real): Decision {
    var amount := Abs(score) * StakeFraction;
    if score > 0.0 then StakeAction(amount)
    else if score < 0.0 then UnstakeAction(amount)
    else NoAction
  }

  /** A positional argument as the wallet function receives it. */
  datatype Arg = IntArg(i: int) | StrArg(s: string)

  /**
   * A call into bittensor_wallet_interface, by its parameters `(address, netuid, amount)`.
   * trading.py passes `(netuid, hotkey, amount)`, so `address` receives the netuid
   * and `netuid` the hotkey.
   */
  datatype WalletCall = AddStake(address: Arg, netuid: Arg, amount: real) | Unstake(address: Arg, netuid: Arg, amount: real)

  /** What the wallet call does: raise, or return a transaction id or `None`. */
  datatype WalletReply = WalletRaises | WalletReturns(transactionId: Option<string>)

  /** The wallet call a decision makes, arguments in the order written. */
  function WalletCallFor(d: Decision, netuid: int, hotkey: string): Option<WalletCall> {
    match d
    case NoAction => None
    case StakeAction(amount) => Some(AddStake(IntArg(netuid), StrArg(hotkey), amount))
    case UnstakeAction(amount) => Some(Unstake(IntArg(netuid), StrArg(hotkey), amount))
  }

  /** The result, the wallet call made and the log entries written by one `trading_process`. */
  datatype TradeStep = TradeStep(ok: bool, call: Option<WalletCall>, entries: seq<TradingLog>)

  function TradeStepOf(score: real, wallet: WalletReply, logOnline: bool, netuid: int, hotkey: string,
                       username: string, timestamp: int): TradeStep
  {
    var d := Decide(score);
    var call := WalletCallFor(d, netuid, hotkey);
    if d.NoAction? then TradeStep(false, None, [])
    else if wallet.WalletRaises? || !logOnline then TradeStep(false, call, [])
    else
      var kind := if d.StakeAction? then "stake" else "unstake";
      TradeStep(true, call, [TradingLog(username, kind, netuid, hotkey, d.amount, timestamp, None)])
  }

  // ---------------------------------------------------------------------------
  // Properties

  /** The amount is non-negative and is |score| / 100. */
  lemma AmountIsOnePercentOfMagnitude(score: real)
    ensures Decide(score).StakeAction? || Decide(score).UnstakeAction? ==>
      Decide(score).amount >= 0.0 && Decide(score).amount * 100.0 == Abs(score)
  {
  }

  /** decide(0) is no action, decide(50) stakes 0.5, decide(-20) unstakes 0.2. */
  lemma DecideExamples()
    ensures Decide(0.0) == NoAction
    ensures Decide(50.0) == StakeAction(0.5)
    ensures Decide(-20.0) == UnstakeAction(0.2)
  {
  }

  /** A zero signal calls no wallet, writes no log and returns False. */
  lemma ZeroScoreDoesNothing(wallet: WalletReply, logOnline: bool, netuid: int, hotkey: string,
                             username: string, timestamp: int)
    ensures TradeStepOf(0.0, wallet, logOnline, netuid, hotkey, username, timestamp) == TradeStep(false, None, [])
  {
  }

  /**
   * A positive signal calls add_stake and appends one "stake" entry with that
   * amount and no transaction id; a negative one does the same with unstake.
   * True follows whatever the wallet returns, `None` included.
   */
  lemma NonZeroScoreTrades(score: real, txid: Option<string>, netuid: int, hotkey: string,
                           username: string, timestamp: int)
    requires score != 0.0
    ensures var s := TradeStepOf(score, WalletReturns(txid), true, netuid, hotkey, username, timestamp);
      var amount := Abs(score) * StakeFraction;
      s.ok &&
      (score > 0.0 ==> s.call == Some(AddStake(IntArg(netuid), StrArg(hotkey), amount)) &&
                       s.entries == [TradingLog(username, "stake", netuid, hotkey, amount, timestamp, None)]) &&
      (score < 0.0 ==> s.call == Some(Unstake(IntArg(netuid), StrArg(hotkey), amount)) &&
                       s.entries == [TradingLog(username, "unstake", netuid, hotkey, amount, timestamp, None)])
  {
  }

  /** A wallet call that raises or a log write that fails gives False; a raising wallet writes no log. */
  lemma FailureGivesFalse(score: real, wallet: WalletReply, logOnline: bool, netuid: int, hotkey: string,
                          username: string, timestamp: int)
    requires wallet.WalletRaises? || !logOnline
    ensures var s := TradeStepOf(score, wallet, logOnline, netuid, hotkey, username, timestamp);
      !s.ok && s.entries == []
  {
  }

  /** True exactly when one log entry is written, and never more than one is. */
  lemma OkIffOneEntry(score: real, wallet: WalletReply, logOnline: bool, netuid: int, hotkey: string,
                      username: string, timestamp: int)
    ensures var s := TradeStepOf(score, wallet, logOnline, netuid, hotkey, username, timestamp);
      |s.entries| <= 1 && (s.ok <==> |s.entries| == 1) && (s.ok ==> s.call.Some?)
  {
  }

  /** The wallet's `address` parameter receives the netuid and its `netuid` parameter the hotkey. */
  lemma WalletArgumentsAsWritten(score: real, netuid: int, hotkey: string)
    requires score != 0.0
    ensures var c := WalletCallFor(Decide(score), netuid, hotkey);
      c.Some? && c.value.address == IntArg(netuid) && c.value.netuid == StrArg(hotkey)
  {
  }

  // ---------------------------------------------------------------------------
  // The effectful part

  /** `trading_process(netuid, hotkey, user)` for the user named `username`, at time `timestamp`. */
  method TradingProcess(task: SentimentTask, db: MongoStore, wallet: WalletReply, netuid: int, hotkey: string,
                        username: string, timestamp: int) returns (ok: bool, call: Option<WalletCall>)
    modifies db`tradingLogs
    ensures var s := TradeStepOf(task.sentimentScore, wallet, db.online, netuid, hotkey, username, timestamp);
      ok == s.ok && call == s.call && db.tradingLogs == old(db.tradingLogs) + s.entries
  {
    var score := task.GetSentimentScore();
    var d := Decide(score);
    call := WalletCallFor(d, netuid, hotkey);
    if d.NoAction? {
      return false, None;
    }
    if wallet.WalletRaises? {
      return false, call;
    }
    var kind := if d.StakeAction? then "stake" else "unstake";
    var logged := db.LogTradingAction(username, kind, netuid, hotkey, d.amount, timestamp);
    ok := logged.Logged?;
  }
}
