# Dividend gateway and sentiment trading trigger — a Dafny model

This project models the core of a FastAPI service that answers TAO dividend
queries for Bittensor subnets (netuids) and hotkeys, and that can stake or
unstake according to a sentiment signal refreshed every two hours.

- `CacheKeys` (cache_keys.dfy): the Redis keys `tao_dividend:{netuid}:{address}`
  and `tao_dividend:{netuid}`, with Python's `str(int)` written out digit by
  digit. It proves that distinct pairs never share a key, even when the address
  holds `:`, and that no pair key equals a subnet key.
- `Dividends` (dividends.dfy): the three queries of bittensor_interface.py.
  Redis is a map from key to (value, expiry) read against an explicit clock.
  The chain is a `Ledger` oracle: what a query at the head block answers.
  `DividendGateway` holds the cache, the clock, how Redis answers (not at all,
  reads only, or fully), and a ghost record of the requests sent to the chain. Its methods are proved
  against the pure lookups `PairLookup`, `SubnetLookup` and `FanOut`, and
  lemmas state hit, miss, write-only-on-truthy, time-to-live, no cache write on
  the subnet path, and the index alignment of the 50-way fan-out.
- `ScoreExtraction` (score_extraction.dfy): how `analyze_tweet` turns a reply
  into a score. `re.findall(r'-?\b\d+(\.\d+)?\b', text)` is modelled match by
  match, backtracking included. Because the pattern has one group, `findall`
  yields `''` or `.ddd` per match and never the numeral. `AnalyzeTweet` follows
  the code as written; `AnalyzeTweetIntended` reads whole numerals (see
  Findings).
- `Sentiment` (sentiment.dfy): the global `sentiment_score` as the field of a
  `SentimentTask` class. One refresh publishes the mean in one assignment, or
  leaves the score as it was. The periodic loop alternates refresh and a
  7200-second sleep. Each scoring outcome depends on the text's position as
  well as its text, since the model call is sampled and two equal texts need
  not score alike.
- `Database` (database.dfy): the users and trading-log collections, held in
  memory. It models `store_user` (which rewrites the caller's dict in place),
  `get_user_by_username` and `log_trading_action`. The usernames-unique
  invariant is preserved.
- `Trading` (trading.dfy): the sign decision, the wallet call with
  its arguments in the order written, and the audit-log entry.
- `Api` (api.dfy): the `get_tao_dividends` case split as pure functions, and a
  handler method that runs it against the gateway, the task and the store.

Behaviour worth knowing, as the code has it:

- An unreachable Redis makes the pair query answer `None` without asking the
  chain. It does not fall back to the chain.
- When Redis answers reads but `setex` raises (a read-only replica, a full
  instance, a connection lost after the read), a pair query that missed asks
  the chain, and then the `except` discards the value it got: the answer is
  `None`. A failing cache write is not swallowed.
- One account whose `decode_account_id` raises makes the whole subnet answer
  `[]`.
- The subnet query never writes the cache. It can only hit on a value some
  other writer stored under `tao_dividend:{netuid}`, and it then answers that
  float instead of a list.
- A chain answer whose value is 0 is falsy. It is not cached, and the query
  answers `None`.
- `trading_process` returns True once the log write succeeds, whatever the
  wallet returned. The log entry never carries the transaction id.
- The wallet functions take `(address, netuid, amount)`. trading.py passes
  `(netuid, hotkey, amount)`, so `address` receives the netuid. The model
  records the arguments this way.
- A log-write failure raises an HTTP 500 inside `trading_process`'s `try`, so
  it surfaces as False.
- The root endpoint's message is the one in main.py. tests/test_main.py
  expects a different text.

## Model

| member | source | states |
|---|---|---|
| CacheKeys.IntToStringRoundTrip | bittensor_interface.py:24 | the netuid rendered into a key parses back to the same integer |
| CacheKeys.PairKeyInjective | bittensor_interface.py:24 | two pair keys are equal exactly when netuid and address are both equal, addresses containing ':' included |
| CacheKeys.PairKeyIsNotSubnetKey | bittensor_interface.py:78 | no pair key `tao_dividend:{n}:{a}` equals a subnet key `tao_dividend:{m}` |
| Dividends.PairHitServesCache | bittensor_interface.py:26-30 | a live cached pair is returned as is, the cache is unchanged and the chain is not asked |
| Dividends.PairMissCachesTruthy | bittensor_interface.py:32-40 | on a miss the chain is asked; a truthy answer is written with expiry now + 120 and returned |
| Dividends.PairMissFalsyWritesNothing | bittensor_interface.py:38-46 | on a miss with an absent, zero or failed answer the result is None and the cache is unchanged |
| Dividends.PairCacheDownGivesNone | bittensor_interface.py:21-44 | a Redis failure gives None, writes nothing and asks no chain |
| Dividends.PairLookupWritesOnlyItsKey | bittensor_interface.py:39 | a pair query changes no cache key but its own |
| Dividends.CachedValueLivesForTtl | bittensor_interface.py:27-39 | a written value is served without a chain query for 120 seconds, and the chain is asked again afterwards |
| Dividends.PairLookupIsLocal | bittensor_interface.py:24-40 | the pair query's answer depends only on the cache entry under its own key |
| Dividends.FanOutSparesLaterKeys | bittensor_interface.py:120-122 | the queries for netuids 1..k leave the keys of later netuids untouched |
| Dividends.FanOutIsIndexAligned | bittensor_interface.py:118-122 | the fan-out gives k results, element i being the pair query for netuid i + 1 against the cache before the fan-out |
| Dividends.PairWriteFailureDiscardsValue | bittensor_interface.py:38-44 | when `setex` raises after a miss and a truthy chain answer, the chain was asked, the result is None and the cache is unchanged |
| Dividends.SubnetLookupShape | bittensor_interface.py:78-101 | a subnet hit answers the cached float; a miss answers one single-entry map `{decode(k): v}` per drained pair, in order, when every account decodes; a failed drain answers [] |
| Dividends.SubnetDecodeFailureGivesEmpty | bittensor_interface.py:99-105 | one account whose decode raises makes the subnet query answer [] |
| Dividends.SubnetIgnoresWriteFailure | bittensor_interface.py:77-101 | the subnet query's answer is the same whether or not Redis writes fail, since it writes nothing |
| Dividends.SubnetCacheDownGivesEmpty | bittensor_interface.py:103-105 | a Redis failure makes the subnet query answer [] |
| Dividends.DrainToDicts | bittensor_interface.py:61-99 | the drain loop succeeds exactly when every account decodes, and then yields one map per pair, index by index, with the decoded account as key |
| Dividends.DividendGateway.PairDividend | bittensor_interface.py:8-46 | result, new cache and chain requests are those of PairLookup on the old cache, for each of the three Redis states |
| Dividends.DividendGateway.SubnetDividendsOf | bittensor_interface.py:49-105 | result is SubnetLookup; the cache is unchanged; the chain is asked only on a miss |
| Dividends.DividendGateway.AddressDividends | bittensor_interface.py:107-126 | 50 results, element i being the pair query for netuid i + 1 on the old cache; new cache and requests are those of the sequential fan-out |
| ScoreExtraction.DigitRunEnd | chutes_ai_interface.py:48 | the greedy `\d+` stops at the first non-digit after a run of digits |
| ScoreExtraction.DigitsMatch | chutes_ai_interface.py:48 | `\d+(\.\d+)?\b` matches a digit run and, when present, a '.ddd' fraction |
| ScoreExtraction.MatchAt | chutes_ai_interface.py:48 | a match at p starts at p, has its digits after an optional '-', and group 1 is '' exactly when the fraction is absent |
| ScoreExtraction.MatchesFrom | chutes_ai_interface.py:48-49 | every match the scan from p yields starts at or after p and is well formed, and each match ends at or before the next one starts |
| ScoreExtraction.Captures | chutes_ai_interface.py:49 | `findall` yields one string per match, each '' or '.' followed by digits |
| ScoreExtraction.FractionValue | chutes_ai_interface.py:50 | `float('.ddd')` lies in [0, 1) |
| ScoreExtraction.FilterFailsIffSomeFloatFails | chutes_ai_interface.py:50 | the comprehension raises exactly when some `float` call raises |
| ScoreExtraction.FilterKeepsInRangeInputs | chutes_ai_interface.py:50 | every kept value is one of the inputs and lies in [-100, 100] |
| ScoreExtraction.SelectScoreIsFirstInRange | chutes_ai_interface.py:50-57 | without a raise, the result is the first number in [-100, 100] in text order, and 0 when none is |
| ScoreExtraction.SelectScoreInRange | chutes_ai_interface.py:50-54 | any selected score lies in [-100, 100] |
| ScoreExtraction.NoContentGivesZero | chutes_ai_interface.py:37-65 | a request exception, a non-200 status or empty content gives 0 |
| ScoreExtraction.AnalyzeTweetRange | chutes_ai_interface.py:48-57 | as written, a score lies in [-100, 100], and over reals in [0, 1) |
| ScoreExtraction.AnalyzeTweetFailsIffBareInteger | chutes_ai_interface.py:48-62 | as written, a 200 reply with content raises exactly when some match has no fractional part |
| ScoreExtraction.AsWrittenRejectsWholeNumber | chutes_ai_interface.py:48-50 | as written, the reply "75" raises |
| ScoreExtraction.CapturesOfSignedDecimal | chutes_ai_interface.py:48-49 | `re.findall` on "-42.5" gives only the group ".5" |
| ScoreExtraction.AsWrittenKeepsOnlyFraction | chutes_ai_interface.py:48-54 | as written, the reply "-42.5" scores 0.5 |
| ScoreExtraction.AnalyzeTweetIntendedInRange | chutes_ai_interface.py:50-57 | reading whole numerals, scoring never raises and the score lies in [-100, 100] |
| ScoreExtraction.AnalyzeTweetIntendedIsFirstInRange | chutes_ai_interface.py:50-54 | reading whole numerals, the score is the first numeral in [-100, 100] in text order |
| ScoreExtraction.IntendedReadsWholeNumber | chutes_ai_interface.py:48-54 | reading whole numerals, "75" scores 75 |
| ScoreExtraction.IntendedKeepsSignAndFraction | chutes_ai_interface.py:48-54 | reading whole numerals, "-42.5" scores -42.5 |
| Sentiment.SumBounds | sentiment_task.py:39-45 | the sum of n scores in [-100, 100] lies in [-100 n, 100 n] |
| Sentiment.QuotientBounds | sentiment_task.py:48 | dividing such a sum by n > 0 gives a value in [-100, 100] |
| Sentiment.MeanInRange | sentiment_task.py:42-48 | the mean of scores in [-100, 100] lies in [-100, 100] |
| Sentiment.RefreshKeepsRange | sentiment_task.py:26-48 | a refresh keeps the signal in [-100, 100] when every per-text score is |
| Sentiment.AbortedRefreshKeepsSignal | sentiment_task.py:31-55 | a failed fetch, an empty fetch or a raising score call leaves the signal unchanged |
| Sentiment.CompletedRefreshPublishesMean | sentiment_task.py:39-48 | a refresh whose scores all arrive publishes their sum divided by the number of texts |
| Sentiment.CyclesKeepRange | sentiment_task.py:77-81 | through any sequence of cycles whose scores are in range, the signal stays in [-100, 100] |
| Sentiment.AsWrittenScorerKeepsRange | sentiment_task.py:44-48 | with the scoring as written, every refresh keeps the signal in [-100, 100] |
| Sentiment.IntendedScorerAlwaysPublishes | sentiment_task.py:42-48 | with whole numerals read, a non-empty fetch always publishes the mean, which lies in [-100, 100] |
| Sentiment.SentimentTask.constructor | sentiment_task.py:8 | the signal starts at 0 |
| Sentiment.SentimentTask.AnalyzeSentiment | sentiment_task.py:15-55 | the new signal is Refreshed(old signal, fetch, scorer): the sum is local and published once |
| Sentiment.SentimentTask.GetSentimentScore | sentiment_task.py:58-69 | returns the current signal and changes nothing |
| Sentiment.SentimentTask.RunPeriodically | sentiment_task.py:72-81 | after n cycles the signal is that of n refreshes in turn, whatever their outcome, and the clock has advanced 7200 n seconds |
| Trading.AmountIsOnePercentOfMagnitude | trading.py:34 | the amount is non-negative and equals abs(score) / 100 |
| Trading.DecideExamples | trading.py:30-67 | decide(0) is no action, decide(50) stakes 0.5, decide(-20) unstakes 0.2 |
| Trading.ZeroScoreDoesNothing | trading.py:66-67 | a zero signal makes no wallet call, writes no log, and returns False |
| Trading.NonZeroScoreTrades | trading.py:37-59 | a positive signal calls add_stake and logs one "stake" entry; a negative one calls unstake and logs one "unstake" entry; True even when the wallet returns None |
| Trading.FailureGivesFalse | trading.py:37-64 | a raising wallet call or a failed log write gives False and leaves no log entry |
| Trading.OkIffOneEntry | trading.py:37-67 | at most one log entry is written, and True is returned exactly when one is |
| Trading.WalletArgumentsAsWritten | trading.py:40-55 | the wallet's `address` parameter receives the netuid and its `netuid` parameter the hotkey |
| Trading.TradingProcess | trading.py:10-67 | result, wallet call and appended log entries are those of TradeStepOf for the current signal |
| Database.FindUser | database.py:70 | a found document is in the collection and has the asked username |
| Database.FindUserFindsAny | database.py:33-34 | `find_one` finds a document exactly when one has that username |
| Database.DuplicateLeavesUsers | database.py:33-36 | storing a taken username returns the duplicate error and changes nothing |
| Database.CreatedStoresHash | database.py:38-48 | a successful store appends exactly one record holding hash(password), and no password remains in the dict |
| Database.ValidationFailureInsertsNothing | database.py:39-52 | a bad e-mail gives a validation error and inserts nothing, after the dict has been rewritten |
| Database.StoreKeepsUsernamesUnique | database.py:32-48 | any store keeps usernames unique |
| Database.FindUserAfterAppend | database.py:46 | a record with a new username, once appended, is what `find_one` finds for it; other lookups are unchanged |
| Database.StoreThenFind | database.py:70-73 | right after a successful store, looking up the username gives the stored record |
| Database.MongoStore.StoreUser | database.py:21-56 | result, caller's dict and users collection are those of StoreUserStep; uniqueness is preserved |
| Database.MongoStore.GetUserByUsername | database.py:59-79 | the user is found exactly when one has that username, and the answer is NotFound (Python None) when none has it; an unreachable database gives HTTP 500 |
| Database.MongoStore.LogTradingAction | database.py:82-111 | one entry with the given fields is appended, transaction id None by default; an unreachable database gives HTTP 500 and appends nothing |
| Api.ReadRoot | main.py:19-24 | the root reply is always the fixed Swagger message |
| Api.NoParametersGivesMessage | main.py:109-110 | with neither netuid nor hotkey the reply is exactly the "No netuid or hotkey provided" message |
| Api.QueryFollowsParameters | main.py:109-143 | both parameters run the pair query, netuid alone the subnet query, hotkey alone the fan-out |
| Api.DividendReplyFields | main.py:101-143 | a dividend reply echoes both parameters, says cached True, and reports a trade exactly when trade was set, both parameters were present and trading returned True |
| Api.TradeNeedsBothParameters | main.py:104-106 | a trade runs only for requests that also run the pair query |
| Api.GetTaoDividends | main.py:81-143 | at most one trading call, with its log effect; the reply carries the answer of the query the parameters select, and the cache and the chain requests change as that query changes them |

## Left out

- Redis connection setup and the websocket chain client, including `get_chain_head`: the cache is a map with an explicit clock, and the chain is the `Ledger` oracle. `decode_account_id` is a function field of that oracle.
- Concurrency: `asyncio.gather` and `asyncio.as_completed` are modelled as sequential loops. Interleavings with other requests, and with the refresh task, are not modelled.
- Redis stores strings. The model stores reals, and `float(str(v))` is taken to give back `v`.
- The truthiness of the chain's storage object is taken to be that of the value it holds. The library is not part of this model.
- Floating point: means, amounts and `float()` of the regex captures are reals, without rounding. ScoreExtraction.AnalyzeTweetRange states [0, 1) over reals; with Python floats, `float('.99999999999999999')` rounds to 1.0, so the as-written score lies in [0, 1].
- `get_tweets` and `analyze_tweet` are synchronous but awaited in sentiment_task.py, so awaiting them raises. The fetch and scoring outcomes may fail, which covers this; Python's await machinery is not modelled.
- `\w` and `\d` are ASCII only. Python also counts other Unicode letters and digits.
- The request building in `analyze_tweet` and the JSON shape of the reply (`choices`, `message`) are not modelled. The reply is a status and a content string, with "" for missing content.
- authenticator.py and utils.py: JWT and bcrypt. The authenticated user is a username, and hashing is a function given to the store. `get_current_user` calls `get_user_by_username` without awaiting it; this is not modelled.
- The `register` and `login` endpoints. `register` only builds the dict that `MongoStore.StoreUser` takes.
- datura_ai_interface.py and bittensor_wallet_interface.py are collaborators, given as their outcomes. The wallet's random transaction ids are not modelled.
- The arguments of `get_tweets` (10 texts, 7 days) are not modelled: the fetch is given by its outcome.
- Mongo's `inserted_id` is modelled as the record's index in the collection.
- `datetime.utcnow()` is an integer timestamp parameter.
- Logging, config.py and celery_worker.py.
- Sentiment.SentimentTask.RunPeriodically: models a finite prefix of the `while True` loop, since the loop never ends.
- Api.GetTaoDividends: the contract does not state that trading runs before the dividend query. The two touch disjoint state, so the order shows only in the body.

## Findings

| source | as written | input that shows it | evidently intended | confidence | as-written member | corrected member |
|---|---|---|---|---|---|---|
| chutes_ai_interface.py:48-50 | the pattern's one group makes `re.findall` return `''` or `.ddd` per match, and `float('')` raises a ValueError that `analyze_tweet` does not catch | a reply "75" raises; a reply "-42.5" scores 0.5 | the first whole numeral in [-100, 100]: 75 and -42.5 | high; not executed | ScoreExtraction.AsWrittenRejectsWholeNumber | ScoreExtraction.AnalyzeTweetIntendedIsFirstInRange |
