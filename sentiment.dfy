/**
 * The process-wide sentiment signal of sentiment_task.py and the task that
 * refreshes it: fetch recent texts, score each, publish the mean in one
 * assignment, wait two hours, repeat. The text source and the scoring call
 * are collaborators given as their outcomes; an outcome that raises aborts
 * the cycle and keeps the previous signal.
 */
module Sentiment {
  import opened Basics
  import opened ScoreExtraction

  /** `asyncio.sleep(7200)` between cycles. */
  const RefreshIntervalSeconds: nat := 7200

  /** What fetching the texts gives: an exception, or the list of texts. */
  datatype FetchOutcome = FetchFails | Fetched(texts: seq<string>)

  /**
   * What one cycle meets: the fetch outcome, and what scoring the i-th text
   * gives. The outcome depends on the position too, since the model call is
   * sampled and two equal texts need not score alike.
   */
  datatype Cycle = Cycle(fetch: FetchOutcome, scorer: (nat, string) -> ScoreOutcome)

  function Sum(vs: seq<real>): real {
    if vs == [] then 0.0 else Sum(vs[..|vs| - 1]) + vs[|vs| - 1]
  }

  predicate AllScored(texts: seq<string>, scorer: (nat, string) -> ScoreOutcome) {
    forall i :: 0 <= i < |texts| ==> scorer(i, texts[i]).Scored?
  }

  /** The per-text scores, in order. */
  function Scores(texts: seq<string>, scorer: (nat, string) -> ScoreOutcome): (vs: seq<real>)
    requires AllScored(texts, scorer)
    ensures |vs| == |texts|
  {
    seq(|texts|, i requires 0 <= i < |texts| => scorer(i, texts[i]).value)
  }

  /**
   * The signal after one `analyze_sentiment`: unchanged when the fetch raises,
   * yields no texts, or any scoring raises; otherwise the mean of the scores.
   */
  function Refreshed(prev: real, fetch: FetchOutcome, scorer: (nat, string) -> ScoreOutcome): real {
    if fetch.FetchFails? || fetch.texts == [] || !AllScored(fetch.texts, scorer) then prev
    else Sum(Scores(fetch.texts, scorer)) / |fetch.texts| as real
  }

  /** The signal after the given cycles, one after another. */
  function AfterCycles(prev: real, cycles: seq<Cycle>): real {
    if cycles == [] then prev
    else
      var last := cycles[|cycles| - 1];
      Refreshed(AfterCycles(prev, cycles[..|cycles| - 1]), last.fetch, last.scorer)
  }

  /** Every score the scorer gives for these texts lies in [-100, 100]. */
  predicate ScoresInRange(texts: seq<string>, scorer: (nat, string) -> ScoreOutcome) {
    forall i :: 0 <= i < |texts| && scorer(i, texts[i]).Scored? ==> InRange(scorer(i, texts[i]).value)
  }

  predicate CycleScoresInRange(c: Cycle) {
    c.fetch.Fetched? ==> ScoresInRange(c.fetch.texts, c.scorer)
  }

  // ---------------------------------------------------------------------------
  // Properties of a refresh

  lemma {:induction false} SumBounds(vs: seq<real>)
    requires forall i :: 0 <= i < |vs| ==> InRange(vs[i])
    ensures MinScore * |vs| as real <= Sum(vs) <= MaxScore * |vs| as real
  {
    if vs != [] {
      SumBounds(vs[..|vs| - 1]);
    }
  }

  lemma QuotientBounds(s: real, n: real)
    requires n > 0.0
    requires MinScore * n <= s <= MaxScore * n
    ensures MinScore <= s / n <= MaxScore
  {
    assert s / n * n == s;
  }

  /** The mean of scores in [-100, 100] lies in [-100, 100]. */
  lemma MeanInRange(vs: seq<real>)
    requires |vs| > 0
    requires forall i :: 0 <= i < |vs| ==> InRange(vs[i])
    ensures InRange(Sum(vs) / |vs| as real)
  {
    SumBounds(vs);
    QuotientBounds(Sum(vs), |vs| as real);
  }

  /** A refresh keeps the signal in [-100, 100] when every score is. */
  lemma RefreshKeepsRange(prev: real, fetch: FetchOutcome, scorer: (nat, string) -> ScoreOutcome)
    requires InRange(prev)
    requires fetch.Fetched? ==> ScoresInRange(fetch.texts, scorer)
    ensures InRange(Refreshed(prev, fetch, scorer))
  {
    if fetch.Fetched? && fetch.texts != [] && AllScored(fetch.texts, scorer) {
      var vs := Scores(fetch.texts, scorer);
      assert forall i :: 0 <= i < |vs| ==> vs[i] == scorer(i, fetch.texts[i]).value;
      MeanInRange(vs);
    }
  }

  /** A fetch that raises or yields no texts, or a scoring call that raises, leaves the signal. */
  lemma AbortedRefreshKeepsSignal(prev: real, fetch: FetchOutcome, scorer: (nat, string) -> ScoreOutcome)
    requires fetch.FetchFails? || fetch.texts == [] ||
      exists i :: 0 <= i < |fetch.texts| && scorer(i, fetch.texts[i]).ScoringFails?
    ensures Refreshed(prev, fetch, scorer) == prev
  {
  }

  /** A refresh over n >= 1 texts all scored publishes their sum divided by n. */
  lemma CompletedRefreshPublishesMean(prev: real, texts: seq<string>, scorer: (nat, string) -> ScoreOutcome)
    requires texts != [] && AllScored(texts, scorer)
    ensures Refreshed(prev, Fetched(texts), scorer) == Sum(Scores(texts, scorer)) / |texts| as real
  {
  }

  /** Starting from 0, the signal stays in [-100, 100] through any cycles whose scores are. */
  lemma {:induction false} CyclesKeepRange(prev: real, cycles: seq<Cycle>)
    requires InRange(prev)
    requires forall i :: 0 <= i < |cycles| ==> CycleScoresInRange(cycles[i])
    ensures InRange(AfterCycles(prev, cycles))
  {
    if cycles != [] {
      var init := cycles[..|cycles| - 1];
      assert forall i :: 0 <= i < |init| ==> init[i] == cycles[i];
      CyclesKeepRange(prev, init);
      var last := cycles[|cycles| - 1];
      assert CycleScoresInRange(last);
      RefreshKeepsRange(AfterCycles(prev, init), last.fetch, last.scorer);
    }
  }

  /** With the scoring call as written, a refresh keeps the signal in [-100, 100]. */
  lemma AsWrittenScorerKeepsRange(prev: real, fetch: FetchOutcome, replies: (nat, string) -> ChatReply)
    requires InRange(prev)
    ensures InRange(Refreshed(prev, fetch, (i: nat, t: string) => AnalyzeTweet(replies(i, t))))
  {
    var scorer := (i: nat, t: string) => AnalyzeTweet(replies(i, t));
    if fetch.Fetched? {
      forall i | 0 <= i < |fetch.texts| && scorer(i, fetch.texts[i]).Scored?
        ensures InRange(scorer(i, fetch.texts[i]).value)
      {
        AnalyzeTweetRange(replies(i, fetch.texts[i]));
      }
    }
    RefreshKeepsRange(prev, fetch, scorer);
  }

  /**
   * With whole numerals read, no scoring call aborts a refresh: any non-empty
   * fetch publishes the mean of the scores, which lies in [-100, 100].
   */
  lemma IntendedScorerAlwaysPublishes(prev: real, texts: seq<string>, replies: (nat, string) -> ChatReply)
    requires texts != []
    ensures var scorer := (i: nat, t: string) => AnalyzeTweetIntended(replies(i, t));
      AllScored(texts, scorer) &&
      Refreshed(prev, Fetched(texts), scorer) == Sum(Scores(texts, scorer)) / |texts| as real &&
      InRange(Refreshed(prev, Fetched(texts), scorer))
  {
    var scorer := (i: nat, t: string) => AnalyzeTweetIntended(replies(i, t));
    forall i | 0 <= i < |texts|
      ensures scorer(i, texts[i]).Scored? && InRange(scorer(i, texts[i]).value)
    {
      AnalyzeTweetIntendedInRange(replies(i, texts[i]));
    }
    var vs := Scores(texts, scorer);
    assert forall i :: 0 <= i < |vs| ==> vs[i] == scorer(i, texts[i]).value;
    MeanInRange(vs);
  }

  /** One more scored text adds its score to the running sum. */
  lemma ScoresExtend(texts: seq<string>, scorer: (nat, string) -> ScoreOutcome, i: nat)
    requires i < |texts|
    requires AllScored(texts[..i], scorer) && scorer(i, texts[i]).Scored?
    ensures AllScored(texts[..i + 1], scorer)
    ensures Sum(Scores(texts[..i + 1], scorer)) == Sum(Scores(texts[..i], scorer)) + scorer(i, texts[i]).value
  {
    assert texts[..i + 1][..i] == texts[..i];
    assert Scores(texts[..i + 1], scorer)[..i] == Scores(texts[..i], scorer);
  }

  // ---------------------------------------------------------------------------
  // The task

  class SentimentTask {
    /** The global `sentiment_score`. */
    var sentimentScore: real
    /** The current time in seconds. */
    var clock: int

    /** Module load: the signal starts at 0. */
    constructor (start: int)
      ensures sentimentScore == 0.0 && clock == start
    {
      sentimentScore := 0.0;
      clock := start;
    }

    /**
     * `analyze_sentiment`: the sum is local, so a scoring call that raises
     * mid-loop leaves the published signal as it was.
     */
    method AnalyzeSentiment(fetch: FetchOutcome, scorer: (nat, string) -> ScoreOutcome)
      modifies this`sentimentScore
      ensures sentimentScore == Refreshed(old(sentimentScore), fetch, scorer)
    {
      if fetch.FetchFails? {
        return;
      }
      var tweets := fetch.texts;
      if |tweets| == 0 {
        return;
      }
      var scoreSum := 0.0;
      var i := 0;
      while i < |tweets|
        invariant 0 <= i <= |tweets|
        invariant AllScored(tweets[..i], scorer)
        invariant scoreSum == Sum(Scores(tweets[..i], scorer))
        invariant sentimentScore == old(sentimentScore)
      {
        var subScore := scorer(i, tweets[i]);
        if subScore.ScoringFails? {
          assert !AllScored(tweets, scorer);
          return;
        }
        ScoresExtend(tweets, scorer, i);
        scoreSum := scoreSum + subScore.value;
        i := i + 1;
      }
      assert tweets[..i] == tweets;
      sentimentScore := scoreSum / |tweets| as real;
    }

    /** `get_sentiment_score`: the last published value. */
    method GetSentimentScore() returns (score: real)
      ensures score == sentimentScore
    {
      score := sentimentScore;
    }

    /** `asyncio.sleep(seconds)`. */
    method Sleep(seconds: nat)
      modifies this`clock
      ensures clock == old(clock) + seconds
    {
      clock := clock + seconds;
    }

    /**
     * The first cycles of `start_sentiment_analysis_periodically`: each runs
     * one refresh, whatever its outcome, then sleeps 7200 seconds.
     */
    method RunPeriodically(cycles: seq<Cycle>)
      modifies this
      ensures sentimentScore == AfterCycles(old(sentimentScore), cycles)
      ensures clock == old(clock) + RefreshIntervalSeconds * |cycles|
    {
      var i := 0;
      while i < |cycles|
        invariant 0 <= i <= |cycles|
        invariant sentimentScore == AfterCycles(old(sentimentScore), cycles[..i])
        invariant clock == old(clock) + RefreshIntervalSeconds * i
      {
        assert cycles[..i + 1][..i] == cycles[..i];
        AnalyzeSentiment(cycles[i].fetch, cycles[i].scorer);
        Sleep(RefreshIntervalSeconds);
        i := i + 1;
      }
      assert cycles[..i] == cycles;
    }
  }
}
