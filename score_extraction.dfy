/**
 * How chutes_ai_interface.py turns a chat-completion reply into a sentiment
 * score, from the HTTP status and the reply text onward.
 *
 * The reply text is searched with `re.findall(r'-?\b\d+(\.\d+)?\b', text)`.
 * Because the pattern has one group, `findall` yields the group's text for
 * each match — "" when the match has no fractional part, ".ddd" otherwise —
 * and never the numeral itself. `float("")` raises a ValueError that the
 * function does not catch. `AnalyzeTweet` models this as written;
 * `AnalyzeTweetIntended` reads whole numerals, as the range filter intends.
 */
module ScoreExtraction {
  import opened Basics

  const OkStatus: int := 200
  const MinScore: real := -100.0
  const MaxScore: real := 100.0

  predicate InRange(v: real) {
    MinScore <= v <= MaxScore
  }

  /** A character `\w` matches (ASCII letters, digits and '_'). */
  predicate IsWordChar(c: char) {
    IsDigit(c) || 'a' <= c <= 'z' || 'A' <= c <= 'Z' || c == '_'
  }

  /** Where the run of digits starting at i ends. */
  function DigitRunEnd(t: string, i: nat): (e: nat)
    requires i <= |t|
    ensures i <= e <= |t|
    ensures forall j :: i <= j < e ==> IsDigit(t[j])
    ensures e == |t| || !IsDigit(t[e])
    decreases |t| - i
  {
    if i < |t| && IsDigit(t[i]) then DigitRunEnd(t, i + 1) else i
  }

  /** The text of group 1 when it took part: a '.' and at least one digit. */
  predicate IsFraction(g: string) {
    |g| >= 2 && g[0] == '.' && AllDigits(g[1..])
  }

  /**
   * One match: its start, where its integer digits start and end, its end,
   * and the text of group 1 ("" when the fraction did not take part).
   */
  datatype Match = Match(start: nat, digits: nat, intEnd: nat, end: nat, group: string)

  /** The facts every match of the pattern in t satisfies. */
  predicate WellFormed(t: string, m: Match) {
    && m.start <= m.digits < m.intEnd <= m.end <= |t|
    && (m.digits == m.start || (m.digits == m.start + 1 && t[m.start] == '-'))
    && AllDigits(t[m.digits..m.intEnd])
    && (m.group == "" <==> m.end == m.intEnd)
    && (m.group != "" ==> m.group == t[m.intEnd..m.end] && IsFraction(m.group))
  }

  /**
   * `\d+(\.\d+)?\b` at q, where the boundary before q already holds. The greedy
   * digit run must end at a non-word character or at the end of the text (a
   * shorter run would end before a digit, where `\b` fails). The fraction is
   * kept when its digit run ends the same way; otherwise the engine drops it and
   * the '.' serves as the boundary. The answer is where integer part and match end.
   */
  function DigitsMatch(t: string, q: nat): (r: Option<(nat, nat)>)
    requires q < |t|
    ensures r.Some? ==> q < r.value.0 <= r.value.1 <= |t| && AllDigits(t[q..r.value.0])
    ensures r.Some? && r.value.0 < r.value.1 ==> IsFraction(t[r.value.0..r.value.1])
  {
    var e1 := DigitRunEnd(t, q);
    if e1 == q || (e1 < |t| && IsWordChar(t[e1])) then None
    else if e1 + 1 < |t| && t[e1] == '.' && IsDigit(t[e1 + 1]) then
      var e2 := DigitRunEnd(t, e1 + 1);
      assert t[e1..e2][1..] == t[e1 + 1..e2];
      if e2 < |t| && IsWordChar(t[e2]) then Some((e1, e1)) else Some((e1, e2))
    else Some((e1, e1))
  }

  /**
   * The pattern tried at p: first with the optional '-' taken (the boundary
   * after a '-' always holds), then without it, which needs a digit at p and a
   * boundary before it.
   */
  function MatchAt(t: string, p: nat): (r: Option<Match>)
    requires p < |t|
    ensures r.Some? ==> r.value.start == p && WellFormed(t, r.value)
  {
    if t[p] == '-' && p + 1 < |t| && DigitsMatch(t, p + 1).Some? then
      var (i, e) := DigitsMatch(t, p + 1).value;
      Some(Match(p, p + 1, i, e, t[i..e]))
    else if IsDigit(t[p]) && (p == 0 || !IsWordChar(t[p - 1])) && DigitsMatch(t, p).Some? then
      var (i, e) := DigitsMatch(t, p).value;
      Some(Match(p, p, i, e, t[i..e]))
    else None
  }

  /** The non-overlapping matches from p on, left to right, as `re.findall` scans. */
  function MatchesFrom(t: string, p: nat): (ms: seq<Match>)
    requires p <= |t|
    ensures forall i :: 0 <= i < |ms| ==> p <= ms[i].start && WellFormed(t, ms[i])
    ensures forall i :: 0 <= i < |ms| - 1 ==> ms[i].end <= ms[i + 1].start
    decreases |t| - p
  {
    if p == |t| then []
    else match MatchAt(t, p)
      case Some(m) => [m] + MatchesFrom(t, m.end)
      case None => MatchesFrom(t, p + 1)
  }

  function Matches(t: string): seq<Match> {
    MatchesFrom(t, 0)
  }

  /** What `re.findall(pattern, text)` returns: group 1 of each match. */
  function Captures(t: string): (gs: seq<string>)
    ensures |gs| == |Matches(t)|
    ensures forall i :: 0 <= i < |gs| ==> gs[i] == "" || IsFraction(gs[i])
  {
    var ms := Matches(t);
    seq(|ms|, i requires 0 <= i < |ms| => ms[i].group)
  }

  /** The value of ".ddd". */
  function FractionValue(g: string): (v: real)
    requires IsFraction(g)
    ensures 0.0 <= v < 1.0
  {
    DigitsValueBound(g[1..]);
    QuotientBelowOne(DigitsValue(g[1..]) as real, Pow10(|g| - 1) as real);
    DigitsValue(g[1..]) as real / Pow10(|g| - 1) as real
  }

  lemma QuotientBelowOne(a: real, b: real)
    requires 0.0 <= a < b
    ensures 0.0 <= a / b < 1.0
  {
    assert a / b * b == a;
  }

  /** `float(s)` for a capture: `float("")` raises (None), ".ddd" parses. */
  function FloatOfCapture(g: string): Option<real> {
    if IsFraction(g) then Some(FractionValue(g)) else None
  }

  /** `float` of the whole numeral a match covers: sign, integer part and fraction. */
  function NumeralValue(t: string, m: Match): real
    requires WellFormed(t, m)
  {
    var magnitude := DigitsValue(t[m.digits..m.intEnd]) as real + if m.group == "" then 0.0 else FractionValue(m.group);
    if m.digits == m.start then magnitude else -magnitude
  }

  /**
   * `[float(num) for num in numbers if -100 <= float(num) <= 100]` over numbers
   * already passed through `float` (None where it raised): any raise makes the
   * whole comprehension raise; otherwise the in-range values, in order.
   */
  function FilterInRange(vals: seq<Option<real>>): Option<seq<real>> {
    if vals == [] then Some([])
    else match vals[0]
      case None => None
      case Some(v) =>
        match FilterInRange(vals[1..])
        case None => None
        case Some(rest) => Some(if InRange(v) then [v] + rest else rest)
  }

  /** What the scoring call yields: a number, or an exception escaping it. */
  datatype ScoreOutcome = Scored(value: real) | ScoringFails

  /** The first filtered number, or 0 when none survives. */
  function SelectScore(vals: seq<Option<real>>): ScoreOutcome {
    match FilterInRange(vals)
    case None => ScoringFails
    case Some(vs) => if vs != [] then Scored(vs[0]) else Scored(0.0)
  }

  /** The HTTP exchange: a `RequestException`, or a status and the message content ("" when missing). */
  datatype ChatReply = RequestFails | HttpReply(status: int, content: string)

  /** `analyze_tweet` from the reply onward, as written. */
  function AnalyzeTweet(reply: ChatReply): ScoreOutcome {
    match reply
    case RequestFails => Scored(0.0)
    case HttpReply(status, content) =>
      if status != OkStatus || content == "" then Scored(0.0)
      else
        var gs := Captures(content);
        SelectScore(seq(|gs|, i requires 0 <= i < |gs| => FloatOfCapture(gs[i])))
  }

  /** `analyze_tweet` with the group made non-capturing, so that whole numerals are read. */
  function AnalyzeTweetIntended(reply: ChatReply): ScoreOutcome {
    match reply
    case RequestFails => Scored(0.0)
    case HttpReply(status, content) =>
      if status != OkStatus || content == "" then Scored(0.0)
      else
        var ms := Matches(content);
        SelectScore(seq(|ms|, i requires 0 <= i < |ms| => Some(NumeralValue(content, ms[i]))))
  }

  // ---------------------------------------------------------------------------
  // The filter and the selection

  /** The comprehension raises exactly when some `float` call raises. */
  lemma {:induction false} FilterFailsIffSomeFloatFails(vals: seq<Option<real>>)
    ensures FilterInRange(vals).None? <==> exists i :: 0 <= i < |vals| && vals[i].None?
  {
    if vals != [] {
      FilterFailsIffSomeFloatFails(vals[1..]);
      if vals[0].Some? && exists i :: 0 <= i < |vals| && vals[i].None? {
        var i :| 0 <= i < |vals| && vals[i].None?;
        assert vals[1..][i - 1].None?;
      }
    }
  }

  /** Every value the filter keeps is one of the inputs, and in [-100, 100]. */
  lemma {:induction false} FilterKeepsInRangeInputs(vals: seq<Option<real>>)
    requires FilterInRange(vals).Some?
    ensures forall k :: 0 <= k < |FilterInRange(vals).value| ==>
      InRange(FilterInRange(vals).value[k]) &&
      exists i :: 0 <= i < |vals| && vals[i] == Some(FilterInRange(vals).value[k])
  {
    if vals != [] {
      FilterKeepsInRangeInputs(vals[1..]);
      var vs := FilterInRange(vals).value;
      var rest := FilterInRange(vals[1..]).value;
      forall k | 0 <= k < |vs|
        ensures InRange(vs[k]) && exists i :: 0 <= i < |vals| && vals[i] == Some(vs[k])
      {
        if InRange(vals[0].value) && k == 0 {
          assert vals[0] == Some(vs[k]);
        } else {
          var k' := if InRange(vals[0].value) then k - 1 else k;
          assert vs[k] == rest[k'];
          var i :| 0 <= i < |vals[1..]| && vals[1..][i] == Some(rest[k']);
          assert vals[i + 1] == Some(vs[k]);
        }
      }
    }
  }

  /**
   * When every `float` call succeeds, the selection returns the first number in
   * [-100, 100] in text order, and 0 exactly when there is none.
   */
  lemma {:induction false} SelectScoreIsFirstInRange(vals: seq<Option<real>>)
    requires forall i :: 0 <= i < |vals| ==> vals[i].Some?
    ensures SelectScore(vals).Scored?
    ensures (forall i :: 0 <= i < |vals| ==> !InRange(vals[i].value)) ==> SelectScore(vals) == Scored(0.0)
    ensures forall i | 0 <= i < |vals| && InRange(vals[i].value) && (forall j :: 0 <= j < i ==> !InRange(vals[j].value)) :: SelectScore(vals) == Scored(vals[i].value)
  {
    if vals != [] {
      SelectScoreIsFirstInRange(vals[1..]);
      FilterFailsIffSomeFloatFails(vals[1..]);
      forall i | 0 <= i < |vals| && InRange(vals[i].value) && (forall j :: 0 <= j < i ==> !InRange(vals[j].value))
        ensures SelectScore(vals) == Scored(vals[i].value)
      {
        if i > 0 {
          assert !InRange(vals[0].value);
          assert forall j :: 0 <= j < i - 1 ==> !InRange(vals[1..][j].value) by {
            forall j | 0 <= j < i - 1 ensures !InRange(vals[1..][j].value) {
              assert vals[1..][j] == vals[j + 1];
            }
          }
          assert vals[1..][i - 1] == vals[i];
        }
      }
      if forall i :: 0 <= i < |vals| ==> !InRange(vals[i].value) {
        assert forall i :: 0 <= i < |vals[1..]| ==> !InRange(vals[1..][i].value) by {
          forall i | 0 <= i < |vals[1..]| ensures !InRange(vals[1..][i].value) {
            assert vals[1..][i] == vals[i + 1];
          }
        }
      }
    }
  }

  /** Any number the selection returns lies in [-100, 100]. */
  lemma SelectScoreInRange(vals: seq<Option<real>>)
    ensures SelectScore(vals).Scored? ==> InRange(SelectScore(vals).value)
  {
    if FilterInRange(vals).Some? {
      FilterKeepsInRangeInputs(vals);
    }
  }

  // ---------------------------------------------------------------------------
  // The extraction as written

  /** A failed request, a non-200 status or empty content gives 0 without parsing. */
  lemma NoContentGivesZero(reply: ChatReply)
    requires reply.RequestFails? || reply.status != OkStatus || reply.content == ""
    ensures AnalyzeTweet(reply) == Scored(0.0)
  {
  }

  /** As written, any score lies in [-100, 100]; in fact it is a bare fraction in [0, 1). */
  lemma AnalyzeTweetRange(reply: ChatReply)
    ensures AnalyzeTweet(reply).Scored? ==> InRange(AnalyzeTweet(reply).value)
    ensures AnalyzeTweet(reply).Scored? ==> 0.0 <= AnalyzeTweet(reply).value < 1.0
  {
    if reply.HttpReply? && reply.status == OkStatus && reply.content != "" {
      var gs := Captures(reply.content);
      var vals := seq(|gs|, i requires 0 <= i < |gs| => FloatOfCapture(gs[i]));
      SelectScoreInRange(vals);
      if FilterInRange(vals).Some? && FilterInRange(vals).value != [] {
        FilterKeepsInRangeInputs(vals);
        var i :| 0 <= i < |vals| && vals[i] == Some(FilterInRange(vals).value[0]);
        assert IsFraction(gs[i]);
      }
    }
  }

  /**
   * As written, a 200 reply with content raises exactly when some match has no
   * fractional part — any integer such as "75" in the text.
   */
  lemma AnalyzeTweetFailsIffBareInteger(content: string)
    requires content != ""
    ensures AnalyzeTweet(HttpReply(OkStatus, content)) == ScoringFails <==>
      exists i :: 0 <= i < |Captures(content)| && Captures(content)[i] == ""
  {
    var gs := Captures(content);
    var vals := seq(|gs|, i requires 0 <= i < |gs| => FloatOfCapture(gs[i]));
    FilterFailsIffSomeFloatFails(vals);
    if exists i :: 0 <= i < |gs| && gs[i] == "" {
      var i :| 0 <= i < |gs| && gs[i] == "";
      assert vals[i].None?;
    }
  }

  /** As written, the reply "75" makes `analyze_tweet` raise. */
  lemma AsWrittenRejectsWholeNumber()
    ensures AnalyzeTweet(HttpReply(OkStatus, "75")) == ScoringFails
  {
    var t := "75";
    assert DigitRunEnd(t, 2) == 2;
    assert DigitRunEnd(t, 1) == 2;
    assert DigitRunEnd(t, 0) == 2;
    assert MatchAt(t, 0) == Some(Match(0, 0, 2, 2, ""));
    assert Matches(t) == [Match(0, 0, 2, 2, "")];
    assert Captures(t)[0] == "";
    AnalyzeTweetFailsIffBareInteger(t);
  }

  /** `re.findall` on "-42.5" gives only the fractional group ".5". */
  lemma CapturesOfSignedDecimal()
    ensures Captures("-42.5") == [".5"]
  {
    var t := "-42.5";
    assert DigitRunEnd(t, 5) == 5;
    assert DigitRunEnd(t, 4) == 5;
    assert DigitRunEnd(t, 3) == 3;
    assert DigitRunEnd(t, 2) == 3;
    assert DigitRunEnd(t, 1) == 3;
    assert t[3..5] == ".5";
    assert DigitsMatch(t, 1) == Some((3, 5));
    assert MatchAt(t, 0) == Some(Match(0, 1, 3, 5, ".5"));
    assert MatchesFrom(t, 5) == [];
    assert Matches(t) == [Match(0, 1, 3, 5, ".5")];
  }

  /** As written, the reply "-42.5" scores 0.5: sign and integer part are lost. */
  lemma AsWrittenKeepsOnlyFraction()
    ensures AnalyzeTweet(HttpReply(OkStatus, "-42.5")) == Scored(0.5)
  {
    CapturesOfSignedDecimal();
    var gs := Captures("-42.5");
    assert ".5"[1..] == "5";
    assert DigitsValue("5") == 5 by {
      assert "5"[..0] == "";
    }
    assert FractionValue(".5") == 0.5;
    var vals := seq(|gs|, i requires 0 <= i < |gs| => FloatOfCapture(gs[i]));
    assert vals == [Some(0.5)];
    assert FilterInRange(vals[1..]) == Some([]);
  }

  // ---------------------------------------------------------------------------
  // The extraction with whole numerals

  /** Reading whole numerals, the scoring call never raises and any score lies in [-100, 100]. */
  lemma AnalyzeTweetIntendedInRange(reply: ChatReply)
    ensures AnalyzeTweetIntended(reply).Scored?
    ensures InRange(AnalyzeTweetIntended(reply).value)
  {
    if reply.HttpReply? && reply.status == OkStatus && reply.content != "" {
      var ms := Matches(reply.content);
      var vals := seq(|ms|, i requires 0 <= i < |ms| => Some(NumeralValue(reply.content, ms[i])));
      SelectScoreIsFirstInRange(vals);
      SelectScoreInRange(vals);
    }
  }

  /** Reading whole numerals, the score is the first numeral in [-100, 100] in text order, else 0. */
  lemma AnalyzeTweetIntendedIsFirstInRange(content: string, i: nat)
    requires content != ""
    requires i < |Matches(content)|
    requires InRange(NumeralValue(content, Matches(content)[i]))
    requires forall j :: 0 <= j < i ==> !InRange(NumeralValue(content, Matches(content)[j]))
    ensures AnalyzeTweetIntended(HttpReply(OkStatus, content)) == Scored(NumeralValue(content, Matches(content)[i]))
  {
    var ms := Matches(content);
    var vals := seq(|ms|, i requires 0 <= i < |ms| => Some(NumeralValue(content, ms[i])));
    assert forall j :: 0 <= j < |vals| ==> vals[j] == Some(NumeralValue(content, ms[j]));
    SelectScoreIsFirstInRange(vals);
  }

  /** Reading whole numerals, "75" scores 75. */
  lemma IntendedReadsWholeNumber()
    ensures AnalyzeTweetIntended(HttpReply(OkStatus, "75")) == Scored(75.0)
  {
    var t := "75";
    assert DigitRunEnd(t, 2) == 2;
    assert DigitRunEnd(t, 1) == 2;
    assert DigitRunEnd(t, 0) == 2;
    assert MatchAt(t, 0) == Some(Match(0, 0, 2, 2, ""));
    assert Matches(t) == [Match(0, 0, 2, 2, "")];
    assert t[0..2] == "75" && "75"[..1] == "7" && "7"[..0] == "";
    assert DigitsValue("75") == 75;
    assert NumeralValue(t, Match(0, 0, 2, 2, "")) == 75.0;
    var vals := [Some(75.0)];
    assert vals[1..] == [];
    assert FilterInRange(vals[1..]) == Some([]);
    assert InRange(75.0);
    assert vals[0] == Some(75.0);
    assert [75.0] + [] == [75.0];
    assert FilterInRange(vals) == Some([75.0]);
    assert SelectScore(vals) == Scored(75.0);
    var ms := Matches(t);
    assert seq(|ms|, i requires 0 <= i < |ms| => Some(NumeralValue(t, ms[i]))) == vals;
  }

  /** Reading whole numerals, "-42.5" scores -42.5. */
  lemma IntendedKeepsSignAndFraction()
    ensures AnalyzeTweetIntended(HttpReply(OkStatus, "-42.5")) == Scored(-42.5)
  {
    var u := "-42.5";
    assert DigitRunEnd(u, 5) == 5;
    assert DigitRunEnd(u, 4) == 5;
    assert DigitRunEnd(u, 3) == 3;
    assert DigitRunEnd(u, 2) == 3;
    assert DigitRunEnd(u, 1) == 3;
    assert u[3..5] == ".5" && ".5"[1..] == "5" && "5"[..0] == "";
    assert DigitsMatch(u, 1) == Some((3, 5));
    assert MatchAt(u, 0) == Some(Match(0, 1, 3, 5, ".5"));
    assert MatchesFrom(u, 5) == [];
    assert Matches(u) == [Match(0, 1, 3, 5, ".5")];
    assert u[1..3] == "42" && "42"[..1] == "4" && "4"[..0] == "";
    assert DigitsValue("42") == 42;
    assert DigitsValue("5") == 5;
    assert FractionValue(".5") == 0.5;
    assert NumeralValue(u, Match(0, 1, 3, 5, ".5")) == -42.5;
    var vals := [Some(-42.5)];
    assert vals[1..] == [];
    assert FilterInRange(vals[1..]) == Some([]);
    assert InRange(-42.5);
    assert vals[0] == Some(-42.5);
    assert [-42.5] + [] == [-42.5];
    assert FilterInRange(vals) == Some([-42.5]);
    assert SelectScore(vals) == Scored(-42.5);
    var ms := Matches(u);
    assert seq(|ms|, i requires 0 <= i < |ms| => Some(NumeralValue(u, ms[i]))) == vals;
  }
}
