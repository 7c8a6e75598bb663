/** The quality validator: every rendering of the content is scored from a
    base of 0.8 minus a penalty for each problem found, clamped to [0, 1];
    the run passes when the mean score reaches the threshold, and the spread
    of the scores gives a consistency figure. */
module Validator {
  import opened Wrappers
  import opened Text
  import opened Json
  import opened Dicts
  import opened Stats

  /** The problems `_validate_format` reports, each with its message and the
      amount it takes off the score. */
  datatype Issue =
    | TooShort
    | TooLong
    | MissingMarkdownHeader
    | MissingBold
    | InvalidHtml
    | MissingHtmlHeader
    | InvalidJsonLd
    | OffTopic

  function Message(i: Issue): string
  {
    match i
    case TooShort => "Content too short"
    case TooLong => "Content too long"
    case MissingMarkdownHeader => "Missing markdown header"
    case MissingBold => "Missing bold text in markdown"
    case InvalidHtml => "Invalid HTML structure"
    case MissingHtmlHeader => "Missing HTML header"
    case InvalidJsonLd => "Invalid JSON-LD format"
    case OffTopic => "Content not relevant to topic"
  }

  function Penalty(i: Issue): (p: real)
    ensures 0.0 < p <= 0.5
  {
    match i
    case TooShort => 0.2
    case TooLong => 0.1
    case MissingMarkdownHeader => 0.3
    case MissingBold => 0.1
    case InvalidHtml => 0.3
    case MissingHtmlHeader => 0.2
    case InvalidJsonLd => 0.5
    case OffTopic => 0.2
  }

  /** The sum of the penalties of a list of issues. */
  function TotalPenalty(issues: seq<Issue>): real
  {
    if issues == [] then 0.0 else TotalPenalty(issues[..|issues| - 1]) + Penalty(issues[|issues| - 1])
  }

  /** `max(0.0, min(1.0, x))`. */
  function Clamp(x: real): (r: real)
    ensures 0.0 <= r <= 1.0
    ensures 0.0 <= x <= 1.0 ==> r == x
  {
    if x > 1.0 then 1.0 else if x < 0.0 then 0.0 else x
  }

  /** `re.search(r'^#\s+', s, re.MULTILINE)`: some line starts with '#'
      followed by whitespace (a newline counts as whitespace). */
  predicate HasMarkdownHeader(s: string)
  {
    exists i | 0 <= i < |s| - 1 :: HeaderAt(s, i)
  }

  /** A line starts at `i` with '#' and a whitespace character. */
  predicate HeaderAt(s: string, i: int)
    requires 0 <= i < |s| - 1
  {
    (i == 0 || s[i - 1] == '\n') && s[i] == '#' && IsSpace(s[i + 1])
  }

  /** `re.search(r'\*\*.*\*\*', s)`: two non-overlapping "**" on one line. */
  predicate HasBoldPair(s: string)
  {
    exists i, j | 0 <= i && i + 2 <= j && j + 2 <= |s| ::
      OccursAt(s, "**", i) && OccursAt(s, "**", j) && NoNewlineBetween(s, i + 2, j)
  }

  predicate NoNewlineBetween(s: string, from: int, to: int)
    requires 0 <= from <= to <= |s|
  {
    forall m | from <= m < to :: s[m] != '\n'
  }

  /** The length check: under 50 characters is too short, over 5000 too long. */
  function LengthIssues(content: string): seq<Issue>
  {
    if |content| < 50 then [TooShort] else if |content| > 5000 then [TooLong] else []
  }

  /** The markdown checks: a heading line and a bold pair. */
  function MarkdownIssues(content: string): seq<Issue>
  {
    (if HasMarkdownHeader(content) then [] else [MissingMarkdownHeader])
    + (if HasBoldPair(content) then [] else [MissingBold])
  }

  /** The HTML checks: both html tags, then a level-one heading. */
  function HtmlIssues(content: string): seq<Issue>
  {
    (if Contains(content, "<html>") && Contains(content, "</html>") then [] else [InvalidHtml])
    + (if Contains(content, "<h1>") then [] else [MissingHtmlHeader])
  }

  /** The structural checks of the three known formats; other formats have none. */
  function FormatIssues(codec: Codec, content: string, formatType: string): seq<Issue>
  {
    if formatType == "markdown" then MarkdownIssues(content)
    else if formatType == "html" then HtmlIssues(content)
    else if formatType == "jsonld" then
      if codec.loads(content).Some? then [] else [InvalidJsonLd]
    else []
  }

  /** The relevance check: a non-empty topic must occur in the content,
      ignoring case. */
  function TopicIssues(content: string, topic: string): seq<Issue>
  {
    if Lower(topic) != "" && !Contains(Lower(content), Lower(topic)) then [OffTopic] else []
  }

  /** A text opening with '#' and a whitespace character has a header. */
  lemma HeaderAtStart(s: string)
    requires |s| >= 2 && s[0] == '#' && IsSpace(s[1])
    ensures HasMarkdownHeader(s)
  {
    assert HeaderAt(s, 0);
  }

  /** Two "**" on one line make a bold pair. */
  lemma BoldPairAt(s: string, i: int, j: int)
    requires 0 <= i && i + 2 <= j && j + 2 <= |s|
    requires OccursAt(s, "**", i) && OccursAt(s, "**", j) && NoNewlineBetween(s, i + 2, j)
    ensures HasBoldPair(s)
  {
  }

  /** Every problem `_validate_format` reports, in the order it reports them. */
  function IssuesOf(codec: Codec, content: string, formatType: string, topic: string): seq<Issue>
  {
    LengthIssues(content) + FormatIssues(codec, content, formatType) + TopicIssues(content, topic)
  }

  /** The score of one rendering: 0.8 less the penalties, clamped to [0, 1]. */
  function Score(codec: Codec, content: string, formatType: string, topic: string): real
  {
    Clamp(0.8 - TotalPenalty(IssuesOf(codec, content, formatType, topic)))
  }

  datatype FormatResult = FormatResult(qualityScore: real, issues: seq<Issue>, contentLength: nat, formatType: string)

  /** What `_validate_format` returns for one rendering. */
  function FormatReport(codec: Codec, content: string, formatType: string, topic: string): FormatResult
  {
    FormatResult(Score(codec, content, formatType, topic), IssuesOf(codec, content, formatType, topic), |content|, formatType)
  }

  /** `_validate_format`: the checks run one after the other, each appending
      its issue and lowering the running score; the base is added and the
      result clamped at the end. The topic is `metadata.get('topic', '')`,
      the empty string when the metadata has none. */
  method ValidateFormat(codec: Codec, content: string, formatType: string, topic: string) returns (r: FormatResult)
    ensures r == FormatReport(codec, content, formatType, topic)
    ensures 0.0 <= r.qualityScore <= 0.8
    ensures r.qualityScore == 0.8 <==> r.issues == []
  {
    var score := 0.0;
    var issues: seq<Issue> := [];
    if |content| < 50 {
      issues, score := issues + [TooShort], score - 0.2;
    } else if |content| > 5000 {
      issues, score := issues + [TooLong], score - 0.1;
    }
    assert issues == LengthIssues(content) && score == 0.0 - TotalPenalty(issues);
    var found := CheckStructure(codec, content, formatType);
    TotalPenaltyConcat(issues, found);
    issues, score := issues + found, score - TotalPenalty(found);
    var offTopic := CheckTopic(content, topic);
    TotalPenaltyConcat(issues, offTopic);
    issues, score := issues + offTopic, score - TotalPenalty(offTopic);
    assert issues == IssuesOf(codec, content, formatType, topic);
    score := Clamp(score + 0.8);
    r := FormatResult(score, issues, |content|, formatType);
    ScoreBounds(codec, content, formatType, topic);
  }

  /** The format-specific block of `_validate_format`: the issues it
      appends, in order. */
  method CheckStructure(codec: Codec, content: string, formatType: string) returns (issues: seq<Issue>)
    ensures issues == FormatIssues(codec, content, formatType)
  {
    issues := [];
    if formatType == "markdown" {
      if !HasMarkdownHeader(content) {
        issues := issues + [MissingMarkdownHeader];
      }
      if !HasBoldPair(content) {
        issues := issues + [MissingBold];
      }
    } else if formatType == "html" {
      if !Contains(content, "<html>") || !Contains(content, "</html>") {
        issues := issues + [InvalidHtml];
      }
      if !Contains(content, "<h1>") {
        issues := issues + [MissingHtmlHeader];
      }
    } else if formatType == "jsonld" {
      if codec.loads(content).None? {
        issues := issues + [InvalidJsonLd];
      }
    }
  }

  /** The relevance block of `_validate_format`. */
  method CheckTopic(content: string, topic: string) returns (issues: seq<Issue>)
    ensures issues == TopicIssues(content, topic)
  {
    issues := [];
    var t := Lower(topic);
    if t != "" && !Contains(Lower(content), t) {
      issues := issues + [OffTopic];
    }
  }

  lemma TotalPenaltySnoc(issues: seq<Issue>, i: Issue)
    ensures TotalPenalty(issues + [i]) == TotalPenalty(issues) + Penalty(i)
  {
    assert (issues + [i])[..|issues|] == issues;
  }

  lemma {:induction false} TotalPenaltyNonNegative(issues: seq<Issue>)
    ensures TotalPenalty(issues) >= 0.0
    ensures TotalPenalty(issues) == 0.0 <==> issues == []
  {
    if issues != [] {
      TotalPenaltyNonNegative(issues[..|issues| - 1]);
    }
  }

  /** A score never exceeds the 0.8 base and is never negative; it is exactly
      0.8 when no issue was found. */
  lemma ScoreBounds(codec: Codec, content: string, formatType: string, topic: string)
    ensures 0.0 <= Score(codec, content, formatType, topic) <= 0.8
    ensures Score(codec, content, formatType, topic) == 0.8 <==> IssuesOf(codec, content, formatType, topic) == []
  {
    TotalPenaltyNonNegative(IssuesOf(codec, content, formatType, topic));
  }

  /** An invalid JSON-LD document loses half its score whatever else holds. */
  lemma InvalidJsonLdScoresAtMost(codec: Codec, content: string, topic: string)
    requires codec.loads(content).None?
    ensures Score(codec, content, "jsonld", topic) <= 0.3
  {
    var issues := IssuesOf(codec, content, "jsonld", topic);
    var l := LengthIssues(content);
    var t := TopicIssues(content, topic);
    assert issues == l + [InvalidJsonLd] + t;
    TotalPenaltyConcat(l + [InvalidJsonLd], t);
    TotalPenaltyNonNegative(t);
    TotalPenaltyNonNegative(l);
  }

  lemma {:induction false} TotalPenaltyConcat(a: seq<Issue>, b: seq<Issue>)
    ensures TotalPenalty(a + b) == TotalPenalty(a) + TotalPenalty(b)
    decreases |b|
  {
    if b == [] {
      assert a + b == a;
    } else {
      var b' := b[..|b| - 1];
      assert (a + b)[..|a + b| - 1] == a + b';
      TotalPenaltyConcat(a, b');
    }
  }

  /** The validator's configuration: `quality_threshold` (0.8 by default)
      and `consistency_check` (on by default). */
  datatype QualityValidator = QualityValidator(threshold: real, consistencyCheck: bool)

  function NewValidator(threshold: Option<real>, consistencyCheck: Option<bool>): (v: QualityValidator)
    ensures v.threshold == (if threshold.Some? then threshold.value else 0.8)
    ensures v.consistencyCheck == (consistencyCheck.None? || consistencyCheck.value)
  {
    QualityValidator(threshold.GetOr(0.8), consistencyCheck.GetOr(true))
  }

  /** The per-format results, filled in the order of the content's keys. */
  function Results(codec: Codec, content: Dict<string>, topic: string): (r: Dict<FormatResult>)
    ensures Keys(r) == Dedup(Keys(content))
  {
    if content == [] then []
    else
      var init := content[..|content| - 1];
      var (k, v) := content[|content| - 1];
      assert Keys(content) == Keys(init) + [k];
      Put(Results(codec, init, topic), k, FormatReport(codec, v, k, topic))
  }

  /** `[result['quality_score'] for result in results.values()]`. */
  function Scores(results: Dict<FormatResult>): (s: seq<real>)
    ensures |s| == |results|
    ensures forall i :: 0 <= i < |results| ==> s[i] == results[i].1.qualityScore
  {
    seq(|results|, i requires 0 <= i < |results| => results[i].1.qualityScore)
  }

  /** `_check_consistency`: 1.0 for fewer than two scores, otherwise one less
      the population variance, but not below zero. */
  function Consistency(scores: seq<real>): real
  {
    if |scores| < 2 then 1.0
    else
      var c := 1.0 - Variance(scores);
      if c > 0.0 then c else 0.0
  }

  datatype Validation = Validation(
    passed: bool,
    qualityScore: real,
    consistencyScore: real,
    formatResults: Dict<FormatResult>,
    threshold: real)

  /** `validate`: every rendering is scored, the overall score is the mean
      (0 when there is none), the run passes when that reaches the threshold,
      and consistency is checked only when the configuration asks for it. */
  method Validate(v: QualityValidator, codec: Codec, content: Dict<string>, topic: string) returns (res: Validation)
    ensures res.formatResults == Results(codec, content, topic)
    ensures res.qualityScore == Mean(Scores(res.formatResults))
    ensures res.passed <==> res.qualityScore >= v.threshold
    ensures res.consistencyScore == if v.consistencyCheck then Consistency(Scores(res.formatResults)) else 1.0
    ensures res.threshold == v.threshold
  {
    var results: Dict<FormatResult> := [];
    for i := 0 to |content|
      invariant results == Results(codec, content[..i], topic)
    {
      var r := ValidateFormat(codec, content[i].1, content[i].0, topic);
      ResultsStep(codec, content, topic, i);
      results := Put(results, content[i].0, r);
    }
    assert content[..|content|] == content;
    var scores := Scores(results);
    var overall := if scores == [] then 0.0 else Sum(scores) / |scores| as real;
    var consistency := if v.consistencyCheck then Consistency(scores) else 1.0;
    res := Validation(overall >= v.threshold, overall, consistency, results, v.threshold);
  }

  lemma ResultsStep(codec: Codec, content: Dict<string>, topic: string, i: int)
    requires 0 <= i < |content|
    ensures Results(codec, content[..i + 1], topic)
      == Put(Results(codec, content[..i], topic), content[i].0, FormatReport(codec, content[i].1, content[i].0, topic))
  {
    assert content[..i + 1][..i] == content[..i];
  }

  /** Every stored result is the report of some rendering of the content. */
  lemma {:induction false} ResultsAreReports(codec: Codec, content: Dict<string>, topic: string, i: int)
    requires 0 <= i < |Results(codec, content, topic)|
    ensures exists j :: 0 <= j < |content| && Results(codec, content, topic)[i] == (content[j].0, FormatReport(codec, content[j].1, content[j].0, topic))
  {
    var n := |content| - 1;
    var init := content[..n];
    var prev := Results(codec, init, topic);
    PutEntry(prev, content[n].0, FormatReport(codec, content[n].1, content[n].0, topic), i);
    if i < |prev| && Results(codec, content, topic)[i] == prev[i] {
      ResultsAreReports(codec, init, topic, i);
      var j :| 0 <= j < |init| && prev[i] == (init[j].0, FormatReport(codec, init[j].1, init[j].0, topic));
      assert content[j] == init[j];
    }
  }

  /** Every stored score lies in [0, 0.8] and is 0.8 exactly when that
      rendering has no issue. */
  lemma ResultScoresBounded(codec: Codec, content: Dict<string>, topic: string)
    ensures forall i :: 0 <= i < |Results(codec, content, topic)| ==>
      var r := Results(codec, content, topic)[i].1;
      0.0 <= r.qualityScore <= 0.8 && (r.qualityScore == 0.8 <==> r.issues == [])
  {
    var rs := Results(codec, content, topic);
    forall i | 0 <= i < |rs|
      ensures 0.0 <= rs[i].1.qualityScore <= 0.8 && (rs[i].1.qualityScore == 0.8 <==> rs[i].1.issues == [])
    {
      ResultsAreReports(codec, content, topic, i);
      var j :| 0 <= j < |content| && rs[i] == (content[j].0, FormatReport(codec, content[j].1, content[j].0, topic));
      ScoreBounds(codec, content[j].1, content[j].0, topic);
    }
  }

  /** The overall score lies in [0, 0.8]. */
  lemma OverallBounds(codec: Codec, content: Dict<string>, topic: string)
    ensures 0.0 <= Mean(Scores(Results(codec, content, topic))) <= 0.8
  {
    var s := Scores(Results(codec, content, topic));
    ResultScoresBounded(codec, content, topic);
    if s != [] {
      MeanBounds(s, 0.0, 0.8);
    }
  }

  /** A threshold above the 0.8 base can never be met. */
  lemma ThresholdAboveBaseNeverPasses(v: QualityValidator, codec: Codec, content: Dict<string>, topic: string)
    requires v.threshold > 0.8
    ensures !(Mean(Scores(Results(codec, content, topic))) >= v.threshold)
  {
    OverallBounds(codec, content, topic);
  }

  /** With the default threshold of 0.8, a run passes exactly when there is
      some content and no rendering has any issue. */
  lemma PassesAtDefaultThreshold(codec: Codec, content: Dict<string>, topic: string)
    ensures var rs := Results(codec, content, topic);
      Mean(Scores(rs)) >= 0.8 <==> content != [] && forall i :: 0 <= i < |rs| ==> rs[i].1.issues == []
  {
    var rs := Results(codec, content, topic);
    var s := Scores(rs);
    ResultScoresBounded(codec, content, topic);
    assert |rs| == |Dedup(Keys(content))|;
    if content != [] {
      assert Keys(content)[0] in Dedup(Keys(content));
      MeanReachesBound(s, 0.8);
    }
  }

  /** Consistency lies in [0, 1]; it is 1 exactly when there are fewer than
      two scores or all scores are equal. */
  lemma ConsistencyBounds(scores: seq<real>)
    ensures 0.0 <= Consistency(scores) <= 1.0
    ensures Consistency(scores) == 1.0 <==> |scores| < 2 || AllEqual(scores)
  {
    VarianceNonNegative(scores);
    VarianceZeroIffAllEqual(scores);
  }

  /** The consistency self-test: scores 0.8, 0.9 and 0.7 have variance 1/150,
      so the consistency is well above the 0.5 the test asks for. */
  lemma ConsistencyOfTestScores()
    ensures Consistency([0.8, 0.9, 0.7]) == 1.0 - 1.0 / 150.0
  {
    var xs := [0.8, 0.9, 0.7];
    assert xs[..2] == [0.8, 0.9] && xs[..2][..1] == [0.8] && [0.8][..0] == [];
    assert Sum(xs) == 2.4;
    assert Mean(xs) == 0.8;
    assert Square(0.8 - 0.8) == 0.0;
    assert Square(0.9 - 0.8) == 0.01;
    assert Square(0.7 - 0.8) == 0.01;
    assert SquaredDeviations(xs, 0.8) == 0.02;
  }

  /** The markdown self-test: a heading, a bold word and the topic in a text of
      exactly 50 characters, so nothing is reported and the score is 0.8. */
  lemma MarkdownTestScores(codec: Codec)
    ensures Score(codec, "# Test Title\n\nThis is " + "**" + "bold" + "**" + " text about testing.", "markdown", "testing") == 0.8
  {
    var s := "# Test Title\n\nThis is " + "**" + "bold" + "**" + " text about testing.";
    MarkdownTestChecks(s);
    assert IssuesOf(codec, s, "markdown", "testing") == [];
  }

  lemma MarkdownTestChecks(s: string)
    requires s == "# Test Title\n\nThis is " + "**" + "bold" + "**" + " text about testing."
    ensures LengthIssues(s) == [] && MarkdownIssues(s) == [] && TopicIssues(s, "testing") == []
  {
    assert |s| == 50;
    MarkdownTestHeader(s);
    BoldPairIn("# Test Title\n\nThis is ", "bold", " text about testing.");
    MarkdownTestTopic(s);
  }

  lemma MarkdownTestHeader(s: string)
    requires s == "# Test Title\n\nThis is " + "**" + "bold" + "**" + " text about testing."
    ensures HasMarkdownHeader(s)
  {
    var head := "# Test Title\n\nThis is ";
    assert s[0] == head[0] && s[1] == head[1];
    HeaderAtStart(s);
  }

  lemma MarkdownTestTopic(s: string)
    requires s == "# Test Title\n\nThis is " + "**" + "bold" + "**" + " text about testing."
    ensures TopicIssues(s, "testing") == []
  {
    var tail := " text about testing.";
    assert OccursAt(tail, "testing", 12);
    OccursAfter("# Test Title\n\nThis is " + "**" + "bold" + "**", tail, "testing", 12);
    assert forall i :: 0 <= i < 7 ==> "testing"[i] in "testing";
    TopicFoundAt(s, "testing", 42);
  }

  /** Two "**" around a word without line break make a bold pair. */
  lemma BoldPairIn(a: string, w: string, b: string)
    requires forall i :: 0 <= i < |w| ==> w[i] != '\n'
    ensures HasBoldPair(a + "**" + w + "**" + b)
  {
    var s := a + "**" + w + "**" + b;
    var i, j := |a|, |a| + 2 + |w|;
    assert s[i..i + 2] == "**";
    assert s[j..j + 2] == "**";
    assert forall m | i + 2 <= m < j :: s[m] == w[m - i - 2];
    BoldPairAt(s, i, j);
  }

  /** The HTML self-test: the page has both html tags, a heading and the
      topic, and is long enough, so its score is 0.8. */
  lemma HtmlTestScores(codec: Codec)
    ensures Score(codec, "<html><body>" + "<h1>Test Title</h1>" + "<p>This is about " + "testing.</p>" + "</body></html>", "html", "testing") == 0.8
  {
    var s := "<html><body>" + "<h1>Test Title</h1>" + "<p>This is about " + "testing.</p>" + "</body></html>";
    HtmlTestChecks(s);
    assert IssuesOf(codec, s, "html", "testing") == [];
  }

  lemma HtmlTestChecks(s: string)
    requires s == "<html><body>" + "<h1>Test Title</h1>" + "<p>This is about " + "testing.</p>" + "</body></html>"
    ensures LengthIssues(s) == [] && HtmlIssues(s) == [] && TopicIssues(s, "testing") == []
  {
    assert |s| == 74;
    HtmlTestTags(s);
    HtmlTestTopic(s);
  }

  lemma HtmlTestTags(s: string)
    requires s == "<html><body>" + "<h1>Test Title</h1>" + "<p>This is about " + "testing.</p>" + "</body></html>"
    ensures Contains(s, "<html>") && Contains(s, "</html>") && Contains(s, "<h1>")
  {
    var p1, p2, p3, p4 := "<html><body>", "<h1>Test Title</h1>", "<p>This is about ", "testing.</p>";
    assert OccursAt(p1, "<html>", 0);
    OccursBefore(p1, p2, "<html>", 0);
    OccursBefore(p1 + p2, p3, "<html>", 0);
    OccursBefore(p1 + p2 + p3, p4, "<html>", 0);
    OccursBefore(p1 + p2 + p3 + p4, "</body></html>", "<html>", 0);
    assert OccursAt(p2, "<h1>", 0);
    OccursAfter(p1, p2, "<h1>", 0);
    OccursBefore(p1 + p2, p3, "<h1>", 12);
    OccursBefore(p1 + p2 + p3, p4, "<h1>", 12);
    OccursBefore(p1 + p2 + p3 + p4, "</body></html>", "<h1>", 12);
    OccursAfter("<html><body>" + "<h1>Test Title</h1>" + "<p>This is about " + "testing.</p>", "</body></html>", "</html>", 7);
  }

  lemma HtmlTestTopic(s: string)
    requires s == "<html><body>" + "<h1>Test Title</h1>" + "<p>This is about " + "testing.</p>" + "</body></html>"
    ensures TopicIssues(s, "testing") == []
  {
    assert OccursAt(s, "testing", 48);
    assert forall i :: 0 <= i < 7 ==> "testing"[i] in "testing";
    TopicFoundAt(s, "testing", 48);
  }

  /** A topic without capitals found in a text makes the text relevant. */
  lemma TopicFoundAt(s: string, topic: string, k: int)
    requires forall i :: 0 <= i < |topic| ==> !('A' <= topic[i] <= 'Z')
    requires OccursAt(s, topic, k)
    ensures TopicIssues(s, topic) == []
  {
    assert Lower(topic) == topic;
    forall m | k <= m < k + |topic| ensures Lower(s)[m] == s[m] {
      assert s[m] == topic[m - k];
    }
    assert Lower(s)[k..k + |topic|] == topic;
    assert OccursAt(Lower(s), Lower(topic), k);
  }
}
