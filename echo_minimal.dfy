/** The minimal visibility experiment: each DOI is put to a language model
    before and after publication, the two answers are classified, and a row
    per DOI records whether visibility improved. The model's answers are
    parameters. */
module EchoMinimal {
  import opened Wrappers
  import opened Text

  datatype VisibilityStatus = Visible | NotVisible | Ambiguous

  /** The enum's value, as written to the results table. */
  function Value(v: VisibilityStatus): (s: string)
    ensures s == "visible" <==> v == Visible
  {
    match v
    case Visible => "visible"
    case NotVisible => "not_visible"
    case Ambiguous => "ambiguous"
  }

  /** A needle contains each of its suffixes, so a text holding the needle
      holds the suffix too. */
  lemma ContainsSuffix(s: string, sub: string, k: int)
    requires Contains(s, sub) && 0 <= k <= |sub|
    ensures Contains(s, sub[k..])
  {
    var i :| 0 <= i <= |s| - |sub| && OccursAt(s, sub, i);
    assert s[i + k..i + |sub|] == s[i..i + |sub|][k..];
    assert OccursAt(s, sub[k..], i + k);
  }

  /** `parse_response` as written: the test for "VISIBLE" comes first. */
  function ParseResponse(response: string): (v: VisibilityStatus)
    ensures v == Visible <==> Contains(Upper(response), "VISIBLE")
  {
    var u := Upper(response);
    if Contains(u, "VISIBLE") then Visible
    else if Contains(u, "NOT_VISIBLE") || Contains(u, "NOT VISIBLE") then NotVisible
    else Ambiguous
  }

  /** Both negative answers contain "VISIBLE", so the NOT_VISIBLE branch can
      never be taken. */
  lemma NeverNotVisible(response: string)
    ensures ParseResponse(response) != NotVisible
    ensures ParseResponse(response) == Ambiguous <==> !Contains(Upper(response), "VISIBLE")
  {
    var u := Upper(response);
    if Contains(u, "NOT_VISIBLE") {
      ContainsSuffix(u, "NOT_VISIBLE", 4);
      assert "NOT_VISIBLE"[4..] == "VISIBLE";
    } else if Contains(u, "NOT VISIBLE") {
      ContainsSuffix(u, "NOT VISIBLE", 4);
      assert "NOT VISIBLE"[4..] == "VISIBLE";
    }
  }

  /** The answer the prompt asks for when the DOI is unknown is read as
      VISIBLE. */
  lemma NotVisibleAnswerReadAsVisible()
    ensures ParseResponse("NOT_VISIBLE") == Visible
  {
    UpperOfUpper("NOT_VISIBLE");
    assert OccursAt("NOT_VISIBLE", "VISIBLE", 4);
  }

  /** Text without lower-case letters is its own upper case. */
  lemma UpperOfUpper(s: string)
    requires forall i :: 0 <= i < |s| ==> !('a' <= s[i] <= 'z')
    ensures Upper(s) == s
  {
  }

  /** `query_llm` answers "AMBIGUOUS" when the request fails, and that is
      read as AMBIGUOUS. */
  lemma ErrorFallbackIsAmbiguous()
    ensures ParseResponse("AMBIGUOUS") == Ambiguous
  {
    UpperOfUpper("AMBIGUOUS");
    NotContainsByChar("AMBIGUOUS", "VISIBLE", 'V');
  }

  /** `parse_response` as evidently intended: the negative answers are
      recognised before the positive one they contain. */
  function ParseResponseCorrected(response: string): (v: VisibilityStatus)
    ensures v == NotVisible <==> Contains(Upper(response), "NOT_VISIBLE") || Contains(Upper(response), "NOT VISIBLE")
    ensures v == Visible <==> Contains(Upper(response), "VISIBLE") && v != NotVisible
    ensures v == Ambiguous <==> !Contains(Upper(response), "VISIBLE")
  {
    var u := Upper(response);
    if Contains(u, "NOT_VISIBLE") || Contains(u, "NOT VISIBLE") then
      NeverNotVisible(response);
      NotVisible
    else if Contains(u, "VISIBLE") then Visible
    else Ambiguous
  }

  /** The corrected reading tells the three prompted answers apart. */
  lemma CorrectedReadsPromptedAnswers()
    ensures ParseResponseCorrected("NOT_VISIBLE") == NotVisible
    ensures ParseResponseCorrected("VISIBLE") == Visible
    ensures ParseResponseCorrected("AMBIGUOUS") == Ambiguous
  {
    CorrectedReadsNotVisible();
    CorrectedReadsVisible();
    ErrorFallbackIsAmbiguous();
  }

  lemma CorrectedReadsNotVisible()
    ensures ParseResponseCorrected("NOT_VISIBLE") == NotVisible
  {
    UpperOfUpper("NOT_VISIBLE");
    assert OccursAt("NOT_VISIBLE", "NOT_VISIBLE", 0);
  }

  lemma CorrectedReadsVisible()
    ensures ParseResponseCorrected("VISIBLE") == Visible
  {
    UpperOfUpper("VISIBLE");
    assert OccursAt("VISIBLE", "VISIBLE", 0);
    NotContainsByChar("VISIBLE", "NOT_VISIBLE", 'N');
    NotContainsByChar("VISIBLE", "NOT VISIBLE", 'N');
  }

  // ------------------------------------------------------------ experiment

  /** A DOI under test; `run_experiment` fills in the two statuses. */
  class DOIRecord {
    const doi: string
    const title: string
    const publicationDate: string
    var preStatus: Option<VisibilityStatus>
    var postStatus: Option<VisibilityStatus>

    /** As `load_dois` builds it: no status yet. */
    constructor(doi: string, title: string, publicationDate: string)
      ensures this.doi == doi && this.title == title && this.publicationDate == publicationDate
      ensures preStatus == None && postStatus == None
    {
      this.doi, this.title, this.publicationDate := doi, title, publicationDate;
      preStatus, postStatus := None, None;
    }
  }

  /** One row of the results table. */
  datatype ResultRow = ResultRow(
    doi: string, title: string, publicationDate: string,
    preStatus: string, postStatus: string, improvedVisibility: bool)

  /** The row for a DOI with its two statuses: visibility improved when the
      DOI was not visible before and visible after. */
  function Row(doi: string, title: string, date: string, pre: VisibilityStatus, post: VisibilityStatus): (r: ResultRow)
    ensures r.improvedVisibility <==> pre == NotVisible && post == Visible
    ensures r.preStatus == Value(pre) && r.postStatus == Value(post)
    ensures r.doi == doi && r.title == title && r.publicationDate == date
  {
    ResultRow(doi, title, date, Value(pre), Value(post), pre == NotVisible && post == Visible)
  }

  /** With the classification as written no DOI ever shows improved
      visibility, whatever the model answers. */
  lemma NeverImproved(doi: string, title: string, date: string, before: string, after: string)
    ensures !Row(doi, title, date, ParseResponse(before), ParseResponse(after)).improvedVisibility
  {
    NeverNotVisible(before);
  }

  /** With the corrected classification the prompted answers NOT_VISIBLE then
      VISIBLE do count as improved. */
  lemma CorrectedCanImprove(doi: string, title: string, date: string)
    ensures Row(doi, title, date, ParseResponseCorrected("NOT_VISIBLE"), ParseResponseCorrected("VISIBLE")).improvedVisibility
  {
    CorrectedReadsPromptedAnswers();
  }

  /** `run_experiment`'s loop: for each record in order, the answer before
      and after publication (`answers[i]`) is classified, both statuses are
      stored on the record and one row is appended. */
  method RunExperiment(records: seq<DOIRecord>, answers: seq<(string, string)>) returns (results: seq<ResultRow>)
    requires |answers| == |records|
    requires forall i, j :: 0 <= i < j < |records| ==> records[i] != records[j]
    modifies set r | r in records
    ensures |results| == |records|
    ensures forall i :: 0 <= i < |records| ==>
      records[i].preStatus == Some(ParseResponse(answers[i].0)) &&
      records[i].postStatus == Some(ParseResponse(answers[i].1))
    ensures forall i :: 0 <= i < |records| ==>
      results[i] == Row(records[i].doi, records[i].title, records[i].publicationDate,
                        ParseResponse(answers[i].0), ParseResponse(answers[i].1))
  {
    results := [];
    for i := 0 to |records|
      invariant |results| == i
      invariant forall k :: 0 <= k < i ==>
        records[k].preStatus == Some(ParseResponse(answers[k].0)) &&
        records[k].postStatus == Some(ParseResponse(answers[k].1))
      invariant forall k :: 0 <= k < i ==>
        results[k] == Row(records[k].doi, records[k].title, records[k].publicationDate,
                          ParseResponse(answers[k].0), ParseResponse(answers[k].1))
    {
      var record := records[i];
      var pre := ParseResponse(answers[i].0);
      var post := ParseResponse(answers[i].1);
      record.preStatus := Some(pre);
      record.postStatus := Some(post);
      results := results + [Row(record.doi, record.title, record.publicationDate, pre, post)];
    }
  }

  /** `df['improved_visibility'].sum()`. */
  function ImprovedCount(rows: seq<ResultRow>): (n: nat)
    ensures n <= |rows|
    ensures n == 0 <==> forall i :: 0 <= i < |rows| ==> !rows[i].improvedVisibility
  {
    if rows == [] then 0
    else
      var init := rows[..|rows| - 1];
      assert forall i :: 0 <= i < |init| ==> init[i] == rows[i];
      ImprovedCount(init) + (if rows[|rows| - 1].improvedVisibility then 1 else 0)
  }

  /** Rows built from classified answers, as `run_experiment` builds them,
      add up to zero improvements in the summary. */
  lemma {:induction false} ExperimentShowsNoImprovement(rows: seq<ResultRow>, answers: seq<(string, string)>)
    requires |rows| == |answers|
    requires forall i :: 0 <= i < |rows| ==>
      rows[i] == Row(rows[i].doi, rows[i].title, rows[i].publicationDate,
                     ParseResponse(answers[i].0), ParseResponse(answers[i].1))
    ensures ImprovedCount(rows) == 0
  {
    if rows != [] {
      var n := |rows| - 1;
      ExperimentShowsNoImprovement(rows[..n], answers[..n]);
      NeverImproved(rows[n].doi, rows[n].title, rows[n].publicationDate, answers[n].0, answers[n].1);
    }
  }

  // --------------------------------------------------------------- summary

  /** The summary's cell text as written: over 30 characters, the first 29
      and an ellipsis. */
  function Truncate(s: string): (r: string)
    ensures |s| <= 30 ==> r == s
    ensures |s| > 30 ==> r == s[..29] + "..." && |r| == 32
  {
    if |s| > 30 then s[..29] + "..." else s
  }

  /** A 31-character value comes out longer than it went in, and longer than
      the 30-character column. */
  lemma TruncateOverflowsColumn(s: string)
    requires |s| == 31 || |s| == 32
    ensures |Truncate(s)| == 32 > 30
    ensures |s| == 31 ==> |Truncate(s)| > |s|
  {
  }

  /** The cell text as evidently intended: a value too wide for the
      30-character column is cut so that it fits with its ellipsis. */
  function FitColumn(s: string): (r: string)
    ensures |r| <= 30
    ensures |s| <= 30 ==> r == s
    ensures |s| > 30 ==> |r| == 30 && s[..27] <= r && EndsWith(r, "...")
  {
    if |s| > 30 then s[..27] + "..." else s
  }

  /** The status mark of the detailed table. */
  function Mark(status: string): (m: string)
    ensures m == "\U{2705}" <==> status == "visible"
    ensures m == "\U{274C}" <==> status != "visible"
  {
    if status == "visible" then "\U{2705}" else "\U{274C}"
  }

  /** With the classification as written a row is marked before publication
      exactly when the model's first answer mentions VISIBLE at all. */
  lemma MarkOfParsed(response: string)
    ensures Mark(Value(ParseResponse(response))) == "\U{2705}" <==> Contains(Upper(response), "VISIBLE")
  {
  }
}
