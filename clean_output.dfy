/** The clean text listing of the experiment's results: a four-line header,
    then five lines per results row. The file is its list of lines, each of
    which the source writes followed by a newline. */
module CleanOutput {
  import opened EchoMinimal

  const Header: seq<string> := ["Output: DOI", "Title", "Before Visible", "After Visible"]

  /** The five lines written for one row: DOI, title, the two marks and an
      empty separator line. */
  function RowLines(row: ResultRow): (ls: seq<string>)
    ensures |ls| == 5 && ls[4] == []
  {
    [row.doi, row.title, Mark(row.preStatus), Mark(row.postStatus), ""]
  }

  /** Everything after the header, for the rows in order. */
  function Body(rows: seq<ResultRow>): (ls: seq<string>)
    ensures |ls| == 5 * |rows|
  {
    if rows == [] then [] else Body(rows[..|rows| - 1]) + RowLines(rows[|rows| - 1])
  }

  /** `generate_clean_output`: the header, then each row's lines in order. */
  method GenerateCleanOutput(rows: seq<ResultRow>) returns (lines: seq<string>)
    ensures lines == Header + Body(rows)
  {
    lines := ["Output: DOI"];
    lines := lines + ["Title"];
    lines := lines + ["Before Visible"];
    lines := lines + ["After Visible"];
    for i := 0 to |rows|
      invariant lines == Header + Body(rows[..i])
    {
      assert rows[..i + 1][..i] == rows[..i];
      var row := rows[i];
      lines := lines + [row.doi];
      lines := lines + [row.title];
      var before := if row.preStatus == "visible" then "\U{2705}" else "\U{274C}";
      var after := if row.postStatus == "visible" then "\U{2705}" else "\U{274C}";
      lines := lines + [before];
      lines := lines + [after];
      lines := lines + [""];
    }
    assert rows[..|rows|] == rows;
  }

  /** Row `i` occupies lines `5i .. 5i + 4` of the body: its DOI, its title,
      a check mark exactly when each status is "visible", and an empty line. */
  lemma {:induction false} BodyAt(rows: seq<ResultRow>, i: int)
    requires 0 <= i < |rows|
    ensures Body(rows)[5 * i .. 5 * i + 5] == RowLines(rows[i])
    ensures Body(rows)[5 * i] == rows[i].doi && Body(rows)[5 * i + 1] == rows[i].title
    ensures Body(rows)[5 * i + 2] == "\U{2705}" <==> rows[i].preStatus == "visible"
    ensures Body(rows)[5 * i + 3] == "\U{2705}" <==> rows[i].postStatus == "visible"
    ensures Body(rows)[5 * i + 4] == ""
  {
    var init := rows[..|rows| - 1];
    if i < |rows| - 1 {
      BodyAt(init, i);
      assert Body(rows)[..5 * |init|] == Body(init);
    }
  }

  /** The file has 4 + 5 * rows lines and opens with the header. */
  lemma OutputShape(rows: seq<ResultRow>)
    ensures |Header + Body(rows)| == 4 + 5 * |rows|
    ensures (Header + Body(rows))[..4] == Header
  {
  }

  /** Reading the file back: the DOIs sit at lines 4, 9, 14, ..., in the
      order of the rows. */
  function DoisOf(lines: seq<string>, n: nat): (dois: seq<string>)
    requires |lines| >= 4 + 5 * n
    ensures |dois| == n
  {
    if n == 0 then [] else DoisOf(lines, n - 1) + [lines[4 + 5 * (n - 1)]]
  }

  /** The DOIs read back from the listing are the rows' DOIs, in order. */
  lemma {:induction false} DoisRoundTrip(rows: seq<ResultRow>, n: nat)
    requires n <= |rows|
    ensures DoisOf(Header + Body(rows), n) == seq(n, i requires 0 <= i < n => rows[i].doi)
  {
    if n > 0 {
      DoisRoundTrip(rows, n - 1);
      BodyAt(rows, n - 1);
    }
  }
}
