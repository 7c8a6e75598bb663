/** The six rule-based converters between markdown, HTML and JSON-LD. They
    apply fixed substitution rules, not a markdown or HTML parser. */
module Converters {
  import opened Wrappers
  import opened Text
  import opened Lines
  import opened Patterns
  import opened Json

  const HtmlOpen := "<!DOCTYPE html><html><body><p>"
  const HtmlClose := "</p></body></html>"

  // ------------------------------------------------------ markdown -> html

  /** The three heading rules, `#`, `##` and `###` in that order. */
  function MarkdownHeadings(s: string): string
  {
    HeadingPass(HeadingPass(HeadingPass(s, "# ", "h1"), "## ", "h2"), "### ", "h3")
  }

  /** The bold rule, then the italic rule. */
  function MarkdownEmphasis(s: string): string
  {
    SubLazy(SubLazy(s, "**", "**", "<strong>", "</strong>"), "*", "*", "<em>", "</em>")
  }

  /** The fixed page around the converted body. */
  function Wrap(body: string): (r: string)
    ensures HtmlOpen <= r && EndsWith(r, HtmlClose)
    ensures Contains(r, "<html>") && Contains(r, "</html>")
    ensures !Contains(body, "\n\n") ==> !Contains(r, "\n\n")
  {
    var r := HtmlOpen + body + HtmlClose;
    assert OccursAt(r, "<html>", 15) by {
      assert r[15..21] == "<html>";
    }
    assert OccursAt(r, "</html>", |r| - 7) by {
      assert r[|r| - 7..] == "</html>";
    }
    if !Contains(body, "\n\n") then
      WrapAvoidsBlankLine(body);
      r
    else r
  }

  lemma WrapAvoidsBlankLine(body: string)
    requires !Contains(body, "\n\n")
    ensures !Contains(HtmlOpen + body + HtmlClose, "\n\n")
  {
    NotContainsByChar(HtmlOpen, "\n\n", '\n');
    NotContainsByChar(HtmlClose, "\n\n", '\n');
    ConcatAvoidsPair(HtmlOpen, body, '\n');
    ConcatAvoidsPair(HtmlOpen + body, HtmlClose, '\n');
  }

  /** markdown to HTML: heading and emphasis rules, every blank-line pair
      becomes a paragraph break, and the result is wrapped in a fixed page. The
      page always has `<html>` and `</html>` and no two line feeds in a row. */
  function MarkdownToHtml(s: string): (r: string)
    ensures HtmlOpen <= r && EndsWith(r, HtmlClose)
    ensures Contains(r, "<html>") && Contains(r, "</html>")
    ensures !Contains(r, "\n\n")
  {
    var emphasised := MarkdownEmphasis(MarkdownHeadings(s));
    ReplacePairGone(emphasised, '\n', "</p><p>");
    Wrap(Replace(emphasised, "\n\n", "</p><p>"))
  }

  /** A first line `# title` (title not empty) puts an `<h1>` element at the
      start of the page. */
  lemma MarkdownHeadingOpensPage(s: string)
    requires IsHeadingLine(SplitLines(s)[0])
    ensures HtmlOpen + "<h1>" <= MarkdownToHtml(s)
  {
    var ls := SplitLines(s);
    var out := seq(|ls|, i requires 0 <= i < |ls| => HeadingLine(ls[i], "# ", "h1"));
    var p1 := HeadingPass(s, "# ", "h1");
    assert "<h1>" <= out[0];
    JoinStartsWithFirst(out);
    assert "<h1>" <= p1;
    HeadingPassKeepsPrefix(p1, "<h1>", "## ", "h2");
    var p2 := HeadingPass(p1, "## ", "h2");
    HeadingPassKeepsPrefix(p2, "<h1>", "### ", "h3");
    var p3 := MarkdownHeadings(s);
    assert "<h1>" <= p3;
    assert p3 == "<h1>" + p3[4..];
    SubLazySkipsPrefix("<h1>", p3[4..], "**", "**", "<strong>", "</strong>");
    var p4 := SubLazy(p3, "**", "**", "<strong>", "</strong>");
    assert p4 == "<h1>" + p4[4..];
    SubLazySkipsPrefix("<h1>", p4[4..], "*", "*", "<em>", "</em>");
    var p5 := MarkdownEmphasis(p3);
    assert p5 == "<h1>" + p5[4..];
    ReplaceSkipsPrefix("<h1>", p5[4..], "\n\n", "</p><p>");
  }

  /** The title rule of the markdown converter: a line of the form `# title`
      with a non-empty title. */
  predicate IsHeadingLine(line: string)
  {
    |line| > 2 && "# " <= line
  }

  // ---------------------------------------------------- titles and articles

  /** The title of the first line of the form `# title`, if any. */
  function FirstHeadingIn(ls: seq<string>): (r: Option<string>)
    ensures r.Some? <==> exists i :: 0 <= i < |ls| && IsHeadingLine(ls[i])
    ensures r.Some? ==>
      (exists i :: 0 <= i < |ls| && IsHeadingLine(ls[i]) && r.value == ls[i][2..] && (forall j :: 0 <= j < i ==> !IsHeadingLine(ls[j])))
  {
    if ls == [] then None
    else if IsHeadingLine(ls[0]) then Some(ls[0][2..])
    else
      var r := FirstHeadingIn(ls[1..]);
      assert forall i :: 1 <= i < |ls| ==> ls[i] == ls[1..][i - 1];
      r
  }

  /** `re.search(r'^# (.+)$', s, re.MULTILINE).group(1)`, or None. */
  function FirstHeading(s: string): (r: Option<string>)
    ensures r.Some? ==> |r.value| >= 1 && '\n' !in r.value
  {
    var ls := SplitLines(s);
    var r := FirstHeadingIn(ls);
    if r.Some? then
      assert exists i :: 0 <= i < |ls| && |ls[i]| > 2 && r.value == ls[i][2..] && '\n' !in ls[i];
      r
    else r
  }

  /** `re.search(r'<h1>(.+?)</h1>', s).group(1)`, or None. */
  function FirstH1(s: string): (r: Option<string>)
    ensures r.Some? ==> |r.value| >= 1 && '\n' !in r.value && Contains(s, "<h1>" + r.value + "</h1>")
  {
    SearchLazy(s, "<h1>", "</h1>")
  }

  /** The JSON-LD object both converters build around a title and a text. */
  function Article(headline: string, text: string): (j: Json)
    ensures j.JObj?
    ensures "headline" in j.fields && j.fields["headline"] == JStr(headline)
    ensures "text" in j.fields && j.fields["text"] == JStr(text)
  {
    JObj(map[
      "@context" := JStr("https://schema.org"),
      "@type" := JStr("Article"),
      "headline" := JStr(headline),
      "text" := JStr(text),
      "author" := JObj(map["@type" := JStr("Organization"), "name" := JStr("Echo Pipeline")]),
      "datePublished" := JStr("2025-01-01T00:00:00Z")])
  }

  /** markdown to JSON-LD: the first `# ` heading, else "Generated Content", as
      the headline, and the whole markdown as the text. */
  function MarkdownToJsonLd(codec: Codec, s: string): (r: string)
    ensures ArticlesRoundTrip(codec) ==>
      LoadObject(codec, r) == Some(Article(FirstHeading(s).GetOr("Generated Content"), s).fields)
  {
    var article := Article(FirstHeading(s).GetOr("Generated Content"), s);
    assert ArticlesRoundTrip(codec) ==> codec.loads(codec.dumps(article)) == Some(article);
    codec.dumps(article)
  }

  /** HTML to JSON-LD: the first `<h1>` element's text, else "Generated
      Content", as the headline, and the whole page as the text. */
  function HtmlToJsonLd(codec: Codec, s: string): (r: string)
    ensures ArticlesRoundTrip(codec) ==>
      LoadObject(codec, r) == Some(Article(FirstH1(s).GetOr("Generated Content"), s).fields)
  {
    var article := Article(FirstH1(s).GetOr("Generated Content"), s);
    assert ArticlesRoundTrip(codec) ==> codec.loads(codec.dumps(article)) == Some(article);
    codec.dumps(article)
  }

  // --------------------------------------------------------- JSON-LD -> *

  /** The parsed input, when it parses to an object; `data.get` on any other
      value raises, which the converters catch like a parse error. */
  function LoadObject(codec: Codec, s: string): Option<map<string, Json>>
  {
    match codec.loads(s)
    case Some(JObj(fields)) => Some(fields)
    case _ => None
  }

  function Headline(codec: Codec, fields: map<string, Json>): string
  {
    Display(codec, GetField(fields, "headline", JStr("Generated Content")))
  }

  function BodyText(codec: Codec, fields: map<string, Json>): string
  {
    Display(codec, GetField(fields, "text", JStr("")))
  }

  /** JSON-LD to markdown: a `# ` heading with the headline, a blank line and
      the text; input that is not a JSON object comes back unchanged. */
  function JsonLdToMarkdown(codec: Codec, s: string): (r: string)
    ensures LoadObject(codec, s).None? ==> r == s
    ensures LoadObject(codec, s).Some? ==>
      r == "# " + Headline(codec, LoadObject(codec, s).value) + "\n\n" + BodyText(codec, LoadObject(codec, s).value)
  {
    match LoadObject(codec, s)
    case None => s
    case Some(fields) => "# " + Headline(codec, fields) + "\n\n" + BodyText(codec, fields)
  }

  /** The page JSON-LD to HTML writes for a title and a text. */
  function Page(title: string, text: string): string
  {
    "<!DOCTYPE html>\n<html>\n<head><title>" + title + "</title></head>\n<body>\n<h1>" + title +
    "</h1>\n<p>" + text + "</p>\n</body>\n</html>"
  }

  /** JSON-LD to HTML: a fixed page with the headline as title and heading and
      the text as its paragraph; input that is not a JSON object comes back
      unchanged. */
  function JsonLdToHtml(codec: Codec, s: string): (r: string)
    ensures LoadObject(codec, s).None? ==> r == s
    ensures LoadObject(codec, s).Some? ==>
      r == Page(Headline(codec, LoadObject(codec, s).value), BodyText(codec, LoadObject(codec, s).value))
  {
    match LoadObject(codec, s)
    case None => s
    case Some(fields) => Page(Headline(codec, fields), BodyText(codec, fields))
  }

  // ------------------------------------------------------ html -> markdown

  /** The element rules of the HTML converter, in order. */
  function HtmlElements(s: string): string
  {
    var m1 := SubLazy(s, "<h1>", "</h1>", "# ", "");
    var m2 := SubLazy(m1, "<h2>", "</h2>", "## ", "");
    var m3 := SubLazy(m2, "<h3>", "</h3>", "### ", "");
    var m4 := SubLazy(m3, "<strong>", "</strong>", "**", "**");
    var m5 := SubLazy(m4, "<em>", "</em>", "*", "*");
    SubLazy(m5, "<p>", "</p>", "", "\n\n")
  }

  /** HTML to markdown: the element rules in order, every remaining tag
      removed, surrounding whitespace stripped. The result has no tag left and
      neither starts nor ends with whitespace. */
  function HtmlToMarkdown(s: string): (r: string)
    ensures TagFree(r)
    ensures r == [] || (!IsSpace(r[0]) && !IsSpace(r[|r| - 1]))
  {
    var untagged := RemoveTags(HtmlElements(s));
    StripKeepsTagFree(untagged);
    Strip(untagged)
  }

  /** Stripping whitespace from a tag-free text leaves it tag-free. */
  lemma StripKeepsTagFree(s: string)
    requires TagFree(s)
    ensures TagFree(Strip(s))
  {
    var l := StripLeft(s);
    SuffixKeepsTagFree(s, |s| - |l|);
    StripRightKeepsTagFree(l);
  }

  lemma SuffixKeepsTagFree(s: string, k: nat)
    requires TagFree(s) && k <= |s|
    ensures TagFree(s[k..])
  {
    var l := s[k..];
    forall i | 0 <= i < |l| && l[i] == '<'
      ensures (i + 1 < |l| && l[i + 1] == '>') || '>' !in l[i + 1..]
    {
      assert l[i] == s[k + i];
      assert l[i + 1..] == s[k + i + 1..];
    }
  }

  lemma StripRightKeepsTagFree(l: string)
    requires TagFree(l)
    ensures TagFree(StripRight(l))
  {
    var r := StripRight(l);
    forall i | 0 <= i < |r| && r[i] == '<'
      ensures (i + 1 < |r| && r[i + 1] == '>') || '>' !in r[i + 1..]
    {
      assert l[i] == '<';
      if i + 1 < |l| && l[i + 1] == '>' {
        assert !IsSpace(l[i + 1]);
      } else {
        assert '>' !in l[i + 1..];
        PrefixLacks(r[i + 1..], l[i + 1..], '>');
      }
    }
  }

  lemma PrefixLacks(p: string, q: string, c: char)
    requires p <= q && c !in q
    ensures c !in p
  {
    forall j | 0 <= j < |p| ensures p[j] != c {
      assert p[j] == q[j];
    }
  }
  // ---------------------------------------------------------- round trips

  /** Parsing a serialised article gives the article back. Only the objects
      the converters build are asked to survive the round trip. */
  ghost predicate ArticlesRoundTrip(codec: Codec)
  {
    forall h, t :: codec.loads(codec.dumps(Article(h, t))) == Some(Article(h, t))
  }

  /** markdown to JSON-LD and back puts the title line (the first heading, or
      "Generated Content") and a blank line in front of the original markdown. */
  lemma MarkdownJsonLdRoundTrip(codec: Codec, md: string)
    requires ArticlesRoundTrip(codec)
    ensures JsonLdToMarkdown(codec, MarkdownToJsonLd(codec, md))
         == "# " + FirstHeading(md).GetOr("Generated Content") + "\n\n" + md
  {
    var article := Article(FirstHeading(md).GetOr("Generated Content"), md);
    assert codec.loads(codec.dumps(article)) == Some(article);
  }

  /** ... so the round trip keeps the document's title. */
  lemma MarkdownJsonLdRoundTripKeepsTitle(codec: Codec, md: string)
    requires ArticlesRoundTrip(codec)
    ensures FirstHeading(JsonLdToMarkdown(codec, MarkdownToJsonLd(codec, md)))
         == Some(FirstHeading(md).GetOr("Generated Content"))
  {
    MarkdownJsonLdRoundTrip(codec, md);
    TitleLineFirst(FirstHeading(md).GetOr("Generated Content"), md);
  }

  /** A text that starts with the line `# h` has title h. */
  lemma TitleLineFirst(h: string, rest: string)
    requires |h| >= 1 && '\n' !in h
    ensures FirstHeading("# " + h + "\n\n" + rest) == Some(h)
  {
    var line := "# " + h;
    assert '\n' !in line;
    SplitAfterLine(line, "\n" + rest);
    assert "# " + h + "\n\n" + rest == line + "\n" + ("\n" + rest);
    var ls := SplitLines(line + "\n" + ("\n" + rest));
    assert ls[0] == line;
    assert IsHeadingLine(line);
    assert line[2..] == h;
    assert FirstHeadingIn(ls) == Some(h);
  }

  /** HTML to JSON-LD and back gives the fixed page around the first `<h1>`
      text (or "Generated Content") and the whole original page. */
  lemma HtmlJsonLdRoundTrip(codec: Codec, html: string)
    requires ArticlesRoundTrip(codec)
    ensures JsonLdToHtml(codec, HtmlToJsonLd(codec, html))
         == Page(FirstH1(html).GetOr("Generated Content"), html)
  {
    var article := Article(FirstH1(html).GetOr("Generated Content"), html);
    assert codec.loads(codec.dumps(article)) == Some(article);
  }

  /** A text form for articles: every headline character followed by '.',
      then "!!", then the text. */
  function EscapeHeadline(h: string): (e: string)
    ensures |e| == 2 * |h|
  {
    if h == [] then [] else [h[0], '.'] + EscapeHeadline(h[1..])
  }

  /** Reads back an escaped headline: the headline and what follows "!!". */
  function UnescapeHeadline(s: string): (string, string)
    decreases |s|
  {
    if |s| >= 2 && s[1] == '.' then
      var (h, rest) := UnescapeHeadline(s[2..]);
      ([s[0]] + h, rest)
    else if |s| >= 2 then ([], s[2..])
    else ([], [])
  }

  lemma {:induction false} UnescapeEscaped(h: string, t: string)
    ensures UnescapeHeadline(EscapeHeadline(h) + "!!" + t) == (h, t)
    decreases |h|
  {
    var s := EscapeHeadline(h) + "!!" + t;
    if h == [] {
      assert s == "!!" + t;
      assert s[2..] == t;
    } else {
      UnescapeEscaped(h[1..], t);
      assert s == [h[0], '.'] + (EscapeHeadline(h[1..]) + "!!" + t);
      assert s[2..] == EscapeHeadline(h[1..]) + "!!" + t;
      assert [h[0]] + h[1..] == h;
    }
  }

  /** Serialises an article in the escaped form; anything else is "". */
  function DumpArticle(j: Json): string
  {
    if j.JObj? && "headline" in j.fields && j.fields["headline"].JStr?
       && "text" in j.fields && j.fields["text"].JStr?
    then EscapeHeadline(j.fields["headline"].s) + "!!" + j.fields["text"].s
    else ""
  }

  /** Reads any text as an article. */
  function LoadArticle(s: string): Option<Json>
  {
    var (h, t) := UnescapeHeadline(s);
    Some(Article(h, t))
  }

  /** A codec under which every article survives the round trip. */
  function ArticleCodec(): Codec
  {
    Codec(LoadArticle, DumpArticle, DumpArticle)
  }

  /** The round-trip hypothesis above can be met. */
  lemma ArticlesRoundTripSatisfiable()
    ensures ArticlesRoundTrip(ArticleCodec())
  {
    forall h, t ensures ArticleCodec().loads(ArticleCodec().dumps(Article(h, t))) == Some(Article(h, t)) {
      var a := Article(h, t);
      assert DumpArticle(a) == EscapeHeadline(h) + "!!" + t;
      UnescapeEscaped(h, t);
    }
  }

  /** An object with a string headline and no text becomes a bare heading
      followed by a blank line. */
  lemma JsonLdHeadlineOnly(codec: Codec, s: string, fields: map<string, Json>, h: string)
    requires codec.loads(s) == Some(JObj(fields))
    requires "headline" in fields && fields["headline"] == JStr(h) && "text" !in fields
    ensures JsonLdToMarkdown(codec, s) == "# " + h + "\n\n"
  {
  }

  // ------------------------------------------------------ concrete inputs

  /** The heading rules leave lines that do not start with their marker alone. */
  lemma {:induction false} HeadingPassUnchanged(ls: seq<string>, marker: string, tag: string)
    requires |ls| >= 1 && |marker| > 0
    requires forall i :: 0 <= i < |ls| ==> '\n' !in ls[i] && !(marker <= ls[i])
    ensures HeadingPass(JoinLines(ls), marker, tag) == JoinLines(ls)
  {
    SplitJoin(ls);
    var out := seq(|ls|, i requires 0 <= i < |ls| => HeadingLine(ls[i], marker, tag));
    assert out == ls;
  }

  /** The text is its own `str.replace` result when it lacks the pattern's
      first character. */
  lemma ReplaceNothing(b: string, pat: string, rep: string)
    requires |pat| > 0 && pat[0] !in b
    ensures Replace(b, pat, rep) == b
  {
    ReplaceSkipsPrefix(b, [], pat, rep);
    assert b + [] == b;
  }

  lemma SubLazyNothing(b: string, open: string, close: string, before: string, after: string)
    requires |open| > 0 && open[0] !in b
    ensures SubLazy(b, open, close, before, after) == b
  {
    SubLazySkipsPrefix(b, [], open, close, before, after);
    assert b + [] == b;
  }

  /** A title line, a blank line and a line with one bold word become an
      `<h1>` element, a paragraph break and a `<strong>` element. */
  lemma MarkdownTitleAndBold(title: string, before: string, word: string, after: string)
    requires |title| >= 1 && '\n' !in title && '*' !in title
    requires |word| >= 1 && '\n' !in before + word + after && '*' !in before + word + after
    requires before == [] || before[0] != '#'
    ensures MarkdownToHtml("# " + title + "\n\n" + before + "**" + word + "**" + after)
         == Wrap("<h1>" + title + "</h1>" + "</p><p>" + before + "<strong>" + word + "</strong>" + after)
  {
    var line3 := before + "**" + word + "**" + after;
    var tail := before + "<strong>" + word + "</strong>" + after;
    var h1 := "<h1>" + title + "</h1>";
    var src := "# " + title + "\n\n" + line3;
    Regroup5("# " + title + "\n\n", before, "**", word, "**", after);
    TitleDocHeadings(title, line3);
    TitleDocBody(h1, line3, tail, before, word, after);
    Regroup5("<h1>" + title + "</h1>" + "</p><p>", before, "<strong>", word, "</strong>", after);
    MarkdownToHtmlSteps(src);
  }

  /** `a + b + c + d + e + f` is `a` followed by the rest. */
  lemma Regroup5(a: string, b: string, c: string, d: string, e: string, f: string)
    ensures a + b + c + d + e + f == a + (b + c + d + e + f)
  {
  }

  lemma MarkdownToHtmlSteps(s: string)
    ensures MarkdownToHtml(s) == Wrap(Replace(MarkdownEmphasis(MarkdownHeadings(s)), "\n\n", "</p><p>"))
  {
  }

  lemma TitleDocBody(h1: string, line3: string, tail: string, before: string, word: string, after: string)
    requires '*' !in h1 && '\n' !in h1
    requires |word| >= 1 && '\n' !in before + word + after && '*' !in before + word + after
    requires line3 == before + "**" + word + "**" + after
    requires tail == before + "<strong>" + word + "</strong>" + after
    ensures Replace(MarkdownEmphasis(h1 + "\n\n" + line3), "\n\n", "</p><p>") == h1 + "</p><p>" + tail
  {
    Regroup5(h1 + "\n\n", before, "**", word, "**", after);
    TitleDocEmphasis(h1 + "\n\n", before, word, after);
    Regroup5(h1 + "\n\n", before, "<strong>", word, "</strong>", after);
    assert '\n' !in tail;
    TitleDocBreak(h1, tail);
  }

  lemma TitleDocHeadings(title: string, line3: string)
    requires |title| >= 1 && '\n' !in title && '\n' !in line3
    requires line3 == [] || line3[0] != '#'
    ensures MarkdownHeadings("# " + title + "\n\n" + line3) == "<h1>" + title + "</h1>" + "\n\n" + line3
  {
    var h1 := "<h1>" + title + "</h1>";
    var ls1 := [h1, "", line3];
    TitleDocFirstHeading(title, line3);
    JoinThree(h1, "", line3);
    assert h1 + "\n" + "" + "\n" + line3 == h1 + "\n\n" + line3;
    assert h1[0] == '<' && '\n' !in h1;
    assert forall i :: 0 <= i < 3 ==> ls1[i] == [] || ls1[i][0] != '#';
    HeadingPassUnchanged(ls1, "## ", "h2");
    HeadingPassUnchanged(ls1, "### ", "h3");
  }

  lemma TitleDocFirstHeading(title: string, line3: string)
    requires |title| >= 1 && '\n' !in title && '\n' !in line3
    requires line3 == [] || line3[0] != '#'
    ensures HeadingPass("# " + title + "\n\n" + line3, "# ", "h1") == "<h1>" + title + "</h1>" + "\n\n" + line3
  {
    var line1 := "# " + title;
    var h1 := "<h1>" + title + "</h1>";
    var ls := [line1, "", line3];
    JoinThree(line1, "", line3);
    assert line1 + "\n" + "" + "\n" + line3 == "# " + title + "\n\n" + line3;
    HeadingPassOfLines(ls, "# ", "h1");
    TitleDocLines(title, line3);
    JoinThree(h1, "", line3);
    assert h1 + "\n" + "" + "\n" + line3 == h1 + "\n\n" + line3;
  }

  lemma TitleDocLines(title: string, line3: string)
    requires |title| >= 1 && (line3 == [] || line3[0] != '#')
    ensures var ls := ["# " + title, "", line3];
      seq(|ls|, i requires 0 <= i < |ls| => HeadingLine(ls[i], "# ", "h1")) == ["<h1>" + title + "</h1>", "", line3]
  {
    var ls := ["# " + title, "", line3];
    var out := seq(|ls|, i requires 0 <= i < |ls| => HeadingLine(ls[i], "# ", "h1"));
    assert ls[0][2..] == title;
    assert out[0] == "<h1>" + title + "</h1>";
    assert out[1] == "";
    assert !("# " <= line3) && out[2] == line3;
  }

  lemma TitleDocEmphasis(head: string, before: string, word: string, after: string)
    requires '*' !in head && |word| >= 1 && '\n' !in word && '*' !in before + word + after
    ensures MarkdownEmphasis(head + before + "**" + word + "**" + after)
         == head + before + "<strong>" + word + "</strong>" + after
  {
    var a := head + before;
    assert head + before + "**" + word + "**" + after == a + "**" + word + "**" + after;
    SubLazyMatch(a, word, after, "**", "**", "<strong>", "</strong>");
    SubLazyNothing(after, "**", "**", "<strong>", "</strong>");
    var p2 := head + before + "<strong>" + word + "</strong>" + after;
    assert a + "<strong>" + word + "</strong>" + after == p2;
    SubLazyNothing(p2, "*", "*", "<em>", "</em>");
  }

  lemma TitleDocBreak(h1: string, tail: string)
    requires '\n' !in h1 && '\n' !in tail
    ensures Replace(h1 + "\n\n" + tail, "\n\n", "</p><p>") == h1 + "</p><p>" + tail
  {
    assert h1 + "\n\n" + tail == h1 + ("\n\n" + tail);
    ReplaceSkipsPrefix(h1, "\n\n" + tail, "\n\n", "</p><p>");
    assert ("\n\n" + tail)[2..] == tail;
    ReplaceNothing(tail, "\n\n", "</p><p>");
  }

  /** The markdown-to-HTML example gives a page with `<h1>` and `<strong>`. */
  lemma MarkdownToHtmlExample(title: string, before: string, word: string, after: string)
    requires title == "Test Title" && before == "This is " && word == "bold" && after == " text."
    ensures var html := MarkdownToHtml("# " + title + "\n\n" + before + "**" + word + "**" + after);
      Contains(html, "<h1>") && Contains(html, "<strong>")
  {
    MarkdownTitleAndBold(title, before, word, after);
    TitleAndBoldPage(title, before, word, after);
  }

  /** The page made of a title element and a line with a bold word has both
      elements. */
  lemma TitleAndBoldPage(title: string, before: string, word: string, after: string)
    ensures var html := Wrap("<h1>" + title + "</h1>" + "</p><p>" + before + "<strong>" + word + "</strong>" + after);
      Contains(html, "<h1>") && Contains(html, "<strong>")
  {
    var pre := "<h1>" + title + "</h1>" + "</p><p>" + before;
    var post := word + "</strong>" + after;
    var rest := title + "</h1>" + "</p><p>" + before + "<strong>" + post;
    var body := "<h1>" + title + "</h1>" + "</p><p>" + before + "<strong>" + word + "</strong>" + after;
    assert body == pre + ("<strong>" + post);
    assert body == [] + ("<h1>" + rest);
    PageHasElement(pre, "<strong>", post);
    PageHasElement([], "<h1>", rest);
  }

  /** An element tag in the converted body is in the page. */
  lemma PageHasElement(pre: string, tag: string, post: string)
    ensures Contains(Wrap(pre + (tag + post)), tag)
  {
    assert OccursAt(tag + post, tag, 0);
    OccursAfter(pre, tag + post, tag, 0);
    OccursAfter(HtmlOpen, pre + (tag + post), tag, |pre|);
    OccursBefore(HtmlOpen + (pre + (tag + post)), HtmlClose, tag, |HtmlOpen| + |pre|);
    assert HtmlOpen + (pre + (tag + post)) + HtmlClose == Wrap(pre + (tag + post));
    ContainsWitness(Wrap(pre + (tag + post)), tag, |HtmlOpen| + |pre|);
  }

  /** HTML to markdown keeps a leading `<h1>` element's text as a `# ` heading
      at the start of the result. */
  lemma HtmlHeadingLeads(w: string, b: string)
    requires |w| >= 1 && '\n' !in w && '<' !in w && !IsSpace(w[|w| - 1])
    ensures "# " + w <= HtmlToMarkdown("<h1>" + w + "</h1>" + b)
  {
    HtmlElementsLead(w, b);
    LeadSurvivesCleanup("# " + w, HtmlElements("<h1>" + w + "</h1>" + b));
  }

  lemma LeadSurvivesCleanup(p: string, m: string)
    requires p <= m && '<' !in p && |p| >= 1 && !IsSpace(p[0]) && !IsSpace(p[|p| - 1])
    ensures p <= Strip(RemoveTags(m))
  {
    RemoveTagsSkipsPrefix(p, m[|p|..]);
    assert m == p + m[|p|..];
    StripKeepsPrefix(p, RemoveTags(m[|p|..]));
  }

  lemma HtmlElementsLead(w: string, b: string)
    requires |w| >= 1 && '\n' !in w && '<' !in w
    ensures "# " + w <= HtmlElements("<h1>" + w + "</h1>" + b)
  {
    var p := "# " + w;
    SubLazyMatch([], w, b, "<h1>", "</h1>", "# ", "");
    assert [] + "<h1>" + w + "</h1>" + b == "<h1>" + w + "</h1>" + b;
    var m1 := SubLazy("<h1>" + w + "</h1>" + b, "<h1>", "</h1>", "# ", "");
    assert p <= m1;
    SubLazyKeepsPrefix(m1, p, "<h2>", "</h2>", "## ", "");
    var m2 := SubLazy(m1, "<h2>", "</h2>", "## ", "");
    SubLazyKeepsPrefix(m2, p, "<h3>", "</h3>", "### ", "");
    var m3 := SubLazy(m2, "<h3>", "</h3>", "### ", "");
    SubLazyKeepsPrefix(m3, p, "<strong>", "</strong>", "**", "**");
    var m4 := SubLazy(m3, "<strong>", "</strong>", "**", "**");
    SubLazyKeepsPrefix(m4, p, "<em>", "</em>", "*", "*");
    var m5 := SubLazy(m4, "<em>", "</em>", "*", "*");
    SubLazyKeepsPrefix(m5, p, "<p>", "</p>", "", "\n\n");
  }

  lemma SubLazyKeepsPrefix(m: string, p: string, open: string, close: string, before: string, after: string)
    requires p <= m && |open| > 0 && open[0] !in p
    ensures p <= SubLazy(m, open, close, before, after)
  {
    SubLazySkipsPrefix(p, m[|p|..], open, close, before, after);
    assert m == p + m[|p|..];
  }

  /** Stripping keeps a prefix that neither starts nor ends with whitespace. */
  lemma StripKeepsPrefix(p: string, rest: string)
    requires |p| >= 1 && !IsSpace(p[0]) && !IsSpace(p[|p| - 1])
    ensures p <= Strip(p + rest)
  {
    var u := p + rest;
    assert StripLeft(u) == u;
    var r := StripRight(u);
    assert !IsSpace(u[|p| - 1]);
    assert |r| >= |p|;
    assert r[..|p|] == u[..|p|] == p;
  }

  /** The HTML-to-markdown example starts with its title as a heading. */
  lemma HtmlToMarkdownExample(title: string, rest: string)
    requires title == "Test Title" && rest == "<p>This is <strong>bold</strong> text.</p>"
    ensures "# " + title <= HtmlToMarkdown("<h1>" + title + "</h1>" + rest)
  {
    HtmlHeadingLeads(title, rest);
  }
}
