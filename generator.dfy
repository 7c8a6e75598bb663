/** The content generator: fills a fixed template for the requested format with
    the topic and cuts the result to the target length of the requested size. */
module Generator {
  import opened Wrappers
  import opened Text
  import opened Json

  /** The generator's part of the pipeline configuration, each value optional. */
  datatype Settings = Settings(model: Option<string>, maxTokens: Option<int>, temperature: Option<real>)

  /** The request: `topic`, `format` and `length`, each of which may be absent. */
  datatype Request = Request(topic: Option<string>, format: Option<string>, length: Option<string>)

  datatype Metadata = Metadata(
    topic: string, format: string, length: string,
    model: string, maxTokens: int, temperature: real)

  datatype Generated = Generated(content: string, metadata: Metadata)

  /** Number of characters kept for a length name; unknown names get the medium size. */
  function TargetLength(length: string): (n: nat)
    ensures n == 100 || n == 300 || n == 600
    ensures n == 100 <==> length == "short"
    ensures n == 600 <==> length == "long"
  {
    if length == "short" then 100
    else if length == "long" then 600
    else 300
  }

  /** Markdown template: a level-one heading with the topic, an opening
      paragraph naming the topic, then fixed sections; at least as long as
      the longest target length. */
  function MarkdownTemplate(topic: string): (t: string)
    ensures "# " + topic + "\n\n" <= t
    ensures |t| >= 600
  {
    var head := "# " + topic + "\n\n";
    assert |MarkdownTail| == 564;
    head + "This is generated content about " + topic + MarkdownTail
  }

  /** The fixed text after the second topic, up to the last character a
      600-character cut of the markdown template can keep (564 characters). */
  const MarkdownTail: string :=
    ". The echo pipeline is designed to test and validate content generation workflows.\n" +
    "\n" +
    "## Key Features\n" +
    "\n" +
    "- **Content Generation**: Automated content creation based on input parameters\n" +
    "- **Format Transformation**: Convert between markdown, HTML, and JSON-LD formats\n" +
    "- **Quality Validation**: Ensure content meets quality standards\n" +
    "- **Output Formatting**: Generate properly formatted output files\n" +
    "\n" +
    "## Pipeline Components\n" +
    "\n" +
    "The echo pipeline consists of several key components:\n" +
    "\n" +
    "1. **Content Generator**: Creates initial content based on input parameters\n" +
    "2. **Content Tra"

  /** HTML template: a page whose title and heading are the topic; at least
      as long as the longest target length. */
  function HtmlTemplate(topic: string): (t: string)
    ensures HtmlHead <= t
    ensures |t| >= 600
  {
    assert |HtmlHead| == 153 && |HtmlTail| == 365;
    HtmlHead + topic + "</title>\n</head>\n<body>\n    <h1>" + topic +
    "</h1>\n    <p>This is generated HTML content about " + topic + HtmlTail
  }

  const HtmlHead: string :=
    "<!DOCTYPE html>\n" +
    "<html lang=\"en\">\n" +
    "<head>\n" +
    "    <meta charset=\"UTF-8\">\n" +
    "    <meta name=\"viewport\" content=\"width=device-width, initial-scale=1.0\">\n" +
    "    <title>"

  /** The fixed text after the third topic, up to the last character a
      600-character cut of the HTML template can keep (365 characters). */
  const HtmlTail: string :=
    ". The echo pipeline is designed to test and validate content generation workflows.</p>\n" +
    "    \n" +
    "    <h2>Key Features</h2>\n" +
    "    <ul>\n" +
    "        <li><strong>Content Generation</strong>: Automated content creation based on input parameters</li>\n" +
    "        <li><strong>Format Transformation</strong>: Convert between markdown, HTML, and JSON-LD formats</li>\n" +
    "        <li><strong>Qu"

  /** `f"https://example.com/{topic.lower().replace(' ', '-')}"`. */
  function PageId(topic: string): (r: string)
    ensures "https://example.com/" <= r
    ensures ' ' !in r[|"https://example.com/"|..]
    ensures |r| == 20 + |topic|
    ensures forall i :: 0 <= i < |topic| ==> r[20 + i] == if topic[i] == ' ' then '-' else LowerChar(topic[i])
  {
    var slug := Replace(Lower(topic), " ", "-");
    ReplaceRemovesChar(Lower(topic), ' ', "-");
    ReplaceCharAt(Lower(topic), ' ', '-');
    "https://example.com/" + slug
  }

  /** Replacing one character by another keeps the length and changes exactly
      the positions that held it. */
  lemma {:induction false} ReplaceCharAt(s: string, c: char, d: char)
    ensures |Replace(s, [c], [d])| == |s|
    ensures forall i :: 0 <= i < |s| ==> Replace(s, [c], [d])[i] == if s[i] == c then d else s[i]
    decreases |s|
  {
    if s != [] {
      ReplaceCharAt(s[1..], c, d);
      assert [c] <= s <==> s[0] == c;
      var r := Replace(s, [c], [d]);
      var tail := Replace(s[1..], [c], [d]);
      assert r == [if s[0] == c then d else s[0]] + tail;
      forall i | 0 <= i < |s| ensures r[i] == if s[i] == c then d else s[i] {
        if i > 0 { assert r[i] == tail[i - 1] && s[i] == s[1..][i - 1]; }
      }
    }
  }

  /** Replacing every occurrence of a single character by text without it
      leaves none of it. */
  lemma {:induction false} ReplaceRemovesChar(s: string, c: char, rep: string)
    requires c !in rep
    ensures c !in Replace(s, [c], rep)
    decreases |s|
  {
    if [c] <= s {
      ReplaceRemovesChar(s[1..], c, rep);
    } else if s != [] {
      ReplaceRemovesChar(s[1..], c, rep);
    }
  }

  function Organization(name: string): Json
  {
    JObj(map["@type" := JStr("Organization"), "name" := JStr(name)])
  }

  /** The JSON-LD template: a schema.org Article about the topic. */
  function ArticleTemplate(topic: string): (j: Json)
    ensures j.JObj? && "headline" in j.fields && j.fields["headline"] == JStr(topic)
  {
    JObj(map[
      "@context" := JStr("https://schema.org"),
      "@type" := JStr("Article"),
      "headline" := JStr(topic),
      "description" := JStr("This is generated JSON-LD content about " + topic +
        ". The echo pipeline is designed to test and validate content generation workflows."),
      "author" := Organization("Echo Pipeline"),
      "publisher" := JObj(map[
        "@type" := JStr("Organization"),
        "name" := JStr("Echo Pipeline Testing"),
        "logo" := JObj(map["@type" := JStr("ImageObject"), "url" := JStr("https://example.com/logo.png")])]),
      "datePublished" := JStr("2025-01-01T00:00:00Z"),
      "keywords" := JList([JStr("echo pipeline"), JStr("content generation"), JStr("testing"), JStr("validation")]),
      "inLanguage" := JStr("en-US"),
      "mainEntityOfPage" := JObj(map["@type" := JStr("WebPage"), "@id" := JStr(PageId(topic))])])
  }

  /** The full template the requested format selects; a format other than
      html or jsonld selects the markdown template. */
  function Template(codec: Codec, format: string, topic: string): (t: string)
    ensures format == "jsonld" ==> t == codec.dumps(ArticleTemplate(topic))
    ensures format != "jsonld" ==> |t| >= 600
    ensures format == "html" ==> HtmlHead <= t
    ensures format != "html" && format != "jsonld" ==> "# " + topic + "\n\n" <= t
  {
    if format == "html" then HtmlTemplate(topic)
    else if format == "jsonld" then codec.dumps(ArticleTemplate(topic))
    else MarkdownTemplate(topic)
  }

  /** The generated body: the selected template cut to the target length. */
  function GenerateContent(codec: Codec, topic: string, format: string, length: string): (body: string)
    ensures body <= Template(codec, format, topic)
    ensures |body| <= TargetLength(length)
    ensures format != "jsonld" ==> |body| == TargetLength(length)
    ensures format != "html" && format != "jsonld" ==> "#" <= body
  {
    var t, n := Template(codec, format, topic), TargetLength(length);
    assert format != "jsonld" ==> |t| >= 600 >= n;
    assert format != "html" && format != "jsonld" ==> t[0] == '#';
    Take(t, n)
  }

  /** Any format other than html and jsonld is generated exactly as markdown. */
  lemma UnknownFormatIsMarkdown(codec: Codec, topic: string, format: string, length: string)
    requires format != "html" && format != "jsonld"
    ensures GenerateContent(codec, topic, format, length) == GenerateContent(codec, topic, "markdown", length)
  {
  }

  /** A markdown body keeps its whole first line `# topic` whenever the target
      length leaves room for it. */
  lemma MarkdownBodyKeepsHeading(codec: Codec, topic: string, length: string)
    requires |topic| + 4 <= TargetLength(length)
    ensures "# " + topic + "\n\n" <= GenerateContent(codec, topic, "markdown", length)
  {
    TakeKeepsPrefix("# " + topic + "\n\n", MarkdownTemplate(topic), TargetLength(length));
  }

  lemma TakeKeepsPrefix(head: string, t: string, n: nat)
    requires head <= t && |head| <= n
    ensures head <= Take(t, n)
  {
  }

  /** `generate`: the request's values with their defaults, the generated body,
      and the generator settings with theirs. */
  function Generate(codec: Codec, settings: Settings, request: Request): (g: Generated)
    ensures g.metadata.topic == request.topic.GetOr("Default Topic")
    ensures g.metadata.format == request.format.GetOr("markdown")
    ensures g.metadata.length == request.length.GetOr("medium")
    ensures g.content == GenerateContent(codec, g.metadata.topic, g.metadata.format, g.metadata.length)
    ensures g.metadata.model == settings.model.GetOr("default")
    ensures g.metadata.maxTokens == settings.maxTokens.GetOr(1000)
    ensures g.metadata.temperature == settings.temperature.GetOr(0.7)
  {
    var topic := request.topic.GetOr("Default Topic");
    var format := request.format.GetOr("markdown");
    var length := request.length.GetOr("medium");
    Generated(
      GenerateContent(codec, topic, format, length),
      Metadata(topic, format, length,
        settings.model.GetOr("default"), settings.maxTokens.GetOr(1000), settings.temperature.GetOr(0.7)))
  }

  /** With no request values the generator writes 300 characters of the
      markdown template about "Default Topic". */
  lemma DefaultRequest(codec: Codec, settings: Settings)
    ensures var g := Generate(codec, settings, Request(None, None, None));
      |g.content| == 300 && "# Default Topic\n\n" <= g.content
  {
    var g := Generate(codec, settings, Request(None, None, None));
    assert g.metadata == Metadata("Default Topic", "markdown", "medium", g.metadata.model, g.metadata.maxTokens, g.metadata.temperature);
    MarkdownBodyKeepsHeading(codec, "Default Topic", "medium");
    assert "# " + "Default Topic" + "\n\n" == "# Default Topic\n\n";
  }
}
