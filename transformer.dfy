/** The content transformer: renders the generated content in every supported
    format by dispatching over six fixed conversions. */
module Transformer {
  import opened Wrappers
  import opened Json
  import opened Dicts
  import opened Converters
  import Generator

  /** The six conversions the transformer knows. */
  predicate IsConversion(from: string, to: string)
  {
    (from == "markdown" && (to == "html" || to == "jsonld")) ||
    (from == "html" && (to == "markdown" || to == "jsonld")) ||
    (from == "jsonld" && (to == "markdown" || to == "html"))
  }

  /** `_transform_format`: the matching converter, or the content itself for
      any other pair. */
  function ConvertFormat(codec: Codec, content: string, from: string, to: string): (r: string)
    ensures !IsConversion(from, to) ==> r == content
  {
    if from == "markdown" && to == "html" then MarkdownToHtml(content)
    else if from == "markdown" && to == "jsonld" then MarkdownToJsonLd(codec, content)
    else if from == "html" && to == "markdown" then HtmlToMarkdown(content)
    else if from == "html" && to == "jsonld" then HtmlToJsonLd(codec, content)
    else if from == "jsonld" && to == "markdown" then JsonLdToMarkdown(codec, content)
    else if from == "jsonld" && to == "html" then JsonLdToHtml(codec, content)
    else content
  }

  /** The rendering stored for one target format. */
  function Rendering(codec: Codec, content: string, from: string, to: string): (r: string)
    ensures to == from ==> r == content
  {
    if to == from then content else ConvertFormat(codec, content, from, to)
  }

  /** The content dict after the loop has visited `formats`, in order. */
  function Renderings(codec: Codec, content: string, from: string, formats: seq<string>): (d: Dict<string>)
    ensures Keys(d) == Dedup(formats)
    ensures DistinctKeys(d)
    ensures forall i :: 0 <= i < |d| ==> d[i].1 == Rendering(codec, content, from, d[i].0)
  {
    if formats == [] then []
    else
      var last := formats[|formats| - 1];
      var d := Renderings(codec, content, from, formats[..|formats| - 1]);
      Put(d, last, Rendering(codec, content, from, last))
  }

  datatype Transformed = Transformed(content: Dict<string>, metadata: Generator.Metadata, transformations: seq<string>)

  /** `transform`: one rendering per supported format, the metadata passed
      through, and the list of rendered formats. */
  method Transform(codec: Codec, formats: seq<string>, data: Generator.Generated) returns (t: Transformed)
    ensures t.content == Renderings(codec, data.content, data.metadata.format, formats)
    ensures t.metadata == data.metadata
    ensures t.transformations == Keys(t.content)
  {
    var original, from := data.content, data.metadata.format;
    var rendered: Dict<string> := [];
    for i := 0 to |formats|
      invariant rendered == Renderings(codec, original, from, formats[..i])
    {
      var target := formats[i];
      var text;
      if target != from {
        text := ConvertFormat(codec, original, from, target);
      } else {
        text := original;
      }
      assert formats[..i + 1][..i] == formats[..i];
      rendered := Put(rendered, target, text);
    }
    assert formats[..|formats|] == formats;
    t := Transformed(rendered, data.metadata, Keys(rendered));
  }

  /** The entry for the content's own format is the content, unchanged. */
  lemma OriginalFormatUnchanged(codec: Codec, content: string, from: string, formats: seq<string>)
    requires from in formats
    ensures Get(Renderings(codec, content, from, formats), from) == Some(content)
  {
    var d := Renderings(codec, content, from, formats);
    assert from in Keys(d);
    var i :| 0 <= i < |d| && d[i].0 == from;
    GetAt(d, i);
  }

  /** Content in a format with no conversion is copied into every entry. */
  lemma UnknownSourceCopied(codec: Codec, content: string, from: string, formats: seq<string>)
    requires from != "markdown" && from != "html" && from != "jsonld"
    ensures forall i :: 0 <= i < |Renderings(codec, content, from, formats)| ==>
      Renderings(codec, content, from, formats)[i].1 == content
  {
  }

  /** With the default formats and markdown content, the three entries are the
      markdown itself, its HTML page and its JSON-LD article, in that order. */
  lemma DefaultFormatsFromMarkdown(codec: Codec, content: string)
    ensures Renderings(codec, content, "markdown", ["markdown", "html", "jsonld"])
         == [("markdown", content), ("html", MarkdownToHtml(content)), ("jsonld", MarkdownToJsonLd(codec, content))]
  {
    var fs := ["markdown", "html", "jsonld"];
    assert fs[..2][..1] == ["markdown"] && fs[..2] == ["markdown", "html"];
    var d1 := Renderings(codec, content, "markdown", ["markdown"]);
    assert ["markdown"][..0] == [];
    assert d1 == [("markdown", content)];
    var d2 := Renderings(codec, content, "markdown", fs[..2]);
    assert "html" !in Keys(d1);
    assert d2 == [("markdown", content), ("html", MarkdownToHtml(content))];
    assert "jsonld" !in Keys(d2);
  }
}
