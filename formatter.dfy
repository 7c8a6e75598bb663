/** The output formatter: decides where each rendering and the metadata are
    written for an iteration and returns that manifest. The file system is an
    abstract map from path to text. */
module Formatter {
  import opened Wrappers
  import opened Text
  import opened Json
  import opened Dicts

  /** The file extension for a format; any other format is written as text. */
  function Extension(format: string): (e: string)
    ensures e == ".md" <==> format == "markdown"
    ensures e == ".html" <==> format == "html"
    ensures e == ".jsonld" <==> format == "jsonld"
    ensures e == ".txt" <==> format != "markdown" && format != "html" && format != "jsonld"
  {
    if format == "markdown" then ".md"
    else if format == "html" then ".html"
    else if format == "jsonld" then ".jsonld"
    else ".txt"
  }

  /** The text with its trailing slashes removed. */
  function TrimSlashes(s: string): (r: string)
    ensures r <= s
    ensures r == [] || r[|r| - 1] != '/'
    ensures forall i :: |r| <= i < |s| ==> s[i] == '/'
  {
    if s == [] || s[|s| - 1] != '/' then s else TrimSlashes(s[..|s| - 1])
  }

  /** `str(Path(dir) / name)` for a plain file or directory name: trailing
      slashes of the directory are dropped and one slash separates the two. */
  function JoinPath(dir: string, name: string): (p: string)
    ensures dir != [] ==> p == TrimSlashes(dir) + "/" + name
    ensures dir == [] ==> p == name
  {
    if dir == [] then name else TrimSlashes(dir) + "/" + name
  }

  /** The same directory joined with different names gives different paths. */
  lemma JoinPathDistinct(dir: string, a: string, b: string)
    requires a != b
    ensures JoinPath(dir, a) != JoinPath(dir, b)
  {
    if dir != [] {
      var d := TrimSlashes(dir) + "/";
      assert JoinPath(dir, a) == d + a && JoinPath(dir, b) == d + b;
      assert a == (d + a)[|d|..];
      assert b == (d + b)[|d|..];
    }
  }

  /** `naming_convention.format(iteration=i)` for a template whose only
      replacement field is `{iteration}`. */
  function IterationName(naming: string, iteration: int): string
  {
    Replace(naming, "{iteration}", IntToString(iteration))
  }

  /** `output_dir / naming_convention.format(iteration=i)`. */
  function IterationDir(outputDir: string, naming: string, iteration: int): string
  {
    JoinPath(outputDir, IterationName(naming, iteration))
  }

  /** Where the rendering of one format is written. */
  function FilePath(dir: string, format: string): string
  {
    JoinPath(dir, "index" + Extension(format))
  }

  function MetadataPath(dir: string): string
  {
    JoinPath(dir, "metadata.json")
  }

  /** The path entries after the loop has visited `content`, in order. */
  function Paths(dir: string, content: Dict<string>): (d: Dict<string>)
    ensures Keys(d) == Dedup(Keys(content))
    ensures DistinctKeys(d)
    ensures forall i :: 0 <= i < |d| ==> d[i].1 == FilePath(dir, d[i].0)
  {
    if content == [] then []
    else
      var init := content[..|content| - 1];
      var last := content[|content| - 1].0;
      assert Keys(content) == Keys(init) + [last];
      assert Keys(content)[..|content| - 1] == Keys(init);
      Put(Paths(dir, init), last, FilePath(dir, last))
  }

  /** The manifest `format` returns: the path entries and then `metadata`. */
  function Manifest(dir: string, content: Dict<string>): Dict<string>
  {
    Put(Paths(dir, content), "metadata", MetadataPath(dir))
  }

  /** The file system after the loop has written `content`, in order; a later
      write to the same path replaces an earlier one. */
  function Written(files: map<string, string>, dir: string, content: Dict<string>): map<string, string>
  {
    if content == [] then files
    else
      var last := content[|content| - 1];
      Written(files, dir, content[..|content| - 1])[FilePath(dir, last.0) := last.1]
  }

  /** The formatter's part of the configuration, each value optional. */
  datatype OutputFormatterConfig = OutputFormatterConfig(outputDir: Option<string>, namingConvention: Option<string>)

  class OutputFormatter {
    const outputDir: string
    const namingConvention: string
    /** The files written so far, by path. */
    var files: map<string, string>

    /** `OutputFormatter(config)`: `content/` and `iteration-{iteration}`
        unless the configuration says otherwise. */
    constructor(config: OutputFormatterConfig, files: map<string, string>)
      ensures outputDir == config.outputDir.GetOr("content/")
      ensures namingConvention == config.namingConvention.GetOr("iteration-{iteration}")
      ensures this.files == files
    {
      outputDir := config.outputDir.GetOr("content/");
      namingConvention := config.namingConvention.GetOr("iteration-{iteration}");
      this.files := files;
    }

    /** `format`: every rendering is written under the iteration directory,
        then the metadata; the manifest of paths is returned. */
    method Format(codec: Codec, content: Dict<string>, metadata: Json, iteration: int) returns (paths: Dict<string>)
      modifies this
      ensures var dir := IterationDir(outputDir, namingConvention, iteration);
        paths == Manifest(dir, content) &&
        files == Written(old(files), dir, content)[MetadataPath(dir) := codec.dumps(metadata)]
    {
      var dir := IterationDir(outputDir, namingConvention, iteration);
      paths := [];
      for i := 0 to |content|
        invariant paths == Paths(dir, content[..i])
        invariant files == Written(old(files), dir, content[..i])
      {
        var format, text := content[i].0, content[i].1;
        var path := FilePath(dir, format);
        FormatStep(old(files), dir, content, i);
        files := files[path := text];
        paths := Put(paths, format, path);
      }
      assert content[..|content|] == content;
      files := files[MetadataPath(dir) := codec.dumps(metadata)];
      paths := Put(paths, "metadata", MetadataPath(dir));
    }
  }

  /** One turn of the loop in `format`. */
  lemma FormatStep(files: map<string, string>, dir: string, content: Dict<string>, i: int)
    requires 0 <= i < |content|
    ensures Paths(dir, content[..i + 1]) == Put(Paths(dir, content[..i]), content[i].0, FilePath(dir, content[i].0))
    ensures Written(files, dir, content[..i + 1]) == Written(files, dir, content[..i])[FilePath(dir, content[i].0) := content[i].1]
  {
    assert content[..i + 1][..i] == content[..i];
  }

  // ----------------------------------------------------------- properties

  /** The manifest names every content key once, plus `metadata`, and nothing
      else. */
  lemma ManifestKeys(dir: string, content: Dict<string>)
    ensures DistinctKeys(Manifest(dir, content))
    ensures forall k :: k in Keys(Manifest(dir, content)) <==> k in Keys(content) || k == "metadata"
    ensures |Manifest(dir, content)| == |Dedup(Keys(content))| + (if "metadata" in Keys(content) then 0 else 1)
  {
  }

  /** The path the manifest gives for each key: `metadata.json` for
      `metadata`, `index` plus the format's extension for a format. */
  lemma ManifestPaths(dir: string, content: Dict<string>, k: string)
    ensures Get(Manifest(dir, content), k)
         == if k == "metadata" then Some(MetadataPath(dir))
            else if k in Keys(content) then Some(FilePath(dir, k))
            else None
  {
    var m := Manifest(dir, content);
    if k in Keys(m) {
      var i :| 0 <= i < |m| && m[i].0 == k;
      GetAt(m, i);
      PutEntry(Paths(dir, content), "metadata", MetadataPath(dir), i);
    }
  }

  /** Two formats without a known extension are written to the same file,
      so the later one overwrites the earlier. */
  lemma UnknownFormatsCollide(dir: string, f: string, g: string)
    requires f != "markdown" && f != "html" && f != "jsonld"
    requires g != "markdown" && g != "html" && g != "jsonld"
    ensures FilePath(dir, f) == FilePath(dir, g)
  {
  }

  /** Formats with different extensions get different files, and no format
      is written over the metadata file. */
  lemma FilePathsDistinct(dir: string, f: string, g: string)
    ensures FilePath(dir, f) == FilePath(dir, g) <==> Extension(f) == Extension(g)
    ensures FilePath(dir, f) != MetadataPath(dir)
  {
    var a, b := "index" + Extension(f), "index" + Extension(g);
    if Extension(f) != Extension(g) {
      assert Extension(f) == a[5..] && Extension(g) == b[5..];
      JoinPathDistinct(dir, a, b);
    }
    assert a[0] != "metadata.json"[0];
    JoinPathDistinct(dir, a, "metadata.json");
  }

  /** No two entries of `content` share a file. */
  predicate SeparateFiles(dir: string, content: Dict<string>)
  {
    forall i, j :: 0 <= i < j < |content| ==> FilePath(dir, content[i].0) != FilePath(dir, content[j].0)
  }

  /** When no two entries share a file, each file holds its own rendering. */
  lemma {:induction false} WrittenHoldsRendering(files: map<string, string>, dir: string, content: Dict<string>, i: int)
    requires SeparateFiles(dir, content) && 0 <= i < |content|
    ensures FilePath(dir, content[i].0) in Written(files, dir, content)
    ensures Written(files, dir, content)[FilePath(dir, content[i].0)] == content[i].1
    decreases |content|
  {
    var init := content[..|content| - 1];
    if i < |content| - 1 {
      assert init[i] == content[i];
      assert SeparateFiles(dir, init) by {
        forall a, b | 0 <= a < b < |init|
          ensures FilePath(dir, init[a].0) != FilePath(dir, init[b].0)
        {
          assert init[a] == content[a] && init[b] == content[b];
        }
      }
      WrittenHoldsRendering(files, dir, init, i);
    }
  }

  /** The files after the loop: the old ones and one per content entry. */
  lemma {:induction false} WrittenDomain(files: map<string, string>, dir: string, content: Dict<string>, p: string)
    ensures p in Written(files, dir, content) <==>
      p in files || exists i :: 0 <= i < |content| && FilePath(dir, content[i].0) == p
    decreases |content|
  {
    if content != [] {
      var init := content[..|content| - 1];
      WrittenDomain(files, dir, init, p);
      assert forall i :: 0 <= i < |init| ==> init[i] == content[i];
    }
  }

  /** The default configuration names the iteration directory
      `content/iteration-<n>`. */
  lemma DefaultIterationDir(iteration: int)
    ensures IterationDir("content/", "iteration-{iteration}", iteration)
         == "content" + "/" + "iteration-" + IntToString(iteration)
  {
    DefaultIterationName(IntToString(iteration));
    TrimContentDir();
  }

  lemma DefaultIterationName(n: string)
    ensures Replace("iteration-{iteration}", "{iteration}", n) == "iteration-" + n
  {
    assert "iteration-{iteration}" == "iteration-" + "{iteration}";
    ReplaceSkipsPrefix("iteration-", "{iteration}", "{iteration}", n);
    ReplaceWhole("{iteration}", n);
  }

  lemma ReplaceWhole(pat: string, rep: string)
    requires |pat| > 0
    ensures Replace(pat, pat, rep) == rep
  {
    assert pat[|pat|..] == [];
  }

  lemma TrimContentDir()
    ensures TrimSlashes("content/") == "content"
  {
    assert "content/"[..7] == "content";
  }
}
