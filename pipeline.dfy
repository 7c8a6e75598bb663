/** The echo pipeline: the configuration with its defaults, and `execute`, which
    runs the generator, the transformer, the validator and the formatter in turn
    and then reports the run to the monitor. Clock readings, timestamps and
    resource readings are parameters. */
module Pipeline {
  import opened Wrappers
  import opened Json
  import opened Dicts
  import opened Stats
  import Generator
  import Transformer
  import Validator
  import Formatter
  import Monitor

  /** The validator's part of the configuration, each value optional. */
  datatype ValidatorSettings = ValidatorSettings(threshold: Option<real>, consistencyCheck: Option<bool>)

  /** The pipeline configuration: one section per stage; an absent value takes
      the stage's own default. */
  datatype Config = Config(
    generator: Generator.Settings,
    formats: Option<seq<string>>,
    templates: Option<string>,
    validator: ValidatorSettings,
    formatter: Formatter.OutputFormatterConfig)

  /** `_get_default_config`. */
  const DefaultConfig: Config := Config(
    Generator.Settings(Some("default"), Some(1000), Some(0.7)),
    Some(["markdown", "html", "jsonld"]),
    Some("templates/"),
    ValidatorSettings(Some(0.8), Some(true)),
    Formatter.OutputFormatterConfig(Some("content/"), Some("iteration-{iteration}")))

  /** A configuration file that leaves every section out. */
  const EmptyConfig: Config := Config(
    Generator.Settings(None, None, None), None, None,
    ValidatorSettings(None, None),
    Formatter.OutputFormatterConfig(None, None))

  /** `_load_config`: the configuration stored at the path when a non-empty
      path names an existing file, the default configuration otherwise. The
      file system is the map `stored` from path to parsed configuration. */
  function LoadConfig(path: Option<string>, stored: map<string, Config>): (c: Config)
    ensures path.Some? && path.value != [] && path.value in stored ==> c == stored[path.value]
    ensures path.None? || path.value == [] || path.value !in stored ==> c == DefaultConfig
  {
    if path.Some? && path.value != [] && path.value in stored then stored[path.value] else DefaultConfig
  }

  /** The default configuration asks for exactly what every stage does when
      its section is empty. */
  lemma DefaultConfigMatchesStageDefaults()
    ensures Generator.Settings(Some(DefaultConfig.generator.model.GetOr("default")),
                               Some(DefaultConfig.generator.maxTokens.GetOr(1000)),
                               Some(DefaultConfig.generator.temperature.GetOr(0.7)))
         == Generator.Settings(Some(EmptyConfig.generator.model.GetOr("default")),
                               Some(EmptyConfig.generator.maxTokens.GetOr(1000)),
                               Some(EmptyConfig.generator.temperature.GetOr(0.7)))
    ensures DefaultConfig.formats.GetOr(["markdown", "html", "jsonld"]) == EmptyConfig.formats.GetOr(["markdown", "html", "jsonld"])
    ensures Validator.NewValidator(DefaultConfig.validator.threshold, DefaultConfig.validator.consistencyCheck)
         == Validator.NewValidator(EmptyConfig.validator.threshold, EmptyConfig.validator.consistencyCheck)
    ensures DefaultConfig.formatter.outputDir.GetOr("content/") == EmptyConfig.formatter.outputDir.GetOr("content/")
    ensures DefaultConfig.formatter.namingConvention.GetOr("iteration-{iteration}")
         == EmptyConfig.formatter.namingConvention.GetOr("iteration-{iteration}")
  {
  }

  /** The metadata dict as a JSON object, as the formatter writes it. */
  function MetadataJson(m: Generator.Metadata): (j: Json)
    ensures j.JObj? && j.fields.Keys == {"topic", "format", "length", "model", "max_tokens", "temperature"}
    ensures j.fields["topic"] == JStr(m.topic) && j.fields["format"] == JStr(m.format)
  {
    JObj(map[
      "topic" := JStr(m.topic), "format" := JStr(m.format), "length" := JStr(m.length),
      "model" := JStr(m.model), "max_tokens" := JInt(m.maxTokens), "temperature" := JFloat(m.temperature)])
  }

  /** A dict of paths as a JSON object. */
  function PathsJson(d: Dict<string>): (j: Json)
    ensures j.JObj? && j.fields.Keys == set i | 0 <= i < |d| :: d[i].0
  {
    if d == [] then JObj(map[])
    else
      var init := PathsJson(d[..|d| - 1]);
      var last := d[|d| - 1];
      assert forall i :: 0 <= i < |d| - 1 ==> d[..|d| - 1][i] == d[i];
      JObj(init.fields[last.0 := JStr(last.1)])
  }

  /** What `validate` returns for the given content, as a value. */
  function ValidationOf(v: Validator.QualityValidator, codec: Codec, content: Dict<string>, topic: string): (r: Validator.Validation)
    ensures r.passed <==> r.qualityScore >= v.threshold
    ensures 0.0 <= r.qualityScore <= 0.8
  {
    var rs := Validator.Results(codec, content, topic);
    var s := Validator.Scores(rs);
    Validator.OverallBounds(codec, content, topic);
    Validator.Validation(Mean(s) >= v.threshold, Mean(s),
      if v.consistencyCheck then Validator.Consistency(s) else 1.0, rs, v.threshold)
  }

  /** The readings `execute` takes from outside: the clock before and after
      the stages, and what the monitor would stamp on a record. */
  datatype Environment = Environment(startClock: real, endClock: real, stamp: string, performance: Json)

  /** The dict `execute` returns. */
  datatype ExecutionResult = ExecutionResult(
    success: bool,
    executionTime: real,
    qualityScore: real,
    outputPaths: Dict<string>,
    validationDetails: Validator.Validation)

  /** The dict `_run_quality_tests` returns. */
  datatype QualityReport = QualityReport(averageQuality: real, minQuality: real, maxQuality: real, consistencyScore: real)

  /** The aggregate over the quality scores of the test runs. */
  function QualityReportOf(scores: seq<real>): (q: QualityReport)
    requires scores != []
    ensures q.averageQuality == Mean(scores)
    ensures q.minQuality in scores && q.maxQuality in scores
    ensures forall i :: 0 <= i < |scores| ==> q.minQuality <= scores[i] <= q.maxQuality
    ensures q.minQuality <= q.averageQuality <= q.maxQuality
    ensures q.consistencyScore <= 1.0
    ensures q.consistencyScore == 1.0 <==> forall i, j :: 0 <= i < |scores| && 0 <= j < |scores| ==> scores[i] == scores[j]
    ensures (forall i :: 0 <= i < |scores| ==> 0.0 <= scores[i] <= 0.8) ==> 0.2 <= q.consistencyScore
  {
    MeanBetweenMinMax(scores);
    QualityReport(Sum(scores) / |scores| as real, Min(scores), Max(scores), 1.0 - (Max(scores) - Min(scores)))
  }

  /** A JSON-LD request is cut short: the serialised template is longer than
      any target length, so the body is a proper prefix of it. When no proper
      prefix of that text parses, the body is not JSON, its JSON-LD score is
      at most 0.3, and every rendering of it is the body itself. */
  lemma JsonLdBodyCutShort(codec: Codec, topic: string, length: string)
    requires |codec.dumps(Generator.ArticleTemplate(topic))| > Generator.TargetLength(length)
    requires forall n :: 0 <= n < |codec.dumps(Generator.ArticleTemplate(topic))| ==>
               codec.loads(codec.dumps(Generator.ArticleTemplate(topic))[..n]).None?
    ensures codec.loads(Generator.GenerateContent(codec, topic, "jsonld", length)).None?
    ensures Validator.Score(codec, Generator.GenerateContent(codec, topic, "jsonld", length), "jsonld", topic) <= 0.3
    ensures forall to :: Transformer.Rendering(codec, Generator.GenerateContent(codec, topic, "jsonld", length), "jsonld", to)
                         == Generator.GenerateContent(codec, topic, "jsonld", length)
  {
    var d := codec.dumps(Generator.ArticleTemplate(topic));
    var body := Generator.GenerateContent(codec, topic, "jsonld", length);
    assert body == d[..Generator.TargetLength(length)];
    Validator.InvalidJsonLdScoresAtMost(codec, body, topic);
  }

  /** The three requests of the quality tests; none names a length. */
  const QualityTestInputs: seq<Generator.Request> := [
    Generator.Request(Some("Test 1"), Some("markdown"), None),
    Generator.Request(Some("Test 2"), Some("html"), None),
    Generator.Request(Some("Test 3"), Some("jsonld"), None)]

  class EchoPipeline {
    const config: Config
    const codec: Codec
    const settings: Generator.Settings
    /** The generator built from the generator section. */
    const generate: Generator.Request -> Generator.Generated
    const formats: seq<string>
    const validator: Validator.QualityValidator
    const monitor: Monitor.PipelineMonitor
    const formatter: Formatter.OutputFormatter

    /** The monitor is never left with a pending execution: the pipeline
        never starts one. */
    predicate Valid()
      reads monitor
    {
      monitor.Valid() && !monitor.Pending()
    }

    /** `EchoPipeline(config_path)`: the configuration is loaded and every
        stage is built from its section; the monitor starts empty. */
    constructor(path: Option<string>, stored: map<string, Config>, codec: Codec, files: map<string, string>)
      ensures config == LoadConfig(path, stored) && this.codec == codec
      ensures settings == config.generator
      ensures forall input :: generate(input) == Generator.Generate(codec, settings, input)
      ensures formats == config.formats.GetOr(["markdown", "html", "jsonld"])
      ensures validator == Validator.NewValidator(config.validator.threshold, config.validator.consistencyCheck)
      ensures formatter.outputDir == config.formatter.outputDir.GetOr("content/")
      ensures formatter.namingConvention == config.formatter.namingConvention.GetOr("iteration-{iteration}")
      ensures formatter.files == files
      ensures fresh(monitor) && fresh(formatter)
      ensures Valid() && monitor.history == []
    {
      var c := LoadConfig(path, stored);
      config := c;
      this.codec := codec;
      settings := c.generator;
      generate := input => Generator.Generate(codec, c.generator, input);
      formats := c.formats.GetOr(["markdown", "html", "jsonld"]);
      validator := Validator.NewValidator(c.validator.threshold, c.validator.consistencyCheck);
      monitor := new Monitor.PipelineMonitor();
      formatter := new Formatter.OutputFormatter(c.formatter, files);
    }

    /** What the generator produces for a request. */
    function Generated(input: Generator.Request): Generator.Generated
    {
      generate(input)
    }

    /** The transformed content for a request. */
    function Rendered(input: Generator.Request): Dict<string>
    {
      var g := Generated(input);
      Transformer.Renderings(codec, g.content, g.metadata.format, formats)
    }

    /** The validation of the transformed content for a request. */
    function Checked(input: Generator.Request): Validator.Validation
    {
      ValidationOf(validator, codec, Rendered(input), Generated(input).metadata.topic)
    }

    /** The directory of an iteration. */
    function Dir(iteration: int): string
    {
      Formatter.IterationDir(formatter.outputDir, formatter.namingConvention, iteration)
    }

    /** The files after formatting the output of one request. */
    function AfterFormat(files: map<string, string>, input: Generator.Request, iteration: int): map<string, string>
    {
      var dir := Dir(iteration);
      Formatter.Written(files, dir, Rendered(input))[Formatter.MetadataPath(dir) := codec.dumps(MetadataJson(Generated(input).metadata))]
    }

    /** The data `execute` hands to `record_execution`. */
    function ExecutionData(iteration: int, time: real, quality: real, paths: Dict<string>): Monitor.Record
    {
      [("iteration", JInt(iteration)), ("execution_time", JFloat(time)),
       ("content_quality", JFloat(quality)), ("output_paths", PathsJson(paths))]
    }

    /** The first three stages of `execute`: generate, transform, validate. */
    method RunStages(input: Generator.Request) returns (transformed: Transformer.Transformed, validation: Validator.Validation)
      ensures transformed.content == Rendered(input)
      ensures transformed.metadata == Generated(input).metadata
      ensures validation == Checked(input)
    {
      var generated := generate(input);
      transformed := Transformer.Transform(codec, formats, generated);
      validation := Validator.Validate(validator, codec, transformed.content, transformed.metadata.topic);
    }

    /** `execute`: each stage works on the previous stage's output; the
        formatter writes the transformed content for the iteration; the run
        is reported to the monitor, which has nothing pending and so records
        nothing. */
    method Execute(input: Generator.Request, iteration: int, env: Environment) returns (r: ExecutionResult)
      requires Valid()
      modifies monitor, formatter
      ensures Valid()
      ensures monitor.history == old(monitor.history)
      ensures monitor.current == old(monitor.current) && monitor.startTime == old(monitor.startTime)
      ensures r.validationDetails == Checked(input)
      ensures r.success == r.validationDetails.passed
      ensures r.qualityScore == r.validationDetails.qualityScore
      ensures r.executionTime == env.endClock - env.startClock
      ensures r.outputPaths == Formatter.Manifest(Dir(iteration), Rendered(input))
      ensures formatter.files == AfterFormat(old(formatter.files), input, iteration)
    {
      var transformed, validation := RunStages(input);
      var paths := formatter.Format(codec, transformed.content, MetadataJson(transformed.metadata), iteration);
      var time := env.endClock - env.startClock;
      monitor.RecordExecution(ExecutionData(iteration, time, validation.qualityScore, paths),
        env.endClock, env.stamp, env.performance);
      r := ExecutionResult(validation.passed, time, validation.qualityScore, paths, validation);
    }

    /** The quality score of each request, in order. */
    function QualityScores(inputs: seq<Generator.Request>): (s: seq<real>)
      ensures |s| == |inputs|
    {
      if inputs == [] then []
      else QualityScores(inputs[..|inputs| - 1]) + [Checked(inputs[|inputs| - 1]).qualityScore]
    }

    /** The files after running each request in turn, run `k` using
        iteration `k + 1`. */
    function FilesAfterRuns(files: map<string, string>, inputs: seq<Generator.Request>): map<string, string>
    {
      if inputs == [] then files
      else AfterFormat(FilesAfterRuns(files, inputs[..|inputs| - 1]), inputs[|inputs| - 1], |inputs|)
    }

    /** The loop of `_run_quality_tests`: each request is executed in turn,
        run `k` as iteration `k + 1`, and its quality score appended. */
    method ExecuteAll(inputs: seq<Generator.Request>, envs: seq<Environment>) returns (scores: seq<real>)
      requires Valid() && |envs| == |inputs|
      modifies monitor, formatter
      ensures Valid()
      ensures monitor.history == old(monitor.history)
      ensures monitor.current == old(monitor.current) && monitor.startTime == old(monitor.startTime)
      ensures formatter.files == FilesAfterRuns(old(formatter.files), inputs)
      ensures scores == QualityScores(inputs)
    {
      scores := [];
      for i := 0 to |inputs|
        invariant Valid()
        invariant monitor.history == old(monitor.history)
        invariant monitor.current == old(monitor.current) && monitor.startTime == old(monitor.startTime)
        invariant formatter.files == FilesAfterRuns(old(formatter.files), inputs[..i])
        invariant scores == QualityScores(inputs[..i])
      {
        var r := Execute(inputs[i], i + 1, envs[i]);
        RunStep(old(formatter.files), inputs, i);
        scores := scores + [r.qualityScore];
      }
      assert inputs[..|inputs|] == inputs;
    }

    /** One turn of the loop in `ExecuteAll`. */
    lemma RunStep(files: map<string, string>, inputs: seq<Generator.Request>, i: int)
      requires 0 <= i < |inputs|
      ensures QualityScores(inputs[..i + 1]) == QualityScores(inputs[..i]) + [Checked(inputs[i]).qualityScore]
      ensures FilesAfterRuns(files, inputs[..i + 1]) == AfterFormat(FilesAfterRuns(files, inputs[..i]), inputs[i], i + 1)
    {
      assert inputs[..i + 1][..i] == inputs[..i];
    }

    /** `_run_quality_tests`: the three test requests are executed and their
        quality scores aggregated. */
    method RunQualityTests(envs: seq<Environment>) returns (q: QualityReport)
      requires Valid() && |envs| == |QualityTestInputs|
      modifies monitor, formatter
      ensures Valid()
      ensures monitor.history == old(monitor.history)
      ensures monitor.current == old(monitor.current) && monitor.startTime == old(monitor.startTime)
      ensures formatter.files == FilesAfterRuns(old(formatter.files), QualityTestInputs)
      ensures q == QualityReportOf(QualityScores(QualityTestInputs))
    {
      var scores := ExecuteAll(QualityTestInputs, envs);
      q := QualityReportOf(scores);
    }

    // --------------------------------------------------------- properties

    /** With the default threshold a run succeeds exactly when some content
        was produced and no rendering has any issue. */
    lemma SuccessAtDefaultThreshold(input: Generator.Request)
      requires validator.threshold == 0.8
      ensures Checked(input).passed <==>
        Rendered(input) != [] && forall i :: 0 <= i < |Checked(input).formatResults| ==> Checked(input).formatResults[i].1.issues == []
    {
      Validator.PassesAtDefaultThreshold(codec, Rendered(input), Generated(input).metadata.topic);
    }

    /** Every quality score lies in [0, 0.8]. */
    lemma {:induction false} QualityScoresBounded(inputs: seq<Generator.Request>)
      ensures forall k :: 0 <= k < |inputs| ==> 0.0 <= QualityScores(inputs)[k] <= 0.8
    {
      if inputs != [] {
        var init, last := inputs[..|inputs| - 1], inputs[|inputs| - 1];
        QualityScoresBounded(init);
        var x := Checked(last).qualityScore;
        assert 0.0 <= x <= 0.8;
        assert QualityScores(inputs) == QualityScores(init) + [x];
      }
    }

    /** The quality-test report: the consistency lies in [0.2, 1] because
        every score lies in [0, 0.8], and it is 1 exactly when all runs
        scored the same. */
    lemma QualityTestBounds(inputs: seq<Generator.Request>)
      requires inputs != []
      ensures 0.2 <= QualityReportOf(QualityScores(inputs)).consistencyScore <= 1.0
    {
      QualityScoresBounded(inputs);
    }
  }
}
