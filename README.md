# Echo pipeline and ECHO Minimal experiment — a Dafny model

This project models the two halves of the repository:

- **The echo content pipeline.**
  - A content generator fills a fixed markdown, HTML or JSON-LD template for a topic and cuts it to a target length.
  - A transformer renders the content in every supported format with six rule-based converters.
  - A quality validator scores each rendering and checks the renderings for consistency.
  - An output formatter decides where each rendering and the metadata are written.
  - A monitor keeps execution records.
  - The pipeline class wires the stages together.
  - The command-line test runner selects suites by flags, collects their results and writes a summary.
- **The ECHO Minimal visibility experiment.**
  - A collector builds a dataset of real DOIs (positive controls) and minted fake DOIs (negative controls).
  - The experiment asks a language model whether it knows each DOI, before and after publication, and classifies each answer as visible, not visible or ambiguous.
  - A clean text listing of the results is generated.

**How things are represented**

- A Python dict is a list of its items in insertion order (`Dicts.Dict`).
- JSON values are a datatype (`Json.Json`). Serialising, parsing and `str()` of a parsed value are the three functions of a `Json.Codec` passed in by the caller.
- Scores are exact reals.
- A suite's results dict is a `TestRunner.Report`: a dict is always a `Table`, and a `Scalar` holds only a value that is not a dict.
- The file system is a `map` from path to text.
- These readings are parameters of the operations that use them:
  - clock readings and time stamps;
  - system resource readings;
  - the language model's answers;
  - the repositories' HTTP responses.
- Objects whose methods update their fields are classes:
  - `Monitor.PipelineMonitor`;
  - `Formatter.OutputFormatter`;
  - `Pipeline.EchoPipeline`;
  - `EchoMinimal.DOIRecord`.
- Template filling, conversion and scoring are functions.
- The source's loops are methods proved against those functions.

Modules:

| module | what it holds |
|---|---|
| `Wrappers` | Option |
| `Text` | string operations Python provides |
| `Lines` | `split('\n')` and `'\n'.join` |
| `Dicts` | dicts with insertion order |
| `Json` | JSON values and codecs |
| `Stats` | sums, means, extremes, variance |
| `Patterns` | the regular-expression rules the converters use |
| `Generator` | the content generator |
| `Converters` | the six converters |
| `Transformer` | the content transformer |
| `Validator` | the quality validator |
| `Formatter` | the output formatter |
| `Monitor` | the pipeline monitor |
| `Pipeline` | the pipeline class |
| `TestRunner` | the command-line test runner |
| `EchoMinimal` | the experiment |
| `DoiCollector` | the DOI collector |
| `CleanOutput` | the clean listing |

## Model

| member | source | states |
|---|---|---|
| Generator.TargetLength | src/pipeline_components.py:64-70 | short is 100 characters, long is 600; every other length name, unknown ones included, is the medium 300 |
| Generator.MarkdownTemplate | src/pipeline_components.py:81-114 | the markdown template opens with the line `# topic` and a blank line, and is at least 600 characters long, so every target length is filled |
| Generator.HtmlTemplate | src/pipeline_components.py:116-158 | the HTML template opens with the fixed page head and is at least 600 characters long |
| Generator.PageId | src/pipeline_components.py:189 | the `@id` is `https://example.com/` followed by one character per topic character: `-` for a space, the lower-case letter otherwise; no space is left |
| Generator.ReplaceCharAt | src/pipeline_components.py:189 | replacing one character by another keeps the length and changes exactly the positions that held it |
| Generator.ReplaceRemovesChar | src/pipeline_components.py:189 | replacing every occurrence of a character by text without it removes that character |
| Generator.ArticleTemplate | src/pipeline_components.py:160-191 | the JSON-LD template is an object whose headline is the topic |
| Generator.Template | src/pipeline_components.py:72-79 | jsonld selects the serialised article, html the HTML template, and any other format the markdown template |
| Generator.GenerateContent | src/pipeline_components.py:59-79 | the body is a prefix of the selected template no longer than the target length; it is exactly that long for markdown and HTML, and a markdown body starts with `#` |
| Generator.UnknownFormatIsMarkdown | src/pipeline_components.py:72-79 | a format other than html or jsonld is generated exactly as markdown |
| Generator.MarkdownBodyKeepsHeading | src/pipeline_components.py:81-114 | the markdown body keeps its whole `# topic` line whenever the target length leaves room for it |
| Generator.Generate | src/pipeline_components.py:23-57 | the metadata carries the request's topic, format and length with their defaults (`Default Topic`, `markdown`, `medium`) and the generator settings with theirs (`default`, 1000, 0.7); the content is the body generated for those values |
| Generator.DefaultRequest | src/pipeline_components.py:40-42 | with no request values the generator writes 300 characters of the markdown template for `Default Topic` |
| Patterns.HeadingPass | src/pipeline_components.py:322-324 | a multiline heading rule introduces no character other than those of its tag |
| Patterns.HeadingPassOfLines | src/pipeline_components.py:322-324 | the multiline rule rewrites each line on its own |
| Patterns.HeadingPassKeepsPrefix | src/pipeline_components.py:322-324 | a first line that does not start with the marker is left alone |
| Patterns.LazyEnd | src/pipeline_components.py:325-326 | a lazy group ends where the closing text fits inside the input |
| Patterns.LazyEndOccurs | src/pipeline_components.py:325-326 | the closing text occurs where the lazy group ends |
| Patterns.LazyEndSingleLine | src/pipeline_components.py:325-326 | `.` does not match a line feed, so a lazy group never spans lines |
| Patterns.LazyEndIsLeast | src/pipeline_components.py:325-326 | the lazy group is the shortest one: the closing text occurs at no earlier end |
| Patterns.LazyEndAtFirst | src/pipeline_components.py:325-326 | the lazy group ends at the first occurrence of the closing text when no line feed comes before it |
| Patterns.SubLazyStep | src/pipeline_components.py:351-356 | each scan step of `re.sub` consumes input |
| Patterns.SubLazySkipsPrefix | src/pipeline_components.py:351-356 | text that cannot start a match passes through the substitution unchanged |
| Patterns.SubLazyMatch | src/pipeline_components.py:325 | one match `open w close` becomes `before w after`, with the text around it unchanged |
| Patterns.SubLazyAtStart | src/pipeline_components.py:351 | a match at the start of the text is replaced first |
| Patterns.SearchLazy | src/pipeline_components.py:363 | a title found by `re.search` is non-empty, has no line feed and occurs between the two tags |
| Patterns.IndexOf | src/pipeline_components.py:357 | the index found is the first occurrence of the character, and None means there is none |
| Patterns.RemoveTags | src/pipeline_components.py:357 | tag removal leaves no tag, introduces no character and keeps a first character that is not `<` |
| Patterns.RemoveTagsSkipsPrefix | src/pipeline_components.py:357 | text without `<` passes through tag removal unchanged |
| Lines.SplitLines | src/pipeline_components.py:322-324 | splitting gives at least one line, no line holds a line feed, and joining the lines gives the text back |
| Lines.SplitJoin | src/pipeline_components.py:322-324 | splitting undoes joining lines that hold no line feed |
| Lines.SplitAfterLine | src/pipeline_components.py:322-324 | the text before the first line feed is the first line |
| Converters.Wrap | src/pipeline_components.py:328-329 | the converted body is placed in a fixed page that starts with the doctype and ends with the closing tags; the page has no blank line when the body has none |
| Converters.MarkdownToHtml | src/pipeline_components.py:318-329 | the HTML page has both html tags and no blank line left in it |
| Converters.MarkdownHeadingOpensPage | src/pipeline_components.py:322 | a first line `# title` puts an `<h1>` element at the start of the page body |
| Converters.FirstHeadingIn | src/pipeline_components.py:334 | a title is found exactly when some line is `# title`, and it is the first such line's title |
| Converters.FirstHeading | src/pipeline_components.py:334-335 | a title found by the multiline search is non-empty and has no line feed |
| Converters.FirstH1 | src/pipeline_components.py:363-364 | an `<h1>` title found is non-empty, has no line feed and occurs as an element of the input |
| Converters.Article | src/pipeline_components.py:337-344 | the JSON-LD object carries the title as headline and the whole input as text |
| Converters.MarkdownToJsonLd | src/pipeline_components.py:331-345 | for a codec that reads back what it writes, the result parses to the article whose headline is the first `# ` heading (default `Generated Content`) and whose text is the whole markdown |
| Converters.HtmlToJsonLd | src/pipeline_components.py:360-374 | for a codec that reads back what it writes, the result parses to the article whose headline is the first `<h1>` text (default `Generated Content`) and whose text is the whole page |
| Converters.JsonLdToMarkdown | src/pipeline_components.py:376-386 | input that is not a JSON object is returned unchanged; otherwise the result is a `# ` heading with the headline (default `Generated Content`), a blank line and the text |
| Converters.JsonLdToHtml | src/pipeline_components.py:388-405 | input that is not a JSON object is returned unchanged; otherwise the result is the fixed page with the headline as title and heading and the text as paragraph |
| Converters.HtmlToMarkdown | src/pipeline_components.py:347-358 | the markdown has no tag left and neither starts nor ends with whitespace |
| Converters.StripKeepsTagFree | src/pipeline_components.py:357-358 | stripping whitespace after tag removal leaves no tag |
| Converters.MarkdownJsonLdRoundTrip | src/pipeline_components.py:331-345 | markdown to JSON-LD and back gives the title line (the first heading, or `Generated Content`) followed by the original markdown |
| Converters.MarkdownJsonLdRoundTripKeepsTitle | src/pipeline_components.py:376-386 | the round trip keeps the document's title |
| Converters.TitleLineFirst | src/pipeline_components.py:334 | a text that starts with the line `# h` has title h |
| Converters.HtmlJsonLdRoundTrip | src/pipeline_components.py:360-405 | HTML to JSON-LD and back gives the fixed page around the first `<h1>` title and the original HTML |
| Converters.JsonLdHeadlineOnly | src/pipeline_components.py:380-383 | an object with a headline and no text becomes a bare heading line and a blank line |
| Converters.HeadingPassUnchanged | src/pipeline_components.py:322-324 | the heading rules leave lines that do not start with their marker alone |
| Converters.MarkdownTitleAndBold | src/pipeline_components.py:318-329 | a title line, a blank line and a line with a bold word become the page with an `<h1>` element, a paragraph break and a `<strong>` element |
| Converters.MarkdownToHtmlExample | src/pipeline_components.py:420-431 | the markdown-to-HTML self-test input gives a page with `<h1>` and `<strong>` |
| Converters.HtmlHeadingLeads | src/pipeline_components.py:351-358 | a leading `<h1>` element becomes a leading `# ` heading |
| Converters.HtmlToMarkdownExample | src/pipeline_components.py:433-444 | the HTML-to-markdown self-test input starts with `# Test Title` |
| Transformer.ConvertFormat | src/pipeline_components.py:299-316 | a pair of formats with no converter returns the content itself |
| Transformer.Rendering | src/pipeline_components.py:285-291 | the content's own format is stored unchanged |
| Transformer.Renderings | src/pipeline_components.py:285-291 | the dict has one key per format, in first-occurrence order, each holding that format's rendering |
| Transformer.Transform | src/pipeline_components.py:270-297 | the loop builds exactly the renderings dict; the metadata is passed through and the transformations list is the dict's keys |
| Transformer.OriginalFormatUnchanged | src/pipeline_components.py:285-291 | when the content's format is among the formats, its entry is the content unchanged |
| Transformer.UnknownSourceCopied | src/pipeline_components.py:315-316 | content in a format with no converter is copied into every entry |
| Transformer.DefaultFormatsFromMarkdown | src/pipeline_components.py:267 | with the default formats, markdown content gives the markdown, its HTML page and its JSON-LD |
| Validator.Penalty | src/pipeline_components.py:519-552 | every issue costs between 0 and 0.5 |
| Validator.Clamp | src/pipeline_components.py:558 | the clamped score lies in [0, 1] and is unchanged inside it |
| Validator.ValidateFormat | src/pipeline_components.py:511-565 | the method's checks give exactly the report function's result; the score lies in [0, 0.8] and is 0.8 exactly when there is no issue |
| Validator.CheckStructure | src/pipeline_components.py:526-546 | the format block reports exactly the structural issues of the format |
| Validator.CheckTopic | src/pipeline_components.py:548-552 | the relevance block reports exactly the topic issue |
| Validator.HeaderAtStart | src/pipeline_components.py:528 | a text opening with `#` and whitespace has a markdown header |
| Validator.BoldPairAt | src/pipeline_components.py:531 | two `**` on one line make a bold pair |
| Validator.TotalPenaltyNonNegative | src/pipeline_components.py:515-552 | the penalties never add up to a negative amount and add up to zero exactly when there is no issue |
| Validator.TotalPenaltyConcat | src/pipeline_components.py:515-552 | the penalties of consecutive checks add up |
| Validator.ScoreBounds | src/pipeline_components.py:554-558 | a score never exceeds the 0.8 base and is never negative; it is 0.8 exactly when no issue is found |
| Validator.InvalidJsonLdScoresAtMost | src/pipeline_components.py:541-546 | an unparsable JSON-LD document scores at most 0.3 |
| Validator.NewValidator | src/pipeline_components.py:470-474 | the threshold defaults to 0.8 and the consistency check defaults to on |
| Validator.Results | src/pipeline_components.py:489-494 | the results have one key per content key, in first-occurrence order |
| Validator.ResultsAreReports | src/pipeline_components.py:491-494 | every stored result is the report of some rendering of the content |
| Validator.Scores | src/pipeline_components.py:497 | the score list has one score per result, in order |
| Validator.Validate | src/pipeline_components.py:476-509 | the result holds the per-format reports and their mean score; it passes exactly when the mean reaches the threshold; the consistency is computed only when the check is on |
| Validator.ResultScoresBounded | src/pipeline_components.py:491-494 | every stored score lies in [0, 0.8] and is 0.8 exactly when its rendering has no issue |
| Validator.OverallBounds | src/pipeline_components.py:497-498 | the overall score lies in [0, 0.8] |
| Validator.ThresholdAboveBaseNeverPasses | src/pipeline_components.py:504 | a threshold above 0.8 can never be met |
| Validator.PassesAtDefaultThreshold | src/pipeline_components.py:504 | with the default threshold a run passes exactly when there is content and no rendering has an issue |
| Validator.ConsistencyBounds | src/pipeline_components.py:567-581 | the consistency lies in [0, 1] and is 1 exactly when there are fewer than two scores or all are equal |
| Validator.ConsistencyOfTestScores | src/pipeline_components.py:641-654 | the scores of the consistency self-test give 1 − 1/150 |
| Validator.MarkdownTestScores | src/pipeline_components.py:596-609 | the markdown self-test content scores the full 0.8 |
| Validator.MarkdownTestChecks | src/pipeline_components.py:596-609 | the markdown self-test content passes the length, markdown and topic checks |
| Validator.HtmlTestScores | src/pipeline_components.py:611-624 | the HTML self-test content scores the full 0.8 |
| Validator.HtmlTestChecks | src/pipeline_components.py:611-624 | the HTML self-test content passes the length, HTML and topic checks |
| Validator.TopicFoundAt | src/pipeline_components.py:549-552 | a topic without capitals that occurs in the content raises no relevance issue |
| Formatter.Extension | src/pipeline_components.py:712-718 | markdown, html and jsonld get `.md`, `.html` and `.jsonld`; every other format gets `.txt` |
| Formatter.TrimSlashes | src/pipeline_components.py:663 | trimming removes exactly the trailing slashes |
| Formatter.JoinPath | src/pipeline_components.py:681 | joining puts one slash between the trimmed directory and the name |
| Formatter.JoinPathDistinct | src/pipeline_components.py:719-720 | one directory joined with different names gives different paths |
| Formatter.Paths | src/pipeline_components.py:684-690 | the paths dict has one key per content key, in order, each holding that format's file path |
| Formatter.OutputFormatter.constructor | src/pipeline_components.py:660-664 | the output directory defaults to `content/` and the naming convention to `iteration-{iteration}` |
| Formatter.OutputFormatter.Format | src/pipeline_components.py:666-699 | the manifest holds the paths of every rendering and of `metadata.json`; each rendering and then the metadata are written into the iteration directory |
| Formatter.FormatStep | src/pipeline_components.py:686-690 | one loop turn adds one path entry and writes one file |
| Formatter.ManifestKeys | src/pipeline_components.py:684-697 | the manifest names every content key once, plus `metadata`, and nothing else |
| Formatter.ManifestPaths | src/pipeline_components.py:690-697 | the manifest gives `metadata.json` for `metadata` and each format's file path for the other keys |
| Formatter.UnknownFormatsCollide | src/pipeline_components.py:718-720 | two formats without a known extension are written to the same `index.txt` |
| Formatter.FilePathsDistinct | src/pipeline_components.py:718-720 | two formats share a file exactly when they share an extension, and no rendering is written over the metadata file |
| Formatter.WrittenHoldsRendering | src/pipeline_components.py:686-690 | when no two formats share a file, each file holds its own rendering |
| Formatter.WrittenDomain | src/pipeline_components.py:686-690 | after the loop the files are the old ones plus one per content entry |
| Formatter.DefaultIterationDir | src/pipeline_components.py:663-664 | with the defaults, iteration i is written under `content/iteration-i` |
| Monitor.StartRecord | src/pipeline_monitor.py:34-39 | the snapshot holds the id, the start time, the input and the system information |
| Monitor.Update | src/pipeline_monitor.py:46 | `update` keeps keys distinct and gives the union of the two key sets |
| Monitor.UpdateGet | src/pipeline_monitor.py:46 | after `update`, a key of the data has the data's value and any other key keeps its old value |
| Monitor.CompletedFields | src/pipeline_monitor.py:46-51 | a completed record holds its end time, duration and performance and every key of the snapshot and of the data; the data's other keys keep the data's values |
| Monitor.PipelineMonitor.constructor | src/pipeline_monitor.py:21-29 | a new monitor has an empty history and nothing pending |
| Monitor.PipelineMonitor.StartExecution | src/pipeline_monitor.py:31-41 | a new snapshot and start time replace any pending ones; the history is unchanged |
| Monitor.PipelineMonitor.RecordExecution | src/pipeline_monitor.py:43-63 | with a record pending, the completed record is appended to the history and the pending state is cleared; with none, nothing changes |
| Monitor.PipelineMonitor.ClearHistory | src/pipeline_monitor.py:177-180 | the history becomes empty and the pending state stays |
| Monitor.PipelineMonitor.GetHealthStatus | src/pipeline_monitor.py:202-237 | the status is error when the directory is not writable, otherwise warning when memory or disk is above 90 percent, otherwise healthy; the warnings and errors lists and the readings are as given |
| Monitor.PyTail | src/pipeline_monitor.py:106 | Python's `s[-limit:]`: the whole list for limit 0 or any limit at least its length, the last `limit` items otherwise, and negative limits as Python slices them |
| Monitor.Metric | src/pipeline_monitor.py:112-113 | a missing value reads as 0 |
| Monitor.Metrics | src/pipeline_monitor.py:112-113 | the list of values exists exactly when every record's value is a number, and it holds them in order |
| Monitor.SummaryOf | src/pipeline_monitor.py:104-126 | no records give the message; a value that is not a number gives no summary; otherwise the count, the records, the means of the durations and qualities and their minimum and maximum |
| Monitor.ReportOf | src/pipeline_monitor.py:128-159 | no history gives the message; a value that is not a number gives no report; otherwise the count, the last five records, the system readings, the means, minimum and maximum of the durations and qualities, and the recent means over the last min(10, n) values, which lie between the minimum and maximum |
| Monitor.RecentMeanBounds | src/pipeline_monitor.py:138-153 | the recent average lies between the minimum and maximum of all values |
| Monitor.SummaryWindow | src/pipeline_monitor.py:106-109 | an empty history gives the message; otherwise the window is the whole history for limit 0 or a limit at least its length, the last `limit` records for a smaller positive limit, and the history less its first `-limit` records for a negative limit |
| Stats.Min | src/pipeline_monitor.py:119 | `min` is an element no greater than any other |
| Stats.Max | src/pipeline_monitor.py:120 | `max` is an element no smaller than any other |
| Stats.MeanBounds | src/pipeline_components.py:498 | a mean of values in [lo, hi] lies in [lo, hi] |
| Stats.MeanBetweenMinMax | src/pipeline_monitor.py:117-122 | a mean lies between the minimum and the maximum |
| Stats.MeanReachesBound | src/pipeline_components.py:504 | a mean reaches an upper bound of all values exactly when every value equals it |
| Stats.Square | src/pipeline_components.py:576 | a square is never negative and is zero exactly for zero |
| Stats.SquaredDeviationsZero | src/pipeline_components.py:576 | the squared deviations sum to zero exactly when every value equals the mean |
| Stats.VarianceNonNegative | src/pipeline_components.py:576 | the variance is never negative |
| Stats.VarianceZeroIffAllEqual | src/pipeline_components.py:575-576 | the variance is zero exactly when all values are equal |
| Pipeline.LoadConfig | src/echo_pipeline.py:51-56 | the stored configuration is used when a non-empty path names one; otherwise the defaults |
| Pipeline.DefaultConfigMatchesStageDefaults | src/echo_pipeline.py:58-78 | the default configuration asks each stage for exactly what that stage does when its section is absent |
| Pipeline.MetadataJson | src/pipeline_components.py:47-57 | the metadata object has exactly the six metadata keys with their values |
| Pipeline.PathsJson | src/echo_pipeline.py:137 | the paths object has exactly the paths dict's keys |
| Pipeline.ValidationOf | src/echo_pipeline.py:120 | the validation passes exactly when its score reaches the threshold, and the score lies in [0, 0.8] |
| Pipeline.JsonLdBodyCutShort | src/pipeline_components.py:160-192 | when the serialised template is longer than the target length and no proper prefix of it parses, a JSON-LD body is not JSON, scores at most 0.3 as JSON-LD, and is every rendering of itself |
| Pipeline.QualityReportOf | src/echo_pipeline.py:243-248 | the report holds the mean and the minimum and maximum of the scores; its consistency is at most 1, is 1 exactly when all scores are equal, and is at least 0.2 for scores in [0, 0.8] |
| Pipeline.EchoPipeline.constructor | src/echo_pipeline.py:36-49 | each stage is built from its section of the loaded configuration, with its defaults; the monitor starts empty |
| Pipeline.EchoPipeline.RunStages | src/echo_pipeline.py:108-121 | generate, transform and validate each work on the previous stage's output |
| Pipeline.EchoPipeline.Execute | src/echo_pipeline.py:89-148 | success is the validation's verdict, the score is its score, the paths are the formatter's manifest, and the time is the clock difference; the files are updated by the formatter; the monitor is left unchanged because nothing was started |
| Pipeline.EchoPipeline.QualityScores | src/echo_pipeline.py:238-241 | one score per request |
| Pipeline.EchoPipeline.ExecuteAll | src/echo_pipeline.py:238-241 | the loop collects each request's score in order, and writes the files of each run |
| Pipeline.EchoPipeline.RunStep | src/echo_pipeline.py:239-241 | one loop turn appends one score and one run's files |
| Pipeline.EchoPipeline.RunQualityTests | src/echo_pipeline.py:227-248 | the three test requests are executed and the report is computed over their scores |
| Pipeline.EchoPipeline.SuccessAtDefaultThreshold | src/echo_pipeline.py:143 | with the default threshold a run succeeds exactly when some content was produced and no rendering has an issue |
| Pipeline.EchoPipeline.QualityScoresBounded | src/echo_pipeline.py:238-241 | every quality score lies in [0, 0.8] |
| Pipeline.EchoPipeline.QualityTestBounds | src/echo_pipeline.py:247 | the quality-test consistency lies in [0.2, 1] |
| TestRunner.Runs | tests/run_pipeline_tests.py:211-221 | a suite runs exactly when its own flag is set or no flag is set |
| TestRunner.Selected | tests/run_pipeline_tests.py:209-221 | the selected suites are exactly those that run, without repetition, and never none, so the "no tests" branch is unreachable |
| TestRunner.SelectionCases | tests/run_pipeline_tests.py:209-221 | without flags all four suites run, in order; with one flag only that suite runs |
| TestRunner.Entries | tests/run_pipeline_tests.py:212-221 | each selected suite's results are stored under its key, in order |
| TestRunner.CollectResults | tests/run_pipeline_tests.py:209-224 | the results dict holds one entry per selected suite, in order, and is never empty |
| TestRunner.PassedOf | tests/run_pipeline_tests.py:127 | `get('passed', False)` is defined exactly on dicts |
| TestRunner.PassedField | tests/run_pipeline_tests.py:127 | a result without `passed` reads as False, and one with it reads as its value |
| TestRunner.TallyTests | tests/run_pipeline_tests.py:125-128 | a count counts every result of the component, and no more pass than were counted |
| TestRunner.TallyTestsDefined | tests/run_pipeline_tests.py:125-128 | the count succeeds exactly when every result is a dict |
| TestRunner.TallyTestsPasses | tests/run_pipeline_tests.py:127-128 | all results are counted as passed exactly when all pass, and none exactly when none pass |
| TestRunner.CountTests | tests/run_pipeline_tests.py:125-128 | the inner loop computes the component's count |
| TestRunner.TallyComponents | tests/run_pipeline_tests.py:124-128 | no more pass than are counted |
| TestRunner.TallyComponentsDefined | tests/run_pipeline_tests.py:124-128 | the count succeeds exactly when every component is a dict of dicts |
| TestRunner.TallyUnit | tests/run_pipeline_tests.py:120-128 | a count exists only for a dict, and no more pass than are counted |
| TestRunner.ComponentStep | tests/run_pipeline_tests.py:124-128 | each component adds its counts to the total |
| TestRunner.CountUnitTests | tests/run_pipeline_tests.py:120-128 | the nested loop computes the count over the unit results |
| TestRunner.Summarize | tests/run_pipeline_tests.py:137-141 | failed is total less passed; the pass rate is 0 without tests, lies in [0, 100], and is 100 or 0 exactly when all or none pass |
| TestRunner.IntegrationPassed | tests/run_pipeline_tests.py:130 | a missing integration entry reads as False; the lookup succeeds exactly when the entry is a dict |
| TestRunner.UnitSummaryAsWritten | tests/run_pipeline_tests.py:120-141 | the summary exists exactly when the nested loop over `unit_tests` succeeds |
| TestRunner.AsWrittenReportRaises | tests/run_pipeline_tests.py:124-127 | with `run_tests`' dict stored under `unit_tests`, the loop reaches a boolean `passed` and fails |
| TestRunner.UnitTestsOf | tests/run_pipeline_tests.py:46-49 | the unit results are taken from inside the dict `run_tests` returns |
| TestRunner.UnitSummaryCorrected | tests/run_pipeline_tests.py:120-141 | the corrected summary exists exactly when its count succeeds, and its rate lies in [0, 100] |
| TestRunner.CorrectedReportCounts | tests/run_pipeline_tests.py:49-51 | with `run_tests`' dict stored, the corrected summary counts every component's tests |
| TestRunner.GenerateTestReport | tests/run_pipeline_tests.py:113-141 | the report's unit block is the corrected summary |
| EchoMinimal.Value | echo_minimal.py:19-22 | only `Visible` is written as `visible` |
| EchoMinimal.ParseResponse | echo_minimal.py:105-122 | as written: the answer is visible exactly when its upper case contains `VISIBLE` |
| EchoMinimal.NeverNotVisible | echo_minimal.py:117-122 | as written, NOT_VISIBLE is never returned; ambiguous exactly when `VISIBLE` is absent |
| EchoMinimal.NotVisibleAnswerReadAsVisible | echo_minimal.py:117-120 | the answer `NOT_VISIBLE` is read as visible |
| EchoMinimal.ErrorFallbackIsAmbiguous | echo_minimal.py:101-103 | the fallback answer of a failed request is read as ambiguous |
| EchoMinimal.ParseResponseCorrected | echo_minimal.py:105-122 | not visible exactly when a negative answer occurs, visible when `VISIBLE` occurs otherwise, ambiguous when `VISIBLE` does not occur |
| EchoMinimal.CorrectedReadsPromptedAnswers | echo_minimal.py:117-122 | the corrected reading tells the three prompted answers apart |
| EchoMinimal.DOIRecord.constructor | echo_minimal.py:24-30 | a record starts with no statuses |
| EchoMinimal.Row | echo_minimal.py:185-195 | visibility improved exactly when the status went from not visible to visible |
| EchoMinimal.NeverImproved | echo_minimal.py:191-194 | with the classification as written, no DOI ever shows improved visibility |
| EchoMinimal.CorrectedCanImprove | echo_minimal.py:191-194 | with the corrected classification, answers NOT_VISIBLE then VISIBLE show an improvement |
| EchoMinimal.RunExperiment | echo_minimal.py:176-195 | one row per record, in order, built from the two classified answers; each record holds its two statuses |
| EchoMinimal.ImprovedCount | echo_minimal.py:218 | the count is at most the number of rows and is zero exactly when no row improved |
| EchoMinimal.ExperimentShowsNoImprovement | echo_minimal.py:176-218 | rows built from classified answers always sum to zero improvements |
| EchoMinimal.Truncate | echo_minimal.py:241-242 | as written: short values are kept and longer ones become 29 characters and `...` |
| EchoMinimal.TruncateOverflowsColumn | echo_minimal.py:241-242 | a 31-character value comes out 32 characters long, wider than the column |
| EchoMinimal.FitColumn | echo_minimal.py:241-242 | corrected: values fit the 30-character column and are shortened only when too wide |
| EchoMinimal.Mark | echo_minimal.py:244-245 | a check mark exactly for `visible`, a cross otherwise |
| EchoMinimal.MarkOfParsed | echo_minimal.py:244-245 | with the classification as written, the mark is a check exactly when the answer contains `VISIBLE` |
| DoiCollector.Positive | doi_collector.py:54-61 | a kept record copies DOI and title, defaults the date to empty, and is a positive control of its source |
| DoiCollector.Kept | doi_collector.py:48-61 | no more records are kept than there were hits |
| DoiCollector.CollectDois | doi_collector.py:48-68 | a failed request gives no records; otherwise the loop keeps exactly the usable hits, in order |
| DoiCollector.KeptAppend | doi_collector.py:49-61 | keeping works hit by hit: two runs of hits give their records concatenated |
| DoiCollector.KeptOne | doi_collector.py:54 | a single hit is kept exactly when it has a DOI and a title |
| DoiCollector.KeptAreUsable | doi_collector.py:54-61 | every kept record has a DOI and a title and is a positive control |
| DoiCollector.UsableAreKept | doi_collector.py:54-61 | every usable hit is kept |
| DoiCollector.Fake | doi_collector.py:135-152 | a fake record of either style is a negative control dated 2024-01-01 whose source names its style |
| DoiCollector.FakeDois | doi_collector.py:132-153 | two records per index |
| DoiCollector.FakeDoisExtend | doi_collector.py:138-153 | one more index appends its Zenodo-style and then its Figshare-style record |
| DoiCollector.GenerateFakeDois | doi_collector.py:120-156 | the loop builds the fake records for indices 0 to count − 1, none for a count below 1 |
| DoiCollector.FakeDoisAt | doi_collector.py:138-153 | index i gives entries 2i (Zenodo) and 2i + 1 (Figshare) |
| DoiCollector.FakeDoisNegative | doi_collector.py:142-151 | every fake record is a negative control dated 2024-01-01 |
| DoiCollector.FakeKindsDiffer | doi_collector.py:135-136 | fake DOIs of different styles differ, whatever their indices |
| DoiCollector.FakeIndicesDiffer | doi_collector.py:135-136 | fake DOIs of one style differ for different indices |
| DoiCollector.FakeEntry | doi_collector.py:138-153 | each position holds the record of one index in one style: even positions Zenodo-style, odd ones Figshare-style |
| DoiCollector.FakeDoisDistinct | doi_collector.py:132-153 | all fake DOIs differ from each other |
| DoiCollector.CreateExperimentDataset | doi_collector.py:158-175 | the dataset is the Zenodo records, then the Figshare records, then 40 fake records |
| DoiCollector.DatasetControls | doi_collector.py:175-186 | the real records come first and are positive; the last 40 are negative |
| CleanOutput.RowLines | generate_clean_output.py:27-36 | five lines per row, the last one empty |
| CleanOutput.Body | generate_clean_output.py:27-36 | five lines per row |
| CleanOutput.GenerateCleanOutput | generate_clean_output.py:9-36 | the loop writes the header, then each row's lines in order |
| CleanOutput.BodyAt | generate_clean_output.py:27-36 | row i sits at body lines 5i to 5i + 4: DOI, title, a check mark exactly when each status is visible, and an empty line |
| CleanOutput.OutputShape | generate_clean_output.py:21-36 | the file has 4 + 5 per row lines and opens with the header |
| CleanOutput.DoisRoundTrip | generate_clean_output.py:21-36 | the DOIs read back from lines 4, 9, 14, … are the rows' DOIs in order |
| Dicts.Put | src/pipeline_components.py:290 | `d[k] = v` keeps an existing key's position, appends a new key and keeps keys distinct |
| Dicts.GetPut | src/pipeline_components.py:290 | after `d[k] = v`, a lookup of k gives v and other lookups are unchanged |
| Dicts.Dedup | src/pipeline_components.py:285-291 | the keys of a list: the same elements, each once, in first-occurrence order |
| Text.Take | src/pipeline_components.py:114 | `s[:n]` is a prefix of length min(n, len) |
| Text.Upper | echo_minimal.py:115 | upper-casing changes each letter in place |
| Text.IntToStringInjective | doi_collector.py:135-136 | different numbers print differently |
| Text.Strip | src/pipeline_components.py:358 | the stripped text occurs in the input, neither starts nor ends with whitespace, and everything before and after it is whitespace |
| Text.ReplacePairGone | src/pipeline_components.py:327 | after replacing every doubled character, none is left |

## Left out

- The markdown and HTML templates are modelled only up to their 600th character, because no target length reaches further (src/pipeline_components.py:64-70). The JSON-LD template is modelled in full, as a value.
- The JSON text form is not modelled: `json.dumps`, `json.loads` and `str()` of a parsed value are parameters (a `Codec`).
  - The round-trip lemmas assume only that parsing a serialised converter article gives that article back (`Converters.ArticlesRoundTrip`). `Converters.ArticleCodec` is one codec that meets this.
  - The length of `json.dumps(content, indent=2)` for the JSON-LD template is not computed. It is over 650 characters for every topic, more than any target length, so a JSON-LD request is always cut short. Pipeline.JsonLdBodyCutShort takes this length, and the fact that no proper prefix of a serialised object parses, as hypotheses; from them it proves that the JSON-LD body is not JSON.
- Regular expressions are not a general engine. Each rule the converters and the validator use is modelled on its own:
  - the heading rules;
  - the lazy `(.+?)` rules;
  - the tag removal;
  - the two searches.
- Text handling is restricted:
  - `lower`, `upper` and `strip` act only on ASCII;
  - no Unicode case folding is modelled.
- Path handling beyond removing trailing slashes is not modelled, and the naming convention is filled only for the `{iteration}` field.
- The file system is not modelled as a real file system:
  - directory creation, file writes and the metrics files are a map from path to text;
  - the monitor's saved records and reports (`_save_execution_record`, `save_performance_report`, `get_metrics_files`, `load_execution_record`) are file I/O and are not modelled.
- Readings from outside are parameters:
  - clocks, time stamps, `psutil` readings (`_get_system_info`, `_get_performance_metrics`, the health readings);
  - the language model's answers (`query_llm`);
  - the repositories' HTTP responses.
- Monitor.PipelineMonitor.GetHealthStatus: the exception path of `get_health_status` (lines 239-242) is not modelled, because its only source is the resource readings, which are parameters here.
- Asynchronous sleeps, progress bars, logging and every `print` are not modelled.
- The self-tests of the generator, transformer, validator and formatter (`run_tests` and `_test_*`) are covered only by the example lemmas named in the table. The other test cases are not modelled.
  - Also not modelled: the pipeline's `run_tests` with its unit, integration and performance suites, and the runner's `run_*_tests` wrappers. The test runner takes their results as values.
- The performance and quality parts of the test report and its file output are not modelled; only the unit-test block and the integration flag are.
- `load_dois` and the CSV reading and writing (`pandas`) are not modelled:
  - the experiment takes the records and answers as lists;
  - the collector returns its records;
  - the clean listing takes the rows and returns its list of lines.
- EchoMinimal.RunExperiment requires the records to be distinct objects, because it updates each record's statuses in place.
- The summary printout of `print_summary` is modelled only through its cell truncation, its marks and its improvement count.
- `main` functions and argument parsing are not modelled; the runner's flags are a value.
- The pipeline holds its generator as a function value built from its settings.
- Monitor.Metrics: values of `duration` or `content_quality` that are not numbers make the statistics undefined (None) rather than raising Python's `TypeError`.

## Findings

| source | as written | input that shows it | evidently intended | confidence | as-written member | corrected member |
|---|---|---|---|---|---|---|
| echo_minimal.py:117-120 | `"VISIBLE" in response_upper` is tested first; every negative answer contains `VISIBLE`, so NOT_VISIBLE is never returned and no DOI can ever show improved visibility | the answer `NOT_VISIBLE` | the negative answers are recognised before the positive one | high, not executed | EchoMinimal.ParseResponse, EchoMinimal.NotVisibleAnswerReadAsVisible | EchoMinimal.ParseResponseCorrected, EchoMinimal.CorrectedReadsPromptedAnswers |
| echo_minimal.py:241-242 | a value longer than 30 characters becomes its first 29 characters and `...`, 32 characters in all | any 31-character title | the shortened value fits the 30-character column | medium, not executed | EchoMinimal.Truncate, EchoMinimal.TruncateOverflowsColumn | EchoMinimal.FitColumn |
| tests/run_pipeline_tests.py:120-128 | `all_results['unit_tests']` holds the whole dict `run_tests` returns (line 46, src/echo_pipeline.py:154-159), so the nested loop reaches the integration dict's boolean `passed` and `.get` on it raises `AttributeError` | the default flags, with no flag set | the loop counts the components inside `all_results['unit_tests']['unit_tests']` | high, not executed | TestRunner.UnitSummaryAsWritten, TestRunner.AsWrittenReportRaises | TestRunner.UnitSummaryCorrected, TestRunner.CorrectedReportCounts, TestRunner.GenerateTestReport |
