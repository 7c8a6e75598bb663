/** The command-line test runner: which suites the `--X-only` flags select,
    how the selected suites' results are collected, and how the report counts
    unit tests. The suites' results themselves come from the pipeline and are
    parameters here. */
module TestRunner {
  import opened Wrappers
  import opened Json
  import opened Dicts

  // ------------------------------------------------------------ selection

  /** The four `--X-only` switches. */
  datatype Flags = Flags(unitOnly: bool, integrationOnly: bool, performanceOnly: bool, qualityOnly: bool)

  datatype Suite = Unit | Integration | Performance | Quality

  /** A suite's own switch. */
  function Flag(flags: Flags, s: Suite): bool
  {
    match s
    case Unit => flags.unitOnly
    case Integration => flags.integrationOnly
    case Performance => flags.performanceOnly
    case Quality => flags.qualityOnly
  }

  predicate AnySet(flags: Flags)
  {
    flags.unitOnly || flags.integrationOnly || flags.performanceOnly || flags.qualityOnly
  }

  /** The condition in front of each suite: its own switch, or none of the
      other three. Equivalently, its own switch or no switch at all. */
  function Runs(flags: Flags, s: Suite): (r: bool)
    ensures r <==> Flag(flags, s) || !AnySet(flags)
  {
    match s
    case Unit => flags.unitOnly || !(flags.integrationOnly || flags.performanceOnly || flags.qualityOnly)
    case Integration => flags.integrationOnly || !(flags.unitOnly || flags.performanceOnly || flags.qualityOnly)
    case Performance => flags.performanceOnly || !(flags.unitOnly || flags.integrationOnly || flags.qualityOnly)
    case Quality => flags.qualityOnly || !(flags.unitOnly || flags.integrationOnly || flags.performanceOnly)
  }

  /** The suites that run, in the order the runner tries them. At least one
      always runs. */
  function Selected(flags: Flags): (ss: seq<Suite>)
    ensures forall s :: s in ss <==> Runs(flags, s)
    ensures ss != []
    ensures forall i, j :: 0 <= i < j < |ss| ==> ss[i] != ss[j]
  {
    (if Runs(flags, Unit) then [Unit] else []) +
    (if Runs(flags, Integration) then [Integration] else []) +
    (if Runs(flags, Performance) then [Performance] else []) +
    (if Runs(flags, Quality) then [Quality] else [])
  }

  /** The key under which a suite's results are stored. */
  function Key(s: Suite): string
  {
    match s
    case Unit => "unit_tests"
    case Integration => "integration_tests"
    case Performance => "performance_tests"
    case Quality => "quality_tests"
  }

  /** A results dictionary as the suites return it: nested dicts in insertion
      order, with scalar leaves. A dict is always a `Table`; a `Scalar` holds
      a value that is not a dict (a number, a string, a list), so a
      `Scalar(JObj(...))` stands for no result a suite returns. */
  datatype Report = Scalar(value: Json) | Table(entries: Dict<Report>)

  /** The results each suite returned. */
  datatype SuiteResults = SuiteResults(unit: Report, integration: Report, performance: Report, quality: Report)

  function ResultOf(results: SuiteResults, s: Suite): Report
  {
    match s
    case Unit => results.unit
    case Integration => results.integration
    case Performance => results.performance
    case Quality => results.quality
  }

  /** The entries for a run of suites: each suite's results under its key. */
  function Entries(suites: seq<Suite>, results: SuiteResults): (d: Dict<Report>)
    ensures |d| == |suites|
    ensures forall i :: 0 <= i < |suites| ==> d[i] == (Key(suites[i]), ResultOf(results, suites[i]))
  {
    seq(|suites|, i requires 0 <= i < |suites| => (Key(suites[i]), ResultOf(results, suites[i])))
  }

  /** `main` filling `all_results`: one entry per selected suite, in order.
      The dict is never empty, so the "No tests were executed" branch cannot
      be reached. */
  method CollectResults(flags: Flags, results: SuiteResults) returns (allResults: Dict<Report>)
    ensures allResults != []
    ensures allResults == Entries(Selected(flags), results)
  {
    allResults := [];
    ghost var suites: seq<Suite> := [];
    if flags.unitOnly || !(flags.integrationOnly || flags.performanceOnly || flags.qualityOnly) {
      allResults, suites := allResults + [("unit_tests", results.unit)], suites + [Unit];
    }
    ghost var upTo1 := suites;
    assert allResults == Entries(suites, results);
    if flags.integrationOnly || !(flags.unitOnly || flags.performanceOnly || flags.qualityOnly) {
      allResults, suites := allResults + [("integration_tests", results.integration)], suites + [Integration];
    }
    ghost var upTo2 := suites;
    assert allResults == Entries(suites, results);
    if flags.performanceOnly || !(flags.unitOnly || flags.integrationOnly || flags.qualityOnly) {
      allResults, suites := allResults + [("performance_tests", results.performance)], suites + [Performance];
    }
    ghost var upTo3 := suites;
    assert allResults == Entries(suites, results);
    if flags.qualityOnly || !(flags.unitOnly || flags.integrationOnly || flags.performanceOnly) {
      allResults, suites := allResults + [("quality_tests", results.quality)], suites + [Quality];
    }
    assert allResults == Entries(suites, results);
    assert upTo1 == if Runs(flags, Unit) then [Unit] else [];
    assert upTo2 == upTo1 + if Runs(flags, Integration) then [Integration] else [];
    assert upTo3 == upTo2 + if Runs(flags, Performance) then [Performance] else [];
    assert suites == upTo3 + if Runs(flags, Quality) then [Quality] else [];
    assert suites == Selected(flags);
  }

  /** Without switches every suite runs; with exactly one switch only that
      suite runs. */
  lemma SelectionCases(flags: Flags, s: Suite)
    ensures !AnySet(flags) ==> Selected(flags) == [Unit, Integration, Performance, Quality]
    ensures Flag(flags, s) && (forall t :: t != s ==> !Flag(flags, t)) ==> Selected(flags) == [s]
  {
    if Flag(flags, s) && (forall t :: t != s ==> !Flag(flags, t)) {
      assert forall t :: t != s ==> !Runs(flags, t);
    }
  }

  // ------------------------------------------------------------- counting

  /** Python truthiness of a result value. */
  predicate Truthy(r: Report)
  {
    match r
    case Table(es) => es != []
    case Scalar(JNull) => false
    case Scalar(JBool(b)) => b
    case Scalar(JInt(i)) => i != 0
    case Scalar(JFloat(f)) => f != 0.0
    case Scalar(JStr(s)) => s != []
    case Scalar(JList(l)) => l != []
    case Scalar(JObj(m)) => m != map[]
  }

  /** `r.get('passed', False)`: None where `r` is not a dict and the call
      raises. */
  function PassedOf(r: Report): (p: Option<Report>)
    ensures p.Some? <==> r.Table?
  {
    match r
    case Scalar(_) => None
    case Table(es) => Some(GetOrDefault(es, "passed", Scalar(JBool(false))))
  }

  /** A result without a `passed` field reads as False, one with it reads
      as its value. */
  lemma PassedField(es: Dict<Report>)
    ensures "passed" !in Keys(es) ==> PassedOf(Table(es)) == Some(Scalar(JBool(false)))
    ensures "passed" in Keys(es) ==> PassedOf(Table(es)) == Get(es, "passed")
  {
    GetOrDefaultIsGet(es, "passed", Scalar(JBool(false)));
  }

  /** A test result that counts as passed. */
  predicate Passes(r: Report)
  {
    r.Table? && Truthy(PassedOf(r).value)
  }

  datatype Counts = Counts(total: nat, passed: nat)

  /** The inner loop over one component's results, up to the first result
      that is not a dict (None: the `.get` raises). */
  function TallyTests(tests: Dict<Report>): (r: Option<Counts>)
    ensures r.Some? ==> r.value.total == |tests| && r.value.passed <= r.value.total
  {
    if tests == [] then Some(Counts(0, 0))
    else
      var init := tests[..|tests| - 1];
      var last := tests[|tests| - 1].1;
      var before := TallyTests(init);
      match PassedOf(last)
      case None => None
      case Some(p) =>
        if before.None? then None
        else Some(Counts(before.value.total + 1, before.value.passed + if Truthy(p) then 1 else 0))
  }

  /** The count succeeds exactly when every result is a dict. */
  lemma {:induction false} TallyTestsDefined(tests: Dict<Report>)
    ensures TallyTests(tests).Some? <==> forall i :: 0 <= i < |tests| ==> tests[i].1.Table?
  {
    if tests != [] {
      var init := tests[..|tests| - 1];
      assert forall i :: 0 <= i < |init| ==> init[i] == tests[i];
      TallyTestsDefined(init);
    }
  }

  /** The passed count is the number of results whose `passed` is truthy:
      all of them exactly when every test passes, none exactly when none
      does. */
  lemma {:induction false} TallyTestsPasses(tests: Dict<Report>)
    requires TallyTests(tests).Some?
    ensures TallyTests(tests).value.passed == |tests| <==> forall i :: 0 <= i < |tests| ==> Passes(tests[i].1)
    ensures TallyTests(tests).value.passed == 0 <==> forall i :: 0 <= i < |tests| ==> !Passes(tests[i].1)
  {
    if tests != [] {
      var init := tests[..|tests| - 1];
      assert forall i :: 0 <= i < |init| ==> init[i] == tests[i];
      assert tests[|tests| - 1].1.Table?;
      TallyTestsPasses(init);
    }
  }

  /** One component's results counted by the inner loop. */
  method CountTests(tests: Dict<Report>) returns (r: Option<Counts>)
    ensures r == TallyTests(tests)
  {
    var total: nat, passed: nat := 0, 0;
    for j := 0 to |tests|
      invariant TallyTests(tests[..j]) == Some(Counts(total, passed))
    {
      assert tests[..j + 1][..j] == tests[..j];
      var p := PassedOf(tests[j].1);
      if p.None? {
        TallyTestsDefined(tests);
        return None;
      }
      total := total + 1;
      if Truthy(p.value) {
        passed := passed + 1;
      }
    }
    assert tests[..|tests|] == tests;
    r := Some(Counts(total, passed));
  }

  /** A component's results: a dict whose every value is a dict. */
  predicate TestTable(c: Report)
  {
    c.Table? && forall j :: 0 <= j < |c.entries| ==> c.entries[j].1.Table?
  }

  /** The outer loop over the components, up to the first one that is not a
      dict of dicts. */
  function TallyComponents(components: Dict<Report>): (r: Option<Counts>)
    ensures r.Some? ==> r.value.passed <= r.value.total
  {
    if components == [] then Some(Counts(0, 0))
    else
      var init := components[..|components| - 1];
      var last := components[|components| - 1].1;
      var before := TallyComponents(init);
      if before.None? || !last.Table? then None
      else
        match TallyTests(last.entries)
        case None => None
        case Some(t) => Some(Counts(before.value.total + t.total, before.value.passed + t.passed))
  }

  /** The count succeeds exactly when every component is a dict of dicts. */
  lemma {:induction false} TallyComponentsDefined(components: Dict<Report>)
    ensures TallyComponents(components).Some? <==> forall i :: 0 <= i < |components| ==> TestTable(components[i].1)
  {
    if components != [] {
      var init := components[..|components| - 1];
      assert forall i :: 0 <= i < |init| ==> init[i] == components[i];
      TallyComponentsDefined(init);
      var last := components[|components| - 1].1;
      if last.Table? {
        TallyTestsDefined(last.entries);
      }
    }
  }

  /** The count over `unit_tests` (a value that is not a dict has no
      `.values()`). */
  function TallyUnit(unitTests: Report): (r: Option<Counts>)
    ensures r.Some? ==> unitTests.Table? && r.value.passed <= r.value.total
  {
    match unitTests
    case Scalar(_) => None
    case Table(cs) => TallyComponents(cs)
  }

  /** One more component counted: its counts add to those of the components
      before it. */
  lemma ComponentStep(components: Dict<Report>, i: int, before: Counts, t: Counts)
    requires 0 <= i < |components| && components[i].1.Table?
    requires TallyComponents(components[..i]) == Some(before)
    requires TallyTests(components[i].1.entries) == Some(t)
    ensures TallyComponents(components[..i + 1]) == Some(Counts(before.total + t.total, before.passed + t.passed))
  {
    assert components[..i + 1][..i] == components[..i];
  }

  /** `generate_test_report`'s nested counting loop; the inner loop is
      `CountTests`, whose counts are added to the running totals. */
  method CountUnitTests(unitTests: Report) returns (r: Option<Counts>)
    ensures r == TallyUnit(unitTests)
  {
    if unitTests.Scalar? {
      return None;
    }
    var components := unitTests.entries;
    var total: nat, passed: nat := 0, 0;
    for i := 0 to |components|
      invariant TallyComponents(components[..i]) == Some(Counts(total, passed))
    {
      var c := components[i].1;
      if c.Scalar? {
        TallyComponentsDefined(components);
        return None;
      }
      var counts := CountTests(c.entries);
      if counts.None? {
        TallyComponentsDefined(components);
        TallyTestsDefined(c.entries);
        return None;
      }
      ComponentStep(components, i, Counts(total, passed), counts.value);
      total, passed := total + counts.value.total, passed + counts.value.passed;
    }
    assert components[..|components|] == components;
    r := Some(Counts(total, passed));
  }

  /** The unit-test block of the summary. */
  datatype UnitSummary = UnitSummary(total: nat, passed: nat, failed: int, passRate: real)

  /** failed = total - passed; the pass rate is a percentage, 0 without
      tests. */
  function Summarize(c: Counts): (s: UnitSummary)
    ensures s.total == c.total && s.passed == c.passed && s.failed == c.total - c.passed
    ensures c.total == 0 ==> s.passRate == 0.0
    ensures c.passed <= c.total ==> s.failed >= 0 && 0.0 <= s.passRate <= 100.0
    ensures c.total > 0 ==> (s.passRate == 100.0 <==> c.passed == c.total)
    ensures c.total > 0 ==> (s.passRate == 0.0 <==> c.passed == 0)
  {
    var rate := if c.total > 0 then c.passed as real / c.total as real * 100.0 else 0.0;
    UnitSummary(c.total, c.passed, c.total - c.passed, rate)
  }

  /** `all_results.get(key, {})`. */
  function Entry(allResults: Dict<Report>, key: string): Report
  {
    Get(allResults, key).GetOr(Table([]))
  }

  /** `all_results.get('integration_tests', {}).get('passed', False)`: a
      missing suite or a missing field reads as False. */
  function IntegrationPassed(allResults: Dict<Report>): (r: Option<Report>)
    ensures "integration_tests" !in Keys(allResults) ==> r == Some(Scalar(JBool(false)))
    ensures r.Some? <==> Entry(allResults, "integration_tests").Table?
  {
    PassedField([]);
    PassedOf(Entry(allResults, "integration_tests"))
  }

  // --------------------------------------------------------- the finding

  /** The unit-test summary as written: the nested loop runs over whatever
      `main` stored under "unit_tests", which is the whole suite dict that
      the pipeline's `run_tests` returns. */
  function UnitSummaryAsWritten(allResults: Dict<Report>): (r: Option<UnitSummary>)
    ensures r.Some? <==> TallyUnit(Entry(allResults, "unit_tests")).Some?
  {
    match TallyUnit(Entry(allResults, "unit_tests"))
    case None => None
    case Some(c) => Some(Summarize(c))
  }

  /** When the stored value is `run_tests`' dict, its "integration_tests"
      entry holds a boolean `passed`; the loop calls `.get` on that boolean
      and the report raises instead of counting. */
  lemma AsWrittenReportRaises(allResults: Dict<Report>, suite: Dict<Report>, integration: Dict<Report>, b: bool)
    requires Get(allResults, "unit_tests") == Some(Table(suite))
    requires Get(suite, "integration_tests") == Some(Table(integration))
    requires Get(integration, "passed") == Some(Scalar(JBool(b)))
    ensures UnitSummaryAsWritten(allResults) == None
  {
    var i :| 0 <= i < |suite| && suite[i] == ("integration_tests", Table(integration));
    var j :| 0 <= j < |integration| && integration[j] == ("passed", Scalar(JBool(b)));
    assert !TestTable(suite[i].1);
    TallyComponentsDefined(suite);
  }

  /** The unit-test block as evidently intended: counted over the
      "unit_tests" entry of the stored suite dict, i.e. per component, per
      test. */
  function UnitTestsOf(allResults: Dict<Report>): (u: Report)
    ensures Entry(allResults, "unit_tests").Table? ==> u == Entry(Entry(allResults, "unit_tests").entries, "unit_tests")
  {
    match Entry(allResults, "unit_tests")
    case Scalar(_) => Scalar(JNull)
    case Table(suite) => Entry(suite, "unit_tests")
  }

  function UnitSummaryCorrected(allResults: Dict<Report>): (r: Option<UnitSummary>)
    ensures r.Some? <==> TallyUnit(UnitTestsOf(allResults)).Some?
    ensures r.Some? ==> 0.0 <= r.value.passRate <= 100.0 && r.value.failed >= 0
  {
    match TallyUnit(UnitTestsOf(allResults))
    case None => None
    case Some(c) => Some(Summarize(c))
  }

  /** With `run_tests`' dict stored, the corrected report counts every test
      of every component, whatever the integration results hold. */
  lemma CorrectedReportCounts(allResults: Dict<Report>, suite: Dict<Report>, components: Dict<Report>)
    requires Get(allResults, "unit_tests") == Some(Table(suite))
    requires Get(suite, "unit_tests") == Some(Table(components))
    requires forall i :: 0 <= i < |components| ==> TestTable(components[i].1)
    ensures UnitSummaryCorrected(allResults).Some?
    ensures UnitSummaryCorrected(allResults).value.total == TallyComponents(components).value.total
  {
    assert UnitTestsOf(allResults) == Table(components);
    TallyComponentsDefined(components);
  }

  /** `generate_test_report`'s unit-test summary, counted as intended. */
  method GenerateTestReport(allResults: Dict<Report>) returns (r: Option<UnitSummary>)
    ensures r == UnitSummaryCorrected(allResults)
  {
    var counts := CountUnitTests(UnitTestsOf(allResults));
    match counts
    case None => r := None;
    case Some(c) => r := Some(Summarize(c));
  }
}
