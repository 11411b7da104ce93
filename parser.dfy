/**
 * `ReportParser`: the object that reads the log line by line, keeps the
 * current suite's tables in its fields, writes a report when a suite
 * finishes, and remembers the exit code to end the process with.
 */
module Parser {
  import opened Wrappers
  import opened Events
  import opened Naming
  import opened XmlEscape
  import opened Report
  import opened Machine
  import Assoc

  class ReportParser {
    /** Host name and clock, which the source obtains from the system. */
    const env: Env

    var exitCode: int
    /** False while the suite fields below are still nil (no suite has started yet). */
    var suiteStarted: bool
    var totalFailedTestMethods: nat
    var totalPassedTestMethods: nat
    var testMethodCount: map<string, nat>
    var testsResults: seq<(string, Duration)>
    var errors: map<string, TestError>
    var endedCurrentTestSuite: bool
    var curStartTime: Time
    /** The report files written so far, in order. */
    var reports: seq<ReportFile>

    /** The suite fields as one value. */
    function CurrentSuite(): Suite
      reads this
    {
      Suite(totalFailedTestMethods, totalPassedTestMethods, testMethodCount, testsResults, errors,
            endedCurrentTestSuite, curStartTime)
    }

    /** The object's state together with `parse_input`'s local continuation target. */
    function Snapshot(failing: Option<string>): State
      reads this
    {
      State(if suiteStarted then Some(CurrentSuite()) else None, failing, exitCode, reports)
    }

    /** `initialize` up to the call of `parse_input`: exit code 0, the suite fields still nil. */
    constructor (env: Env)
      ensures this.env == env
      ensures Snapshot(None) == Initial
    {
      this.env := env;
      exitCode := 0;
      suiteStarted := false;
      reports := [];
    }

    /** `generate_test_case_method_name`: count one more start of `name` and return its display name. */
    method GenerateTestCaseMethodName(name: string) returns (display: string)
      requires suiteStarted
      modifies this`testMethodCount
      ensures testMethodCount == old(testMethodCount)[name := CountOf(old(testMethodCount), name) + 1]
      ensures display == Decorate(name, CountOf(old(testMethodCount), name) + 1)
      ensures display == name <==> name !in old(testMethodCount) || old(testMethodCount)[name] == 0
    {
      var count := CountOf(testMethodCount, name);
      count := count + 1;
      testMethodCount := testMethodCount[name := count];
      DecorateShape(name, count);
      if count == 1 {
        display := name;
      } else {
        display := name + "[" + NatToString(count) + "]";
      }
    }

    /** `handle_start_test_suite`: a fresh suite; the exit code and the written reports are kept. */
    method HandleStartTestSuite(startTime: Time)
      modifies this
      ensures suiteStarted && CurrentSuite() == FreshSuite(startTime)
      ensures totalFailedTestMethods == 0 && totalPassedTestMethods == 0
      ensures testMethodCount == map[] && testsResults == [] && errors == map[]
      ensures !endedCurrentTestSuite && curStartTime == startTime
      ensures exitCode == old(exitCode) && reports == old(reports)
    {
      totalFailedTestMethods := 0;
      totalPassedTestMethods := 0;
      testMethodCount := map[];
      testsResults := [];
      errors := map[];
      endedCurrentTestSuite := false;
      curStartTime := startTime;
      suiteStarted := true;
    }

    /**
     * `handle_end_test_suite`: unless the suite has ended already, write its
     * report, built by appending one `testcase` after another, and mark it ended.
     */
    method HandleEndTestSuite(testCaseName: string, endTime: Time)
      requires suiteStarted
      modifies this`endedCurrentTestSuite, this`reports
      ensures endedCurrentTestSuite
      ensures old(endedCurrentTestSuite) ==> reports == old(reports)
      ensures !old(endedCurrentTestSuite) ==>
        reports == old(reports) + [ReportFile(ReportPath(testCaseName),
          ReportXml(env, testCaseName, old(curStartTime), endTime, old(totalFailedTestMethods), old(totalPassedTestMethods),
                    old(testsResults), old(errors)))]
    {
      if endedCurrentTestSuite {
        return;
      }
      var report := BuildReport(testCaseName, endTime);
      reports := reports + [report];
      endedCurrentTestSuite := true;
    }

    /** The file `handle_end_test_suite` writes: its path and the document, built one `testcase` at a time. */
    method BuildReport(testCaseName: string, endTime: Time) returns (report: ReportFile)
      ensures report == ReportFile(ReportPath(testCaseName),
        ReportXml(env, testCaseName, curStartTime, endTime, totalFailedTestMethods, totalPassedTestMethods, testsResults, errors))
    {
      var path := ReportPath(testCaseName);
      var header := Header(env, testCaseName, curStartTime, endTime, totalFailedTestMethods, totalPassedTestMethods);
      var cases := EmitTestCases(StringToXml(testCaseName));
      report := ReportFile(path, header + cases + EndTag);
    }

    /** The `@tests_results.each` loop of `handle_end_test_suite`: one element per result, in the order of the results sequence. */
    method EmitTestCases(suiteName: string) returns (cases: string)
      ensures cases == CasesXml(suiteName, testsResults, testsResults, errors)
    {
      var results, errs := testsResults, errors;
      cases := "";
      var i := 0;
      while i < |results|
        invariant 0 <= i <= |results|
        invariant cases == CasesXml(suiteName, results[..i], results, errs)
      {
        CasesXmlSnoc(suiteName, results, i, results, errs);
        cases := cases + TestCaseXml(suiteName, results[i].0, results, errs);
        i := i + 1;
      }
      assert results[..i] == results;
    }

    /** `handle_test_passed`. */
    method HandleTestPassed(testMethodName: string, duration: Duration)
      requires suiteStarted
      modifies this`totalPassedTestMethods, this`testsResults
      ensures totalPassedTestMethods == old(totalPassedTestMethods) + 1
      ensures testsResults == Assoc.Put(old(testsResults), testMethodName, duration)
    {
      totalPassedTestMethods := totalPassedTestMethods + 1;
      testsResults := Assoc.Put(testsResults, testMethodName, duration);
    }

    /** `handle_test_error`: record (or replace) the test's message and location. */
    method HandleTestError(testSuite: string, testMethodName: string, message: string, location: string)
      requires suiteStarted
      modifies this`errors
      ensures errors == old(errors)[testMethodName := TestError(message, location)]
    {
      errors := errors[testMethodName := TestError(message, location)];
    }

    /** `append_test_error`: extend the recorded message; the location stays. */
    method AppendTestError(testMethodName: string, message: string)
      requires suiteStarted && testMethodName in errors
      modifies this`errors
      ensures testMethodName in errors
      ensures errors[testMethodName].message == old(errors)[testMethodName].message + message
      ensures errors[testMethodName].location == old(errors)[testMethodName].location
      ensures errors == old(errors)[testMethodName := errors[testMethodName]]
    {
      var values := errors[testMethodName];
      errors := errors[testMethodName := values.(message := values.message + message)];
    }

    /** `handle_test_failed`. */
    method HandleTestFailed(testMethodName: string, duration: Duration)
      requires suiteStarted
      modifies this`totalFailedTestMethods, this`testsResults
      ensures totalFailedTestMethods == old(totalFailedTestMethods) + 1
      ensures testsResults == Assoc.Put(old(testsResults), testMethodName, duration)
    {
      totalFailedTestMethods := totalFailedTestMethods + 1;
      testsResults := Assoc.Put(testsResults, testMethodName, duration);
    }

    /** Lines that name a test method: every one of them needs an open suite. */
    static predicate IsTestEvent(event: Event)
    {
      event.TestStarted? || event.TestPassed? || event.ErrorReported? || event.TestFailed?
    }

    /**
     * The body of `parse_input`'s loop for one classified line: call the
     * handler the line's pattern selects and update the continuation target.
     * `raised` reports that the source would raise here (a nil field or a
     * missing error entry); the object is then left as it was.
     */
    method ParseLine(event: Event, failing: Option<string>) returns (raised: bool, failing': Option<string>)
      modifies this
      ensures raised ==> Step(env, old(Snapshot(failing)), event).None? && Snapshot(failing) == old(Snapshot(failing))
      ensures !raised ==> Step(env, old(Snapshot(failing)), event) == Some(Snapshot(failing'))
    {
      ghost var before := Snapshot(failing);
      raised, failing' := false, failing;
      if IsTestEvent(event) {
        if suiteStarted {
          failing' := ParseTestLine(event, failing);
        } else {
          raised := true;
        }
        return;
      }
      match event {
        case SuiteStarted(t) =>
          HandleStartTestSuite(t);
        case SuiteFinished(name, t) =>
          if suiteStarted {
            ghost var s := CurrentSuite();
            HandleEndTestSuite(name, t);
            assert CurrentSuite() == s.(ended := true);
            assert Step(env, before, event) == Some(Snapshot(failing'));
          } else {
            raised := true;
          }
        case ExitCode(n) =>
          exitCode := n;
        case BuildFailed =>
          exitCode := -1;
        case Unclassified(text) =>
          raised := ParseOtherLine(text, failing);
      }
    }

    /**
     * Any other line: with a continuation target it is appended to that
     * test's error message (raising when there is no such entry), and
     * without one it is ignored.
     */
    method ParseOtherLine(text: string, failing: Option<string>) returns (raised: bool)
      modifies this
      ensures raised ==> Step(env, old(Snapshot(failing)), Unclassified(text)).None? && Snapshot(failing) == old(Snapshot(failing))
      ensures !raised ==> Step(env, old(Snapshot(failing)), Unclassified(text)) == Some(Snapshot(failing))
    {
      raised := false;
      if failing.Some? {
        if suiteStarted && failing.value in errors {
          ghost var s := CurrentSuite();
          ghost var e := errors[failing.value];
          AppendTestError(failing.value, text);
          assert CurrentSuite() == s.(errors := s.errors[failing.value := e.(message := e.message + text)]);
        } else {
          raised := true;
        }
      }
    }

    /** The branches of `parse_input` for a line that names a test method, inside an open suite. */
    method ParseTestLine(event: Event, failing: Option<string>) returns (failing': Option<string>)
      requires suiteStarted && IsTestEvent(event)
      modifies this
      ensures Step(env, old(Snapshot(failing)), event) == Some(Snapshot(failing'))
    {
      if event.TestPassed? || event.TestFailed? {
        failing' := ParseResultLine(event, failing);
      } else {
        ghost var before := Snapshot(failing);
        ghost var s := CurrentSuite();
        failing' := failing;
        match event {
          case TestStarted(m) =>
            var _ := GenerateTestCaseMethodName(m);
            assert CurrentSuite() == s.(methodCount := s.methodCount[m := CountOf(s.methodCount, m) + 1]);
          case ErrorReported(location, testSuite, m, message) =>
            var testMethod := CurrentName(testMethodCount, m);
            HandleTestError(testSuite, testMethod, message, location);
            failing' := Some(testMethod);
            assert CurrentSuite() == s.(errors := s.errors[testMethod := TestError(message, location)]);
        }
      }
    }

    /** The passed and failed branches: one more result under the method's current display name. */
    method ParseResultLine(event: Event, failing: Option<string>) returns (failing': Option<string>)
      requires suiteStarted && (event.TestPassed? || event.TestFailed?)
      modifies this
      ensures Step(env, old(Snapshot(failing)), event) == Some(Snapshot(failing'))
    {
      ghost var s := CurrentSuite();
      var testMethod := CurrentName(testMethodCount, event.testMethod);
      if event.TestPassed? {
        HandleTestPassed(testMethod, event.duration);
        failing' := failing;
        assert CurrentSuite() == s.(passed := s.passed + 1, results := Assoc.Put(s.results, testMethod, event.duration));
      } else {
        HandleTestFailed(testMethod, event.duration);
        failing' := None;
        assert CurrentSuite() == s.(failed := s.failed + 1, results := Assoc.Put(s.results, testMethod, event.duration));
      }
    }

    /**
     * `parse_input`: every line, in order, goes to its handler. Parsing stops
     * (`ok` false) at the first line whose handling raises; otherwise the
     * whole input is consumed. Either way the object ends in the state `Run`
     * gives.
     */
    method ParseInput(lines: seq<Line>) returns (ok: bool)
      modifies this
      ensures var out := Run(env, old(Snapshot(None)), lines);
        ok == out.Completed? && Snapshot(out.state.failing) == out.state
    {
      var currentTestThatFailed: Option<string> := None;
      ghost var start := Snapshot(None);
      var i := 0;
      while i < |lines|
        invariant 0 <= i <= |lines|
        invariant Run(env, start, lines[..i]) == Completed(Snapshot(currentTestThatFailed))
      {
        ghost var before := Snapshot(currentTestThatFailed);
        assert lines[..i + 1][..i] == lines[..i];
        var raised;
        raised, currentTestThatFailed := ParseLine(Classify(lines[i]), currentTestThatFailed);
        if raised {
          assert Run(env, start, lines[..i + 1]) == Aborted(i, before);
          AbortIsFinal(env, start, lines, i + 1);
          return false;
        }
        i := i + 1;
      }
      assert lines[..i] == lines;
      ok := true;
    }
  }

  /**
   * The script's main part: parse the whole input, then exit with the
   * recorded exit code; a handler that raises ends the process with
   * Ruby's status 1 instead.
   */
  method Convert(lines: seq<Line>, env: Env) returns (status: int, reports: seq<ReportFile>)
    ensures Run(env, Initial, lines).Completed? ==> status == Run(env, Initial, lines).state.exitCode
    ensures Run(env, Initial, lines).Aborted? ==> status == 1
    ensures reports == Run(env, Initial, lines).state.reports
  {
    var parser := new ReportParser(env);
    var ok := parser.ParseInput(lines);
    status := if ok then parser.exitCode else 1;
    reports := parser.reports;
  }
}
