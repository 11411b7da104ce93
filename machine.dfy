/**
 * The effect of one classified line on the parser's state, and of a whole
 * input. This is the specification `ReportParser.ParseInput` is proved
 * against; the lemmas state what the parser promises over many lines.
 */
module Machine {
  import opened Wrappers
  import opened Events
  import opened Naming
  import opened Report
  import Assoc

  /**
   * The per-suite fields of the parser, live from the first suite start on:
   * the failed and passed counters, `@test_method_count`, `@tests_results`,
   * `@errors`, `@ended_current_test_suite` and `@cur_start_time`.
   */
  datatype Suite = Suite(
    failed: nat,
    passed: nat,
    methodCount: map<string, nat>,
    results: seq<(string, Duration)>,
    errors: map<string, TestError>,
    ended: bool,
    startTime: Time)

  /**
   * The whole state: the suite fields (None while they are still nil, before
   * the first suite start), the continuation target `current_test_that_failed`,
   * `@exit_code`, and the reports written so far.
   */
  datatype State = State(suite: Option<Suite>, failing: Option<string>, exitCode: int, reports: seq<ReportFile>)

  /** A run either consumes every line, or stops at the line whose handling raised (Ruby then exits with status 1). */
  datatype Outcome = Completed(state: State) | Aborted(line: nat, state: State)

  /** The state when parsing begins: exit code 0, no suite, no target. */
  const Initial := State(None, None, 0, [])

  /** `handle_start_test_suite`: counters zero, tables empty, not yet ended. */
  function FreshSuite(t: Time): (s: Suite)
    ensures s.failed == 0 && s.passed == 0 && !s.ended && s.startTime == t
    ensures forall m :: CountOf(s.methodCount, m) == 0
    ensures Assoc.Keys(s.results) == [] && s.errors == map[]
  {
    Suite(0, 0, map[], [], map[], false, t)
  }

  /** One event applied to the state; None when the source raises (a nil field is used). */
  function Step(env: Env, st: State, e: Event): (r: Option<State>)
    ensures r.None? <==>
      || (st.suite.None? && (e.SuiteFinished? || e.TestStarted? || e.TestPassed? || e.ErrorReported? || e.TestFailed?))
      || (e.Unclassified? && st.failing.Some? && (st.suite.None? || st.failing.value !in st.suite.value.errors))
  {
    match e
    case SuiteStarted(t) =>
      Some(st.(suite := Some(FreshSuite(t))))
    case SuiteFinished(name, t) =>
      if st.suite.None? then None
      else
        var s := st.suite.value;
        if s.ended then Some(st)
        else
          var report := ReportFile(ReportPath(name), ReportXml(env, name, s.startTime, t, s.failed, s.passed, s.results, s.errors));
          Some(st.(suite := Some(s.(ended := true)), reports := st.reports + [report]))
    case TestStarted(m) =>
      if st.suite.None? then None
      else
        var s := st.suite.value;
        Some(st.(suite := Some(s.(methodCount := s.methodCount[m := CountOf(s.methodCount, m) + 1]))))
    case TestPassed(m, d) =>
      if st.suite.None? then None
      else
        var s := st.suite.value;
        var name := CurrentName(s.methodCount, m);
        Some(st.(suite := Some(s.(passed := s.passed + 1, results := Assoc.Put(s.results, name, d)))))
    case ErrorReported(loc, _, m, msg) =>
      if st.suite.None? then None
      else
        var s := st.suite.value;
        var name := CurrentName(s.methodCount, m);
        Some(st.(suite := Some(s.(errors := s.errors[name := TestError(msg, loc)])), failing := Some(name)))
    case TestFailed(m, d) =>
      if st.suite.None? then None
      else
        var s := st.suite.value;
        var name := CurrentName(s.methodCount, m);
        Some(st.(suite := Some(s.(failed := s.failed + 1, results := Assoc.Put(s.results, name, d))), failing := None))
    case ExitCode(n) =>
      Some(st.(exitCode := n))
    case BuildFailed =>
      Some(st.(exitCode := -1))
    case Unclassified(text) =>
      if st.failing.None? then Some(st)
      else if st.suite.None? || st.failing.value !in st.suite.value.errors then None
      else
        var s := st.suite.value;
        var name := st.failing.value;
        var e := s.errors[name];
        Some(st.(suite := Some(s.(errors := s.errors[name := e.(message := e.message + text)]))))
  }

  /** The lines applied in order, stopping at the first that raises. */
  function Run(env: Env, st: State, lines: seq<Line>): (r: Outcome)
    ensures r.Aborted? ==> r.line < |lines|
    ensures st.reports <= r.state.reports && |r.state.reports| <= |st.reports| + |lines|
    decreases |lines|
  {
    if lines == [] then Completed(st)
    else
      match Run(env, st, lines[..|lines| - 1])
      case Aborted(k, s) => Aborted(k, s)
      case Completed(s) =>
        match Step(env, s, Classify(lines[|lines| - 1]))
        case None => Aborted(|lines| - 1, s)
        case Some(s') =>
          StepReports(env, s, Classify(lines[|lines| - 1]));
          Completed(s')
  }

  /** A line never removes or rewrites a report; only a finish line adds one. */
  lemma StepReports(env: Env, st: State, e: Event)
    requires Step(env, st, e).Some?
    ensures st.reports <= Step(env, st, e).value.reports
    ensures |Step(env, st, e).value.reports| <= |st.reports| + (if e.SuiteFinished? then 1 else 0)
  {
  }

  /** Once a line has raised, later lines change nothing. */
  lemma {:induction false} AbortIsFinal(env: Env, st: State, lines: seq<Line>, k: nat)
    requires k <= |lines| && Run(env, st, lines[..k]).Aborted?
    ensures Run(env, st, lines) == Run(env, st, lines[..k])
    decreases |lines|
  {
    if k < |lines| {
      var front := lines[..|lines| - 1];
      assert front[..k] == lines[..k];
      AbortIsFinal(env, st, front, k);
    } else {
      assert lines[..k] == lines;
    }
  }

  /** Running two inputs one after the other is running their concatenation. */
  lemma {:induction false} RunAppend(env: Env, st: State, a: seq<Line>, b: seq<Line>)
    ensures Run(env, st, a + b) == match Run(env, st, a)
      case Aborted(k, s) => Aborted(k, s)
      case Completed(s) => match Run(env, s, b)
        case Aborted(k, s') => Aborted(|a| + k, s')
        case Completed(s') => Completed(s')
    decreases |b|
  {
    if b == [] {
      assert a + b == a;
    } else {
      assert (a + b)[..|a + b| - 1] == a + b[..|b| - 1];
      RunAppend(env, st, a, b[..|b| - 1]);
    }
  }

  /** The raw text of `lines`, concatenated. */
  function Texts(lines: seq<Line>): string {
    if lines == [] then "" else Texts(lines[..|lines| - 1]) + lines[|lines| - 1].text
  }

  predicate AllUnclassified(lines: seq<Line>) {
    forall i :: 0 <= i < |lines| ==> Classify(lines[i]).Unclassified?
  }

  /**
   * The state an error line leaves, with `text` appended to its message: the
   * error is recorded under the method's current display name, which becomes
   * the continuation target.
   */
  function ErrorRecorded(st: State, e: Event, text: string): State
    requires st.suite.Some? && e.ErrorReported?
  {
    var s := st.suite.value;
    var name := CurrentName(s.methodCount, e.testMethod);
    st.(suite := Some(s.(errors := s.errors[name := TestError(e.message + text, e.location)])), failing := Some(name))
  }

  /**
   * An error line inside a suite records its message and location under the
   * method's current display name and makes that name the continuation
   * target; the errors of every other name are left as they were.
   */
  lemma ErrorStep(env: Env, st: State, e: Event)
    requires st.suite.Some? && e.ErrorReported?
    ensures Step(env, st, e) == Some(ErrorRecorded(st, e, ""))
    ensures var s, s' := st.suite.value, Step(env, st, e).value.suite.value;
      var name := CurrentName(s.methodCount, e.testMethod);
      && s'.errors[name] == TestError(e.message, e.location)
      && (forall n :: n != name ==> (n in s'.errors <==> n in s.errors))
      && (forall n :: n != name && n in s.errors ==> s'.errors[n] == s.errors[n])
  {
    assert e.message + "" == e.message;
  }

  /**
   * After an error line for a test, every following unclassified line is
   * appended verbatim and in order to that test's message; the location and
   * everything else stay as the error line left them.
   */
  lemma {:induction false} ContinuationAppends(env: Env, st: State, err: Line, us: seq<Line>)
    requires st.suite.Some? && Classify(err).ErrorReported?
    requires AllUnclassified(us)
    ensures Run(env, st, [err] + us) == Completed(ErrorRecorded(st, Classify(err), Texts(us)))
    decreases |us|
  {
    if us == [] {
      assert [err] + us == [err];
      assert [err][..0] == [];
      assert Classify(err).message + Texts(us) == Classify(err).message;
    } else {
      ContinuationAppends(env, st, err, us[..|us| - 1]);
      ContinuationAppendsStep(env, st, err, us);
    }
  }

  /** The inductive step of `ContinuationAppends`: one more continuation line. */
  lemma ContinuationAppendsStep(env: Env, st: State, err: Line, us: seq<Line>)
    requires st.suite.Some? && Classify(err).ErrorReported?
    requires us != [] && AllUnclassified(us)
    requires Run(env, st, [err] + us[..|us| - 1]) == Completed(ErrorRecorded(st, Classify(err), Texts(us[..|us| - 1])))
    ensures Run(env, st, [err] + us) == Completed(ErrorRecorded(st, Classify(err), Texts(us)))
  {
    var front, u := us[..|us| - 1], us[|us| - 1];
    var all := [err] + us;
    assert all[..|all| - 1] == [err] + front;
    assert Classify(all[|all| - 1]).Unclassified?;
    ContinuationStep(env, st, Classify(err), Texts(front), u);
    assert Texts(us) == Texts(front) + u.text;
  }

  /** One continuation line: its text is appended to the target's message. */
  lemma ContinuationStep(env: Env, st: State, e: Event, text: string, u: Line)
    requires st.suite.Some? && e.ErrorReported? && Classify(u).Unclassified?
    ensures Step(env, ErrorRecorded(st, e, text), Classify(u)) == Some(ErrorRecorded(st, e, text + u.text))
  {
    var s := st.suite.value;
    var name := CurrentName(s.methodCount, e.testMethod);
    assert e.message + (text + u.text) == e.message + text + u.text;
    assert s.errors[name := TestError(e.message + text, e.location)][name := TestError(e.message + text + u.text, e.location)]
        == s.errors[name := TestError(e.message + text + u.text, e.location)];
  }

  /** Without a continuation target, unclassified lines change nothing. */
  lemma {:induction false} UnclassifiedIgnored(env: Env, st: State, us: seq<Line>)
    requires st.failing.None? && AllUnclassified(us)
    ensures Run(env, st, us) == Completed(st)
    decreases |us|
  {
    if us != [] {
      UnclassifiedIgnored(env, st, us[..|us| - 1]);
      assert Classify(us[|us| - 1]).Unclassified?;
    }
  }

  /** A failed line ends the continuation: the unclassified lines after it are dropped. */
  lemma FailedLineEndsContinuation(env: Env, st: State, f: Line, us: seq<Line>)
    requires st.suite.Some? && Classify(f).TestFailed?
    requires AllUnclassified(us)
    ensures Run(env, st, [f]).Completed?
    ensures Run(env, st, [f] + us) == Run(env, st, [f])
    ensures Run(env, st, [f]).state.failing.None?
  {
    assert [f][..0] == [];
    RunAppend(env, st, [f], us);
    UnclassifiedIgnored(env, Run(env, st, [f]).state, us);
  }

  /**
   * The continuation target outlives a new suite, but the errors table does
   * not: an unclassified line right after a suite start that follows an
   * error line makes the parser raise.
   */
  lemma StaleTargetAfterSuiteStart(env: Env, st: State, err: Line, start: Line, u: Line)
    requires st.suite.Some? && Classify(err).ErrorReported?
    requires Classify(start).SuiteStarted? && Classify(u).Unclassified?
    ensures Run(env, st, [err, start, u]).Aborted?
    ensures Run(env, st, [err, start, u]).line == 2
  {
    assert [err, start, u][..2] == [err, start];
    assert [err, start][..1] == [err];
    assert [err][..0] == [];
    assert Run(env, st, [err][..0]) == Completed(st);
    assert Step(env, st, Classify(err)).Some?;
    var s1 := Run(env, st, [err]);
    assert s1.Completed? && s1.state.failing.Some?;
    var s2 := Run(env, st, [err, start]);
    assert s2 == Completed(s1.state.(suite := Some(FreshSuite(Classify(start).start))));
    assert Step(env, s2.state, Classify(u)).None?;
  }

  predicate AllFinished(lines: seq<Line>) {
    forall i :: 0 <= i < |lines| ==> Classify(lines[i]).SuiteFinished?
  }

  /**
   * A suite's report is written once: the first finish line writes it (if
   * the suite has not ended yet) and sets the ended flag; any further finish
   * lines change nothing.
   */
  lemma {:induction false} RepeatedFinishIsNoOp(env: Env, st: State, f: Line, fs: seq<Line>)
    requires st.suite.Some? && Classify(f).SuiteFinished? && AllFinished(fs)
    ensures Run(env, st, [f]).Completed?
    ensures Run(env, st, [f] + fs) == Run(env, st, [f])
    ensures var after := Run(env, st, [f]).state;
      after.suite.Some? && after.suite.value.ended
      && |after.reports| == |st.reports| + (if st.suite.value.ended then 0 else 1)
    decreases |fs|
  {
    assert [f][..0] == [];
    if fs != [] {
      var front := fs[..|fs| - 1];
      assert ([f] + fs)[..|fs|] == [f] + front;
      assert ([f] + fs)[|fs|] == fs[|fs| - 1];
      assert Classify(fs[|fs| - 1]).SuiteFinished?;
      RepeatedFinishIsNoOp(env, st, f, front);
    }
  }

  /** The exit code a line sets, if it is an exit-code or BUILD FAILED line. */
  function ExitSetting(l: Line): Option<int> {
    match Classify(l)
    case ExitCode(n) => Some(n as int)
    case BuildFailed => Some(-1)
    case _ => None
  }

  /** One line's effect on the exit code. */
  lemma ExitStep(env: Env, st: State, l: Line)
    requires Step(env, st, Classify(l)).Some?
    ensures Step(env, st, Classify(l)).value.exitCode == ExitSetting(l).GetOr(st.exitCode)
  {
  }

  /**
   * Last write wins: after a complete run the exit code is the one set by
   * the last exit-code or BUILD FAILED line, or the starting value when
   * there is none.
   */
  lemma {:induction false} ExitCodeLastWins(env: Env, st: State, lines: seq<Line>)
    requires Run(env, st, lines).Completed?
    ensures (forall i :: 0 <= i < |lines| ==> ExitSetting(lines[i]).None?) ==> Run(env, st, lines).state.exitCode == st.exitCode
    ensures forall i :: 0 <= i < |lines| && ExitSetting(lines[i]).Some?
                        && (forall j :: i < j < |lines| ==> ExitSetting(lines[j]).None?)
                        ==> Run(env, st, lines).state.exitCode == ExitSetting(lines[i]).value
    decreases |lines|
  {
    if lines != [] {
      var front, last := lines[..|lines| - 1], lines[|lines| - 1];
      ExitCodeLastWins(env, st, front);
      ExitStep(env, Run(env, st, front).state, last);
      forall i | 0 <= i < |lines| && ExitSetting(lines[i]).Some?
                 && (forall j :: i < j < |lines| ==> ExitSetting(lines[j]).None?)
        ensures Run(env, st, lines).state.exitCode == ExitSetting(lines[i]).value
      {
        if i < |lines| - 1 {
          assert ExitSetting(last).None?;
          assert front[i] == lines[i];
          assert forall j :: i < j < |front| ==> ExitSetting(front[j]).None? by {
            forall j | i < j < |front| ensures ExitSetting(front[j]).None? {
              assert front[j] == lines[j];
            }
          }
        }
      }
      if forall i :: 0 <= i < |lines| ==> ExitSetting(lines[i]).None? {
        assert forall i :: 0 <= i < |front| ==> ExitSetting(front[i]).None? by {
          forall i | 0 <= i < |front| ensures ExitSetting(front[i]).None? {
            assert front[i] == lines[i];
          }
        }
        assert ExitSetting(last).None?;
      }
    }
  }

  /** How many of `lines` classify with pattern number `k`. */
  function CountRank(lines: seq<Line>, k: nat): nat {
    if lines == [] then 0
    else CountRank(lines[..|lines| - 1], k) + (if Rank(Classify(lines[|lines| - 1])) == k then 1 else 0)
  }

  /** How many of `lines` start method `m`. */
  function StartsOf(lines: seq<Line>, m: string): nat {
    if lines == [] then 0
    else StartsOf(lines[..|lines| - 1], m) + (if Classify(lines[|lines| - 1]) == TestStarted(m) then 1 else 0)
  }

  predicate NoSuiteStart(lines: seq<Line>) {
    forall i :: 0 <= i < |lines| ==> !Classify(lines[i]).SuiteStarted?
  }

  /**
   * Within a suite the counters count events, not entries: the passed and
   * failed counters grow by the number of passed and failed lines, and a
   * method's occurrence count by the number of its start lines.
   */
  lemma {:induction false} CountersCountEvents(env: Env, st: State, lines: seq<Line>, m: string)
    requires st.suite.Some? && NoSuiteStart(lines) && Run(env, st, lines).Completed?
    ensures var after := Run(env, st, lines).state;
      && after.suite.Some?
      && after.suite.value.passed == st.suite.value.passed + CountRank(lines, 3)
      && after.suite.value.failed == st.suite.value.failed + CountRank(lines, 5)
      && CountOf(after.suite.value.methodCount, m) == CountOf(st.suite.value.methodCount, m) + StartsOf(lines, m)
      && after.suite.value.startTime == st.suite.value.startTime
    decreases |lines|
  {
    if lines != [] {
      var front := lines[..|lines| - 1];
      assert NoSuiteStart(front) by {
        forall i | 0 <= i < |front| ensures !Classify(front[i]).SuiteStarted? {
          assert front[i] == lines[i];
        }
      }
      CountersCountEvents(env, st, front, m);
      var last := Classify(lines[|lines| - 1]);
      assert !last.SuiteStarted?;
      StepCounters(env, Run(env, st, front).state, last, m);
    }
  }

  /** One line of `CountersCountEvents`. */
  lemma StepCounters(env: Env, st: State, e: Event, m: string)
    requires st.suite.Some? && !e.SuiteStarted? && Step(env, st, e).Some?
    ensures var after := Step(env, st, e).value;
      && after.suite.Some?
      && after.suite.value.passed == st.suite.value.passed + (if Rank(e) == 3 then 1 else 0)
      && after.suite.value.failed == st.suite.value.failed + (if Rank(e) == 5 then 1 else 0)
      && CountOf(after.suite.value.methodCount, m) == CountOf(st.suite.value.methodCount, m) + (if e == TestStarted(m) then 1 else 0)
      && after.suite.value.startTime == st.suite.value.startTime
  {
  }

  /**
   * A passed or failed line records its duration under the method's current
   * display name (other names keep theirs), counts one more pass or failure
   * and nothing else; only a failed line clears the continuation target.
   */
  lemma ResultStep(env: Env, st: State, e: Event, other: string)
    requires st.suite.Some? && (e.TestPassed? || e.TestFailed?)
    ensures Step(env, st, e).Some?
    ensures var s, s' := st.suite.value, Step(env, st, e).value.suite.value;
      var name := CurrentName(s.methodCount, e.testMethod);
      && Assoc.Lookup(s'.results, name) == Some(e.duration)
      && (other != name ==> Assoc.Lookup(s'.results, other) == Assoc.Lookup(s.results, other))
      && s'.passed == s.passed + (if e.TestPassed? then 1 else 0)
      && s'.failed == s.failed + (if e.TestFailed? then 1 else 0)
      && s'.methodCount == s.methodCount && s'.errors == s.errors
      && s' == s.(passed := s'.passed, failed := s'.failed, results := s'.results)
    ensures Step(env, st, e).value.failing == if e.TestFailed? then None else st.failing
    ensures Step(env, st, e).value == st.(suite := Step(env, st, e).value.suite, failing := Step(env, st, e).value.failing)
  {
    var s := st.suite.value;
    Assoc.PutLookup(s.results, CurrentName(s.methodCount, e.testMethod), e.duration, other);
  }

  /**
   * A parameterized method run twice in one suite: the first run is recorded
   * under the bare name, the second under `name[2]`, and neither overwrites
   * the other.
   */
  lemma ParameterizedTwice(env: Env, st: State, m: string, d1: Duration, d2: Duration)
    requires st.suite.Some? && m !in st.suite.value.methodCount
    ensures var s1 := Step(env, st, TestStarted(m)).value;
      var s2 := Step(env, s1, TestPassed(m, d1)).value;
      var s3 := Step(env, s2, TestStarted(m)).value;
      var s4 := Step(env, s3, TestFailed(m, d2)).value;
      && Assoc.Lookup(s4.suite.value.results, m) == Some(d1)
      && Assoc.Lookup(s4.suite.value.results, m + "[2]") == Some(d2)
      && s4.suite.value.passed == st.suite.value.passed + 1
      && s4.suite.value.failed == st.suite.value.failed + 1
  {
    var s1 := Step(env, st, TestStarted(m)).value;
    StartStep(env, st, m);
    var s2 := Step(env, s1, TestPassed(m, d1)).value;
    ResultStep(env, s1, TestPassed(m, d1), m);
    var s3 := Step(env, s2, TestStarted(m)).value;
    StartStep(env, s2, m);
    assert CurrentName(s3.suite.value.methodCount, m) == m + "[2]" by {
      assert NatToString(2) == "2";
    }
    assert m + "[2]" != m by {
      assert |m + "[2]"| == |m| + 3;
    }
    ResultStep(env, s3, TestFailed(m, d2), m);
  }

  /** A start line counts one more start of its method and changes nothing else. */
  lemma StartStep(env: Env, st: State, m: string)
    requires st.suite.Some?
    ensures Step(env, st, TestStarted(m)).Some?
    ensures var s, s' := st.suite.value, Step(env, st, TestStarted(m)).value.suite.value;
      && s'.methodCount == s.methodCount[m := CountOf(s.methodCount, m) + 1]
      && s' == s.(methodCount := s'.methodCount)
    ensures Step(env, st, TestStarted(m)).value == st.(suite := Step(env, st, TestStarted(m)).value.suite)
  {
  }

  predicate NoSuiteFinish(lines: seq<Line>) {
    forall i :: 0 <= i < |lines| ==> !Classify(lines[i]).SuiteFinished?
  }

  /** Inside an open suite, lines that neither start nor finish a suite keep it open and write no report. */
  lemma {:induction false} NoFinishKeepsOpen(env: Env, st: State, lines: seq<Line>)
    requires st.suite.Some? && !st.suite.value.ended
    requires NoSuiteStart(lines) && NoSuiteFinish(lines) && Run(env, st, lines).Completed?
    ensures var after := Run(env, st, lines).state;
      after.suite.Some? && !after.suite.value.ended && after.reports == st.reports
    decreases |lines|
  {
    if lines != [] {
      var front := lines[..|lines| - 1];
      assert NoSuiteStart(front) && NoSuiteFinish(front) by {
        forall i | 0 <= i < |front| ensures !Classify(front[i]).SuiteStarted? && !Classify(front[i]).SuiteFinished? {
          assert front[i] == lines[i];
        }
      }
      NoFinishKeepsOpen(env, st, front);
    }
  }

  /**
   * A whole suite, from its start line to its finish line: exactly one
   * report is written, for the suite named on the finish line, and its
   * counters are the number of failed lines in between and the number of
   * passed lines in between (the header's tests attribute is their sum).
   */
  lemma SuiteReportCounts(env: Env, st: State, start: Line, body: seq<Line>, fin: Line)
    requires Classify(start).SuiteStarted? && Classify(fin).SuiteFinished?
    requires NoSuiteStart(body) && NoSuiteFinish(body)
    requires Run(env, st, [start] + body + [fin]).Completed?
    ensures Run(env, st, [start] + body).Completed? && Run(env, st, [start] + body).state.suite.Some?
    ensures var before := Run(env, st, [start] + body).state.suite.value;
      var f := Classify(fin);
      Run(env, st, [start] + body + [fin]).state.reports
        == st.reports + [ReportFile(ReportPath(f.suite), ReportXml(env, f.suite, Classify(start).start, f.end,
                                    CountRank(body, 5), CountRank(body, 3), before.results, before.errors))]
  {
    var s0 := st.(suite := Some(FreshSuite(Classify(start).start)));
    RunSnoc(env, st, [start] + body, fin);
    StartThen(env, st, start, body);
    var mid := Run(env, s0, body).state;
    assert Run(env, st, [start] + body) == Completed(mid);
    CountersCountEvents(env, s0, body, "");
    NoFinishKeepsOpen(env, s0, body);
    assert mid.suite.value.failed == CountRank(body, 5) && mid.suite.value.passed == CountRank(body, 3);
    assert mid.suite.value.startTime == Classify(start).start;
    FinishStep(env, mid, Classify(fin));
  }

  /** One more line at the end of the input is one more step, unless the input has already stopped. */
  lemma RunSnoc(env: Env, st: State, front: seq<Line>, l: Line)
    ensures Run(env, st, front + [l]) == match Run(env, st, front)
      case Aborted(k, s) => Aborted(k, s)
      case Completed(s) => match Step(env, s, Classify(l))
        case None => Aborted(|front|, s)
        case Some(s') => Completed(s')
  {
    var all := front + [l];
    assert all[..|all| - 1] == front;
  }

  /** After a start line that does not raise, the rest of the input runs on a fresh suite. */
  lemma StartThen(env: Env, st: State, start: Line, body: seq<Line>)
    requires Classify(start).SuiteStarted?
    ensures Run(env, st, [start] + body).Completed? <==> Run(env, st.(suite := Some(FreshSuite(Classify(start).start))), body).Completed?
    ensures Run(env, st, [start] + body).Completed? ==>
      Run(env, st, [start] + body) == Run(env, st.(suite := Some(FreshSuite(Classify(start).start))), body)
  {
    assert [start][..0] == [];
    RunAppend(env, st, [start], body);
  }

  /** A finish line for a suite that has not ended writes its report and marks it ended. */
  lemma FinishStep(env: Env, st: State, e: Event)
    requires st.suite.Some? && !st.suite.value.ended && e.SuiteFinished?
    ensures Step(env, st, e).Some?
    ensures var s := st.suite.value;
      Step(env, st, e).value.reports
        == st.reports + [ReportFile(ReportPath(e.suite), ReportXml(env, e.suite, s.startTime, e.end, s.failed, s.passed, s.results, s.errors))]
  {
  }

  /** What every reachable state satisfies: no duplicate result names, and no more results than pass/fail events. */
  predicate Consistent(st: State) {
    st.suite.Some? ==>
      && Assoc.Distinct(Assoc.Keys(st.suite.value.results))
      && |st.suite.value.results| <= st.suite.value.failed + st.suite.value.passed
  }

  lemma StepKeepsConsistent(env: Env, st: State, e: Event)
    requires Consistent(st) && Step(env, st, e).Some?
    ensures Consistent(Step(env, st, e).value)
  {
    match e
    case TestPassed(m, d) =>
      var s := st.suite.value;
      Assoc.PutDistinct(s.results, CurrentName(s.methodCount, m), d);
    case TestFailed(m, d) =>
      var s := st.suite.value;
      Assoc.PutDistinct(s.results, CurrentName(s.methodCount, m), d);
    case _ =>
  }

  /** Every state a run passes through is consistent, so a report has at most `tests` test cases, each named once. */
  lemma {:induction false} RunKeepsConsistent(env: Env, st: State, lines: seq<Line>)
    requires Consistent(st)
    ensures Consistent(Run(env, st, lines).state)
    decreases |lines|
  {
    if lines != [] {
      RunKeepsConsistent(env, st, lines[..|lines| - 1]);
      if Run(env, st, lines[..|lines| - 1]).Completed? {
        var s := Run(env, st, lines[..|lines| - 1]).state;
        var e := Classify(lines[|lines| - 1]);
        if Step(env, s, e).Some? {
          StepKeepsConsistent(env, s, e);
        }
      }
    }
  }
}
