/**
 * The line classifier of `parse_input`: each input line is tried against
 * eight patterns in a fixed order and the first that matches decides what
 * the line means. A line is given here together with what each pattern
 * captures from it (nothing when the pattern does not match); the order of
 * the tries is the model's business, the regular expressions are not.
 */
module Events {
  import opened Wrappers

  /** A timestamp as written after "started at" / "finished at". */
  type Time = string
  /** A test duration as the report prints it (`Float#to_s` of the captured seconds). */
  type Duration = string

  datatype ErrorCapture = ErrorCapture(location: string, suite: string, testMethod: string, message: string)

  /**
   * One input line, including its line terminator, and the captures of
   * each pattern, in the order they are tried:
   *   0 `Test Suite '…' … started at …`      (start time)
   *   1 `Test Suite '…' … finished at …`     (suite name, end time)
   *   2 `Test Case '-[… m]' started.`        (method)
   *   3 `Test Case '-[… m]' passed (d seconds)`
   *   4 `loc: error: -[suite m] : message`
   *   5 `Test Case '-[… m]' failed (d seconds)`
   *   6 `failed with exit code N`
   *   7 `BUILD FAILED`
   */
  datatype Line = Line(
    text: string,
    suiteStarted: Option<Time>,
    suiteFinished: Option<(string, Time)>,
    testStarted: Option<string>,
    testPassed: Option<(string, Duration)>,
    errorReported: Option<ErrorCapture>,
    testFailed: Option<(string, Duration)>,
    exitCode: Option<nat>,
    buildFailed: bool)

  datatype Event =
    | SuiteStarted(start: Time)
    | SuiteFinished(suite: string, end: Time)
    | TestStarted(testMethod: string)
    | TestPassed(testMethod: string, duration: Duration)
    | ErrorReported(location: string, suite: string, testMethod: string, message: string)
    | TestFailed(testMethod: string, duration: Duration)
    | ExitCode(code: nat)
    | BuildFailed
    | Unclassified(text: string)

  /** Whether pattern number `k` matches the line. */
  predicate Matches(l: Line, k: nat) {
    match k
    case 0 => l.suiteStarted.Some?
    case 1 => l.suiteFinished.Some?
    case 2 => l.testStarted.Some?
    case 3 => l.testPassed.Some?
    case 4 => l.errorReported.Some?
    case 5 => l.testFailed.Some?
    case 6 => l.exitCode.Some?
    case 7 => l.buildFailed
    case _ => false
  }

  /** The pattern number an event comes from; 8 for a line no pattern matched. */
  function Rank(e: Event): nat {
    match e
    case SuiteStarted(_) => 0
    case SuiteFinished(_, _) => 1
    case TestStarted(_) => 2
    case TestPassed(_, _) => 3
    case ErrorReported(_, _, _, _) => 4
    case TestFailed(_, _) => 5
    case ExitCode(_) => 6
    case BuildFailed => 7
    case Unclassified(_) => 8
  }

  /** The event carries exactly what its pattern captured from the line. */
  predicate Captured(l: Line, e: Event) {
    match e
    case SuiteStarted(t) => l.suiteStarted == Some(t)
    case SuiteFinished(n, t) => l.suiteFinished == Some((n, t))
    case TestStarted(m) => l.testStarted == Some(m)
    case TestPassed(m, d) => l.testPassed == Some((m, d))
    case ErrorReported(loc, s, m, msg) => l.errorReported == Some(ErrorCapture(loc, s, m, msg))
    case TestFailed(m, d) => l.testFailed == Some((m, d))
    case ExitCode(n) => l.exitCode == Some(n)
    case BuildFailed => l.buildFailed
    case Unclassified(t) => t == l.text
  }

  /** The `case` of `parse_input`: the first pattern that matches wins. */
  function Classify(l: Line): (e: Event)
    ensures Captured(l, e)
    ensures forall k :: 0 <= k < Rank(e) ==> !Matches(l, k)
    ensures Rank(e) < 8 ==> Matches(l, Rank(e))
  {
    if l.suiteStarted.Some? then SuiteStarted(l.suiteStarted.value)
    else if l.suiteFinished.Some? then SuiteFinished(l.suiteFinished.value.0, l.suiteFinished.value.1)
    else if l.testStarted.Some? then TestStarted(l.testStarted.value)
    else if l.testPassed.Some? then TestPassed(l.testPassed.value.0, l.testPassed.value.1)
    else if l.errorReported.Some? then
      var c := l.errorReported.value;
      ErrorReported(c.location, c.suite, c.testMethod, c.message)
    else if l.testFailed.Some? then TestFailed(l.testFailed.value.0, l.testFailed.value.1)
    else if l.exitCode.Some? then ExitCode(l.exitCode.value)
    else if l.buildFailed then BuildFailed
    else Unclassified(l.text)
  }
}
