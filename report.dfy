/**
 * The JUnit report `handle_end_test_suite` writes for a suite: the XML
 * declaration, a `testsuite` start tag with the suite's counters, one
 * `testcase` per recorded result, and the closing tag. The text is
 * returned instead of written to `test-reports/TEST-<suite>.xml`.
 */
module Report {
  import opened Wrappers
  import opened XmlEscape
  import opened Naming
  import opened Events
  import Assoc

  /** The output directory, a constant of the script. */
  const TestReportsFolder := "test-reports"

  const Declaration := "<?xml version='1.0' encoding='UTF-8' ?>\n"
  const EndTag := "</testsuite>\n"

  /** `@errors[name]`: the `[message, location]` pair of a failing test. */
  datatype TestError = TestError(message: string, location: string)

  /**
   * What the report takes from outside the log: the machine's host name,
   * the suite's elapsed time rendered from its start and end timestamps
   * (`(end_time - start_time).to_s`), and the end timestamp as `Time#to_s`
   * renders it.
   */
  datatype Env = Env(hostName: string, elapsed: (Time, Time) -> string, timeText: Time -> string)

  datatype ReportFile = ReportFile(path: string, content: string)

  /** The file a suite's report goes to; it carries the raw, unescaped suite name. */
  function ReportPath(suiteName: string): (p: string)
    ensures |p| == |TestReportsFolder| + 6 + |suiteName| + 4
    ensures p[..|TestReportsFolder| + 6] == TestReportsFolder + "/TEST-"
    ensures p[|TestReportsFolder| + 6..|p| - 4] == suiteName
    ensures p[|p| - 4..] == ".xml"
  {
    TestReportsFolder + "/TEST-" + suiteName + ".xml"
  }

  /** The `testsuite` start tag; its `tests` attribute is the sum of the two counters. */
  function SuiteInfo(env: Env, suiteName: string, startTime: Time, endTime: Time, failed: nat, passed: nat): (r: string)
    ensures StartsWith(r, "<testsuite errors=\"0\" failures=\"" + NatToString(failed) + "\"")
    ensures Occurs(r, " tests=\"" + NatToString(failed + passed) + "\"")
    ensures EndsWith(r, "\">")
  {
    var counts := "<testsuite errors=\"0\" failures=\"" + NatToString(failed) + "\"";
    var names := " hostname=\"" + StringToXml(env.hostName) + "\" name=\"" + StringToXml(suiteName) + "\"";
    var tests := " tests=\"" + NatToString(failed + passed) + "\"";
    var times := " time=\"" + env.elapsed(startTime, endTime) + "\" timestamp=\"" + env.timeText(endTime) + "\">";
    Framed(counts, names, tests, times);
    OccursInMiddle(counts + names, tests, times);
    counts + names + tests + times
  }

  /** `t` occurs in `s` starting at index `i`. */
  predicate OccursAt(s: string, t: string, i: nat) {
    i + |t| <= |s| && s[i..i + |t|] == t
  }

  ghost predicate Occurs(s: string, t: string) {
    exists i: nat :: OccursAt(s, t, i)
  }

  lemma OccursInMiddle(a: string, b: string, c: string)
    ensures OccursAt(a + b + c, b, |a|)
  {
    assert (a + b + c)[|a|..|a| + |b|] == b;
  }

  /** `@tests_results[name].to_s`: the duration recorded under `name`, or "" when there is none. */
  function DurationText(results: seq<(string, Duration)>, name: string): (r: string)
    ensures name !in Assoc.Keys(results) ==> r == ""
    ensures name in Assoc.Keys(results) ==> exists i :: 0 <= i < |results| && results[i] == (name, r)
  {
    Assoc.Lookup(results, name).GetOr("")
  }

  predicate EndsWith(s: string, suffix: string) {
    |suffix| <= |s| && s[|s| - |suffix|..] == suffix
  }

  lemma EndsWithAppend(a: string, b: string, suffix: string)
    requires |suffix| <= |b|
    ensures EndsWith(a + b, suffix) <==> EndsWith(b, suffix)
  {
    assert (a + b)[|a + b| - |suffix|..] == b[|b| - |suffix|..];
  }

  /** `<testcase classname='…' name='…' time='…'`, up to the end of the start tag. */
  function CaseOpen(escSuite: string, name: string, time: string): string {
    "<testcase classname='" + escSuite + "' name='" + name + "' time='" + time + "'"
  }

  /** The `failure` child: the escaped message in an attribute, the escaped location as its text. */
  function FailureXml(e: TestError): (r: string)
    ensures StartsWith(r, "<failure message='") && EndsWith(r, "</failure>\n")
  {
    var message := StringToXml(e.message) + "' type='Failure'>";
    Framed("<failure message='", message, StringToXml(e.location), "</failure>\n");
    "<failure message='" + message + StringToXml(e.location) + "</failure>\n"
  }

  /** The rest of a `testcase`: self-closing without an error, a `failure` child with one. */
  function CaseClose(error: Option<TestError>): (r: string)
    ensures error.None? <==> EndsWith(r, " />\n")
    ensures error.Some? ==> EndsWith(r, FailureXml(error.value) + "</testcase>\n")
  {
    match error
    case None => " />\n"
    case Some(e) =>
      ClosedByEndTag(FailureXml(e));
      ">\n" + FailureXml(e) + "</testcase>\n"
  }

  /** A `testcase` closed by its end tag does not end like a self-closing one. */
  lemma ClosedByEndTag(body: string)
    ensures !EndsWith(">\n" + body + "</testcase>\n", " />\n")
    ensures EndsWith(">\n" + body + "</testcase>\n", body + "</testcase>\n")
  {
    var tail := "</testcase>\n";
    assert ">\n" + body + tail == (">\n" + body) + tail == ">\n" + (body + tail);
    EndsWithAppend(">\n" + body, tail, " />\n");
    assert tail[|tail| - 4] == 's';
    EndsWithAppend(">\n", body + tail, body + tail);
    assert (body + tail)[|body + tail| - |body + tail|..] == body + tail;
  }

  /** `@errors[name]`, nil when absent. */
  function ErrorFor(errors: map<string, TestError>, name: string): Option<TestError> {
    if name in errors then Some(errors[name]) else None
  }

  /**
   * The element for the result recorded under `key`. As in the source, the
   * duration and the error are looked up under the ESCAPED name.
   */
  function TestCaseXml(escSuite: string, key: string, results: seq<(string, Duration)>, errors: map<string, TestError>): (r: string)
    ensures StringToXml(key) !in errors <==> EndsWith(r, " />\n")
    ensures StringToXml(key) in errors ==> EndsWith(r, FailureXml(errors[StringToXml(key)]) + "</testcase>\n")
  {
    var name := StringToXml(key);
    var open := CaseOpen(escSuite, name, DurationText(results, name));
    var close := CaseClose(ErrorFor(errors, name));
    EndsWithAppend(open, close, " />\n");
    if name in errors then
      EndsWithAppend(open, close, FailureXml(errors[name]) + "</testcase>\n");
      open + close
    else
      open + close
  }

  /** The `testcase` elements for `entries`, in their order. */
  function CasesXml(escSuite: string, entries: seq<(string, Duration)>, results: seq<(string, Duration)>, errors: map<string, TestError>): (r: string)
    ensures r == [] <==> entries == []
  {
    if entries == [] then ""
    else CasesXml(escSuite, entries[..|entries| - 1], results, errors)
         + TestCaseXml(escSuite, entries[|entries| - 1].0, results, errors)
  }

  lemma CasesXmlSnoc(escSuite: string, entries: seq<(string, Duration)>, k: nat, results: seq<(string, Duration)>, errors: map<string, TestError>)
    requires k < |entries|
    ensures CasesXml(escSuite, entries[..k + 1], results, errors)
         == CasesXml(escSuite, entries[..k], results, errors) + TestCaseXml(escSuite, entries[k].0, results, errors)
  {
    assert entries[..k + 1][..k] == entries[..k];
  }

  /** The whole report of a suite: a document with the declaration first and the closing `testsuite` tag last. */
  function ReportXml(env: Env, suiteName: string, startTime: Time, endTime: Time, failed: nat, passed: nat,
                     results: seq<(string, Duration)>, errors: map<string, TestError>): (r: string)
    ensures StartsWith(r, Declaration) && EndsWith(r, EndTag)
  {
    var info := SuiteInfo(env, suiteName, startTime, endTime, failed, passed);
    var cases := CasesXml(StringToXml(suiteName), results, results, errors);
    Framed(Declaration, info, cases, EndTag);
    Header(env, suiteName, startTime, endTime, failed, passed) + cases + EndTag
  }

  /** The XML declaration followed by the `testsuite` start tag. */
  function Header(env: Env, suiteName: string, startTime: Time, endTime: Time, failed: nat, passed: nat): string {
    Declaration + SuiteInfo(env, suiteName, startTime, endTime, failed, passed)
  }

  predicate StartsWith(s: string, prefix: string) {
    |prefix| <= |s| && s[..|prefix|] == prefix
  }

  /** A text of four parts starts with the first and ends with the last. */
  lemma Framed(a: string, b: string, c: string, d: string)
    ensures StartsWith(a + b + c + d, a) && EndsWith(a + b + c + d, d)
  {
    assert (a + b + c + d)[..|a|] == a;
    assert (a + b + c + d)[|a + b + c + d| - |d|..] == d;
  }

  /** How many tag openers `<` a text holds. */
  function Tags(s: string): nat {
    if s == [] then 0 else Tags(s[..|s| - 1]) + (if s[|s| - 1] == '<' then 1 else 0)
  }

  /** How many of `entries` have an error recorded under their escaped name. */
  function FailingCount(entries: seq<(string, Duration)>, errors: map<string, TestError>): (n: nat)
    ensures n <= |entries|
  {
    if entries == [] then 0
    else FailingCount(entries[..|entries| - 1], errors)
         + (if StringToXml(entries[|entries| - 1].0) in errors then 1 else 0)
  }

  lemma {:induction false} TagsAppend(a: string, b: string)
    ensures Tags(a + b) == Tags(a) + Tags(b)
  {
    if b == [] {
      assert a + b == a;
    } else {
      assert (a + b)[..|a + b| - 1] == a + b[..|b| - 1];
      TagsAppend(a, b[..|b| - 1]);
    }
  }

  lemma {:induction false} NoTags(s: string)
    requires '<' !in s
    ensures Tags(s) == 0
  {
    if s != [] {
      assert s[|s| - 1] in s;
      NoTags(s[..|s| - 1]);
    }
  }

  lemma OneTag(s: string)
    requires |s| > 0 && s[0] == '<' && '<' !in s[1..]
    ensures Tags(s) == 1
  {
    assert s == [s[0]] + s[1..];
    TagsAppend([s[0]], s[1..]);
  }

  lemma InertNoTags(s: string)
    requires Inert(s)
    ensures Tags(s) == 0
  {
    NoTags(s);
  }

  /** No recorded duration text contains `<` (a rendered float never does). */
  predicate PlainDurations(results: seq<(string, Duration)>) {
    forall i :: 0 <= i < |results| ==> '<' !in results[i].1
  }

  lemma CaseOpenTags(escSuite: string, name: string, time: string)
    requires Tags(escSuite) == 0 && Tags(name) == 0 && Tags(time) == 0
    ensures Tags(CaseOpen(escSuite, name, time)) == 1
  {
    var p1, p2, p3, p4 := "<testcase classname='", "' name='", "' time='", "'";
    OneTag(p1);
    NoTags(p2);
    NoTags(p3);
    NoTags(p4);
    TagsAppend(p1, escSuite);
    TagsAppend(p1 + escSuite, p2);
    TagsAppend(p1 + escSuite + p2, name);
    TagsAppend(p1 + escSuite + p2 + name, p3);
    TagsAppend(p1 + escSuite + p2 + name + p3, time);
    TagsAppend(p1 + escSuite + p2 + name + p3 + time, p4);
  }

  lemma FailureTags(e: TestError)
    ensures Tags(FailureXml(e)) == 2
  {
    EscapedIsInert(e.message);
    EscapedIsInert(e.location);
    InertNoTags(StringToXml(e.message));
    InertNoTags(StringToXml(e.location));
    FailureLiteralTags();
    var message := StringToXml(e.message) + "' type='Failure'>";
    TagsAppend(StringToXml(e.message), "' type='Failure'>");
    TagsAppend("<failure message='", message);
    TagsAppend("<failure message='" + message, StringToXml(e.location));
    TagsAppend("<failure message='" + message + StringToXml(e.location), "</failure>\n");
  }

  lemma FailureLiteralTags()
    ensures Tags("<failure message='") == 1 && Tags("' type='Failure'>") == 0 && Tags("</failure>\n") == 1
  {
    OneTag("<failure message='");
    NoTags("' type='Failure'>");
    OneTag("</failure>\n");
  }

  lemma CaseCloseTags(error: Option<TestError>)
    ensures Tags(CaseClose(error)) == if error.Some? then 3 else 0
  {
    match error
    case None =>
      NoTags(" />\n");
    case Some(e) =>
      FailureTags(e);
      NoTags(">\n");
      OneTag("</testcase>\n");
      TagsAppend(">\n", FailureXml(e));
      TagsAppend(">\n" + FailureXml(e), "</testcase>\n");
  }

  /**
   * The element's shape depends on whether an error is recorded under the
   * ESCAPED name, not on whether the test passed or failed: without one it is
   * a single self-closing `testcase`; with one it is `testcase` and `failure`,
   * each opened and closed. A failed test whose name needs escaping thus gets
   * one tag opener, and a passed test with an earlier error line gets four.
   */
  lemma TestCaseTags(escSuite: string, key: string, results: seq<(string, Duration)>, errors: map<string, TestError>)
    requires Inert(escSuite) && PlainDurations(results)
    ensures Tags(TestCaseXml(escSuite, key, results, errors)) == if StringToXml(key) in errors then 4 else 1
  {
    var name := StringToXml(key);
    var d := DurationText(results, name);
    EscapedIsInert(key);
    InertNoTags(escSuite);
    InertNoTags(name);
    if Assoc.Lookup(results, name).Some? {
      var i :| 0 <= i < |results| && results[i] == (name, Assoc.Lookup(results, name).value);
      assert '<' !in results[i].1;
    }
    NoTags(d);
    CaseOpenTags(escSuite, name, d);
    CaseCloseTags(ErrorFor(errors, name));
    TagsAppend(CaseOpen(escSuite, name, d), CaseClose(ErrorFor(errors, name)));
  }

  /**
   * One `testcase` element per entry, and one `failure` element inside each
   * entry that has an error under its escaped name: every element opens
   * with `<` and the escaped texts contain none.
   */
  lemma {:induction false} CasesTags(escSuite: string, entries: seq<(string, Duration)>, results: seq<(string, Duration)>, errors: map<string, TestError>)
    requires Inert(escSuite) && PlainDurations(results)
    ensures Tags(CasesXml(escSuite, entries, results, errors)) == |entries| + 3 * FailingCount(entries, errors)
  {
    if entries != [] {
      var front, last := entries[..|entries| - 1], entries[|entries| - 1];
      CasesTags(escSuite, front, results, errors);
      TestCaseTags(escSuite, last.0, results, errors);
      TagsAppend(CasesXml(escSuite, front, results, errors), TestCaseXml(escSuite, last.0, results, errors));
    }
  }

  /** For a name that needs no escaping, the element names the test by its raw name and shows what was recorded under it. */
  lemma PlainNameLookup(escSuite: string, key: string, results: seq<(string, Duration)>, errors: map<string, TestError>)
    requires forall i :: 0 <= i < |key| ==> !Special(key[i])
    ensures TestCaseXml(escSuite, key, results, errors)
         == CaseOpen(escSuite, key, DurationText(results, key)) + CaseClose(ErrorFor(errors, key))
  {
    StringToXmlFixpoint(key);
  }

  /**
   * A name that needs escaping loses its data: when its escaped form is
   * neither a result key nor an error key, the element has an empty time
   * and no failure, whatever was recorded under the raw name.
   */
  lemma EscapedNameLosesData(escSuite: string, key: string, results: seq<(string, Duration)>, errors: map<string, TestError>)
    requires exists i :: 0 <= i < |key| && Special(key[i])
    requires StringToXml(key) !in Assoc.Keys(results) && StringToXml(key) !in errors
    ensures StringToXml(key) != key
    ensures TestCaseXml(escSuite, key, results, errors) == CaseOpen(escSuite, StringToXml(key), "") + " />\n"
  {
    StringToXmlFixpoint(key);
  }
}
