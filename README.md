# OCUnit2JUnit report parser, modelled in Dafny

OCUnit2JUnit reads the log of an `xcodebuild` / OCUnit test run and writes
one JUnit XML file per test suite. The `ReportParser` class does all the
work. It is a single-pass state machine that looks at each log line and
does one of these things:
- opens a suite;
- counts a test start;
- records a pass, a failure or an error message, including the lines
  that continue an error message;
- writes the suite's report when the suite finishes;
- remembers the exit code the process ends with.

The project has these files:

- `wrappers.dfy` defines `Option`.
- `xml_escape.dfy` defines `string_to_xml`, the four chained substitutions
  (`&`, `'`, `<`, newline). It also has a reference definition that escapes
  character by character, and a decoder.
- `assoc.dfy` models a Ruby Hash as the parser uses it: an association
  sequence kept in insertion order, which is the iteration order of a Ruby
  1.9 or later Hash. Assigning to a key that is already present replaces
  the value where it stands.
- `naming.dfy` models the display names of parameterized tests (`name`,
  `name[2]`, …) and `Integer#to_s` for counts.
- `events.dfy` models the line classifier: eight patterns tried in a fixed
  order, the first match wins. A line is given together with what each
  pattern captures from it.
- `report.dfy` builds the report text: the XML declaration, the
  `testsuite` start tag, one `testcase` per recorded result and the
  closing tag.
- `machine.dfy` defines the effect of one line on the parser's state
  (`Step`) and of a whole input (`Run`), plus the lemmas about many lines.
  A handler that raises in Ruby (a nil field, or a missing error entry)
  gives an `Aborted` outcome.
- `parser.dfy` holds the class `ReportParser`. Its fields are the Ruby
  instance variables, and its methods are the handlers and the
  `parse_input` loop. `Snapshot` reads the fields as a `Machine.State`.
  `ParseInput` is proved to leave the object in exactly the state `Run`
  computes, or to stop at the line where Ruby would raise. `Convert` is
  the script's main part.

Things the log does not contain are parameters (`Report.Env`):
- the host name;
- the rendering of the suite's elapsed time;
- the rendering of the end timestamp.

Timestamps and durations are kept as opaque captured text. A duration is printed as captured; an end timestamp is printed through `Report.Env`.

## Model

| member | source | states |
|---|---|---|
| XmlEscape.ReplaceAll | ocunit2junit.rb:185 | A global substitution of one character leaves a text that does not contain it unchanged. When the replacement does not contain the character, the result does not either. A non-empty replacement never shortens the text. |
| XmlEscape.StringToXml | ocunit2junit.rb:183-186 | `string_to_xml`, the four substitutions in the source's order. The result is never shorter than the input and holds no line break. `StringToXmlIsCharwise`, `EscapedIsInert`, `UnescapeStringToXml`, `StringToXmlFixpoint` and `EscapeLength` state the rest. |
| XmlEscape.StringToXmlIsCharwise | ocunit2junit.rb:183-186 | The four chained substitutions equal escaping each character on its own: `&`→`&amp;`, `'`→`&quot;`, `<`→`&lt;`, newline→`&#xa;`. Later steps never rewrite the entities that earlier steps produced. |
| XmlEscape.EscapedIsInert | ocunit2junit.rb:183-186 | Escaped text contains no `'`, no `<` and no newline. |
| XmlEscape.UnescapeStringToXml | ocunit2junit.rb:183-186 | Decoding the four entities recovers the input exactly, because `&` is replaced first. |
| XmlEscape.StringToXmlFixpoint | ocunit2junit.rb:183-186 | A text comes back unchanged if and only if it contains none of `&`, `'`, `<` and newline. |
| XmlEscape.EscapeLength | ocunit2junit.rb:183-186 | Escaping never shortens a text. It keeps the length exactly when no character needs escaping. |
| Assoc.Lookup | ocunit2junit.rb:159 | Hash read: a value is returned if and only if the key is present, and the value returned is stored under that key. |
| Assoc.Put | ocunit2junit.rb:188-191 | Hash write: a new key is appended at the end, and an existing key keeps its position. |
| Assoc.PutLookup | ocunit2junit.rb:188-191 | After the write, the key holds the new value and every other key holds what it held before. |
| Assoc.PutDistinct | ocunit2junit.rb:188-191 | Writes never duplicate a key, so the emission loop meets each key once. |
| Naming.NatToString | ocunit2junit.rb:123 | `Integer#to_s` of a count is a non-empty run of decimal digits without leading zeros: 0 is `0`, and any other count starts with a non-zero digit. |
| Naming.ParseNatToString | ocunit2junit.rb:123 | The rendered count reads back as the same count. |
| Naming.Decorate | ocunit2junit.rb:120-124 | The display name of occurrence N starts with the method name. It is the bare name if and only if N is 1. `DecorateShape`, `DecorateDigits` and `DecorateInjective` state the rest. |
| Naming.CurrentName | ocunit2junit.rb:127-134 | `get_test_case_method_name` returns the bare name if and only if the method's count is exactly 1; a missing count reads as 0. Otherwise it returns the name, `[`, the count's decimal digits and `]`. |
| Naming.DecorateDigits | ocunit2junit.rb:120-124 | The bracketed part of a numbered display name reads back as the occurrence number. |
| Naming.UnseenMethodName | ocunit2junit.rb:127-134 | Looking up a method that was never started gives `name[0]`, because the missing count is 0 and 0 is not 1. |
| Naming.DecorateShape | ocunit2junit.rb:120-124 | A display name is the bare name exactly for the first occurrence. Every other occurrence is the name followed by `[`. |
| Naming.DecorateInjective | ocunit2junit.rb:120-124 | Two occurrences of the same method never share a display name. |
| Events.Classify | ocunit2junit.rb:67-108 | The event carries the captures of the first matching pattern. No earlier pattern matches the line, and an unmatched line keeps its raw text. The error pattern is tried before the failed pattern. |
| Report.ReportPath | ocunit2junit.rb:148 | The report's file is `test-reports/TEST-<name>.xml`: the fixed prefix, then the raw, unescaped suite name, then `.xml`. |
| Report.SuiteInfo | ocunit2junit.rb:153 | The `testsuite` start tag begins with `errors="0"` and the failed count as `failures`, carries `tests` as the failed count plus the passed count, and ends with `">`. `Parser.ReportParser.BuildReport` and `Machine.SuiteReportCounts` state which counts go in. |
| Report.DurationText | ocunit2junit.rb:159 | `@tests_results[name].to_s`: the empty text when the name is not a results key. Otherwise it is the duration stored under that name. |
| Report.FailureXml | ocunit2junit.rb:170-173 | The `failure` element opens with `<failure message='` and ends with `</failure>` and a newline. `Report.FailureTags` shows that the escaped message and location add no markup. |
| Report.CaseClose | ocunit2junit.rb:161-175 | A `testcase` self-closes exactly when there is no error for it. Otherwise it ends with the `failure` element and `</testcase>`. |
| Report.TestCaseXml | ocunit2junit.rb:157-176 | As the source does, an element looks up its error under the escaped name. It self-closes if and only if that escaped name has no error entry; otherwise it ends with that error's `failure` element. |
| Report.CasesXml | ocunit2junit.rb:157-176 | The `testcase` elements, one per results entry, in the order of the results sequence. The text is empty if and only if there are no entries. `Report.CasesXmlSnoc` states that each entry appends its element, and `Report.CasesTags` counts the elements. |
| Report.ReportXml | ocunit2junit.rb:146-181 | Every report starts with the XML declaration and ends with `</testsuite>`. |
| Report.FailureTags | ocunit2junit.rb:170-173 | The escaped message and location add no markup: a `failure` element holds exactly two tag openers. |
| Report.TestCaseTags | ocunit2junit.rb:160-175 | What decides the element's shape is whether an error entry exists under the ESCAPED name, not whether the test passed or failed. Without such an entry the element has one tag opener. With one it has four: `testcase` and `failure`, each opened and closed. So a failed test whose name needs escaping gets one opener, and a passed test with an earlier error line under the same display name gets four. |
| Report.CasesTags | ocunit2junit.rb:157-176 | The test cases contain one `testcase` per results entry, plus one `failure` (with its closing tags) per entry that has an error. |
| Report.PlainNameLookup | ocunit2junit.rb:158-161 | For a test name with nothing to escape, the element shows the raw name with the duration and error recorded under it. |
| Report.EscapedNameLosesData | ocunit2junit.rb:158-161 | When a test name needs escaping and nothing is recorded under the escaped form, the element has an empty time and no failure, whatever was recorded under the raw name. |
| Machine.FreshSuite | ocunit2junit.rb:136-144 | A fresh suite has both counters at 0, every method's count at 0, no results, no errors, the ended flag clear and the given start time. |
| Machine.Step | ocunit2junit.rb:67-111 | One line of `parse_input`. It raises exactly in two cases. The first is a finish, start, passed, error or failed line before any suite start, because the suite fields are still nil. The second is an unclassified line while there is a continuation target, when there is no suite or the target has no error entry. |
| Machine.StepReports | ocunit2junit.rb:146-181 | A line never removes or rewrites a written report. Only a finish line can add one, and it adds at most one. |
| Machine.Run | ocunit2junit.rb:65-112 | The `each` loop of `parse_input`. A raise is reported at a line of the input. The reports already written are kept as a prefix, and there is at most one new report per line. |
| Machine.AbortIsFinal | ocunit2junit.rb:65-112 | Once a line has raised, later lines change nothing. |
| Machine.RunAppend | ocunit2junit.rb:65-112 | Parsing two inputs one after the other is the same as parsing their concatenation. |
| Machine.ErrorStep | ocunit2junit.rb:85-92 | Inside a suite, an error line leaves the state that records `[message, location]` under the method's current display name and makes that name the continuation target. The errors of every other name are unchanged. |
| Machine.ContinuationAppends | ocunit2junit.rb:85-108 | After an error line, each unclassified line is appended verbatim and in order to that test's message. The location and the rest of the state stay as the error line left them. |
| Machine.ContinuationStep | ocunit2junit.rb:197-200 | One continuation line appends its text to the target's message. |
| Machine.UnclassifiedIgnored | ocunit2junit.rb:105-110 | Without a continuation target, unclassified lines change nothing. |
| Machine.FailedLineEndsContinuation | ocunit2junit.rb:94-99 | A failed line clears the target, and the unclassified lines after it are dropped. |
| Machine.StaleTargetAfterSuiteStart | ocunit2junit.rb:136-144 | A suite start keeps the continuation target but empties `@errors`. An error line, then a suite start, then an unclassified line makes the parser raise at the third line. |
| Machine.RepeatedFinishIsNoOp | ocunit2junit.rb:146-179 | The first finish line writes a report only if the suite has not ended, and it sets the ended flag. Further finish lines change nothing. |
| Machine.ExitStep | ocunit2junit.rb:100-104 | One line sets the exit code to N for `failed with exit code N`, to -1 for `BUILD FAILED`, and otherwise leaves it. |
| Machine.ExitCodeLastWins | ocunit2junit.rb:100-104 | After a complete run, the exit code comes from the last exit-code or `BUILD FAILED` line, or is the starting value when there is none. |
| Machine.CountersCountEvents | ocunit2junit.rb:77-97 | Within a suite, the counters count events, not entries. Passed and failed grow by the number of passed and failed lines. A method's occurrence count grows by the number of its start lines, so passed, failed and error lines never change it. |
| Machine.StepCounters | ocunit2junit.rb:77-97 | One line changes the counters by its kind only. |
| Machine.ResultStep | ocunit2junit.rb:80-99 | A passed or failed line stores its duration under the current display name, and every other name keeps its duration. It increments exactly one counter. The suite's other fields stay: the method counts, errors, ended flag and start time. The exit code and reports stay too. Only a failed line clears the continuation target. |
| Machine.StartStep | ocunit2junit.rb:115-118 | A start line raises its method's count by one and changes nothing else. |
| Machine.ParameterizedTwice | ocunit2junit.rb:115-134 | A method run twice in one suite is recorded once as `name` and once as `name[2]`, and neither run overwrites the other. |
| Machine.NoFinishKeepsOpen | ocunit2junit.rb:146-150 | Inside an open suite, lines that neither start nor finish a suite keep it open and write no report. |
| Machine.FinishStep | ocunit2junit.rb:146-181 | A finish line for a suite that has not ended writes one report: the suite's `ReportXml` at `ReportPath`. |
| Machine.SuiteReportCounts | ocunit2junit.rb:146-153 | For a whole suite, from its start line to its finish line, exactly one report is written, for the suite named on the finish line. Its `failures` is the number of failed lines in between, and its `tests` is that number plus the number of passed lines in between. |
| Machine.StepKeepsConsistent | ocunit2junit.rb:188-205 | Every line keeps the results keys distinct and the number of results at most the number of pass and fail events. |
| Machine.RunKeepsConsistent | ocunit2junit.rb:62-113 | Every state a run reaches is consistent, so a report never has more `testcase` elements than its `tests` count. |
| Parser.ReportParser.constructor | ocunit2junit.rb:49-51 | The exit code starts at 0, no suite is open and no report is written yet. |
| Parser.ReportParser.GenerateTestCaseMethodName | ocunit2junit.rb:115-125 | Raises the method's count by one and leaves the other methods' counts alone. Returns the bare name exactly when the new count is 1, and `name[N]` otherwise. |
| Parser.ReportParser.HandleStartTestSuite | ocunit2junit.rb:136-144 | Resets both counters to 0, empties the three tables and clears the ended flag. The exit code and the reports already written are untouched. |
| Parser.ReportParser.HandleEndTestSuite | ocunit2junit.rb:146-181 | Writes the suite's report only while the suite has not ended, and always leaves the ended flag set. |
| Parser.ReportParser.BuildReport | ocunit2junit.rb:148-177 | The file written is `ReportXml` at `ReportPath`. Its header carries `errors="0"`, `failures` (the failed count) and `tests` (failed plus passed). |
| Parser.ReportParser.EmitTestCases | ocunit2junit.rb:157-176 | The `each` loop appends one element per results entry, in the order of the results sequence. |
| Parser.ReportParser.HandleTestPassed | ocunit2junit.rb:188-191 | Increments the passed counter and writes the duration under the name. |
| Parser.ReportParser.HandleTestError | ocunit2junit.rb:193-195 | Records, or replaces, the `[message, location]` pair under the name. |
| Parser.ReportParser.AppendTestError | ocunit2junit.rb:197-200 | Extends the recorded message in place. The location and the other entries are untouched. |
| Parser.ReportParser.HandleTestFailed | ocunit2junit.rb:202-205 | Increments the failed counter and writes the duration under the name. |
| Parser.ReportParser.ParseLine | ocunit2junit.rb:67-111 | One line either takes the object to `Step`'s next state, or raises exactly where `Step` has no next state, and then leaves the object unchanged. |
| Parser.ReportParser.ParseTestLine | ocunit2junit.rb:77-97 | The start, passed, error and failed branches inside an open suite follow `Step`. |
| Parser.ReportParser.ParseResultLine | ocunit2junit.rb:80-99 | The passed and failed branches follow `Step`. |
| Parser.ReportParser.ParseOtherLine | ocunit2junit.rb:105-108 | The continuation branch follows `Step`. It raises when the target has no error entry. |
| Parser.ReportParser.ParseInput | ocunit2junit.rb:62-113 | The loop leaves the object in the state `Run` gives. It succeeds exactly when no line raises. |
| Parser.Convert | ocunit2junit.rb:209-215 | The process status is the recorded exit code, or 1 when parsing raised. The reports are those the run wrote. |

## Left out

- Reading the input (`ARGF.read`) and echoing every line with `puts` are left out. The input is a sequence of lines, each with its terminator, because Ruby 1.8's `String#each` keeps it. The debug `puts` calls in the emission loop are also left out.
- Regular expressions are not modelled. Each line carries what each of the eight patterns captures from it, and only the order in which the patterns are tried is modelled. This covers the greedy `.*` captures and the unescaped `.` that drops the last character of a finish line's timestamp.
- The filesystem work is left out: `FileUtils.rm_rf`, `mkdir_p`, `File.open`, `<<` and `close`. A written report is a path and a text appended to `reports`, which is a log of writes rather than the final directory: when two suites share a name both reports stay in `reports`, while the source's second `File.open` with mode `w` truncates the first file and only the second survives on disk. When a finish line arrives before any suite start, the source creates an empty report file before it raises; the model records no file for that case.
- `Socket.gethostname`, `Time.parse`, time subtraction and `Time#to_s` are parameters (`Report.Env`). A timestamp that `Time.parse` rejects, which raises in the source, is not modelled. Timestamps are always taken as parsed.
- Durations (`$2.to_f`) are floating point values that are only stored and printed. They are kept as their printed text.
- Parser.Convert: returns the exit code as an integer and does not model the operating system's reduction of the status to 0–255, which turns -1 into 255.
- Parser.ReportParser.ParseLine: a raise stops the model at that line with the object as it was before the line, while Ruby's exception unwinds the whole script. Nothing after the raise is observable in either case, apart from the empty file mentioned above.
- Report.CasesTags: counts tag openers (`<`) rather than parsing the XML. It assumes durations contain no `<`, which holds for a rendered float.
- Report.CasesXml: the `testcase` elements follow the insertion order of `@tests_results`, which is how a Ruby 1.9 or later Hash iterates. Under Ruby 1.8, which the line splitting above assumes, MRI iterates a Hash in its own hash order; that order is not modelled. Parser.ReportParser.EmitTestCases inherits the same order.
