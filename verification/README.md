# purpleteam TLS tester — a Dafny model of its scan-session logic

The purpleteam TLS tester receives a test job from the orchestrator. It records the job's
system-under-test (SUT) properties, then starts a cucumber run whose steps drive `testssl.sh`
against the SUT. While the scan runs, the steps relay the scanner's output to the orchestrator:
a percent-complete value per output chunk, each completed line after the banner, the running
vulnerability count, and a heartbeat. When the scanner exits, the html, json and log reports are
rebranded. A final step fails the session when the number of alerts exceeds the job's threshold.

The model has one module per source file, plus four helper modules:

- `Tls` (`tls.dfy`) covers `src/api/tls/models/tls.js` and `tls.cuc.js`. Class `Tls` holds the
  four-entry status map (exactly one entry true) and the nullable testing properties. It has the
  `initTester`, `startCucs`, `reset` and `testPlan` operations and the child-process
  `exit`/`close`/`error` transitions. The module also holds the cucumber argument vector, the
  Gherkin envelope walk, the URI de-duplication and the test-plan text.
- `ScanSteps` (`scan_steps.dfy`) covers `src/steps/tls_scan_steps.js`. Class `ScanSession` holds
  the stdout line buffer, the banner counter, the intervals the run started, the published
  events and the step's promise. Class `Heartbeat` is the module-level interval slot, shared by
  every run of the step in one process. The same behaviour is also given as a pure specification (`Step`,
  `ChunkEvents`, `RunRelay`, `RunEvents`), and lemmas are proved over runs of chunks. In that
  specification each chunk carries the percentage detected in it, so the run lemmas hold for any
  marker table. The module
  also has the percent-complete marker table and the threshold step.
- `Testssl` (`testssl.dfy`) covers `src/emissaries/testssl.js`: the three report replacers, the
  restyling pipeline, the CSV alert counter, the `testssl.sh` argument vector and the emissary's
  `init`.
- `Sut` (`sut.dfy`) covers `src/api/tls/do/sut.js`: the schema's constraints as a predicate,
  validation with the default alert threshold, the property record and the base URL.
- `Properties` (`properties.dfy`) is the `getProperties` selector shared by `sut.js` and
  `testssl.js`.
- `Text` (`text.dfy`) holds split, join, decimal rendering and parsing, and their lemmas.
  `Wrappers` (`wrappers.dfy`) holds `Option` and `Result`. `Branding` (`branding.dfy`) holds the
  html report header.

I/O is passed in as parameters:

- File contents are `Option<string>` values or maps from format to text.
- Writes are returned as a list.
- JSON parsing and rendering, the pickle filter and the timestamp are function or string
  parameters.
- Messages for the orchestrator are recorded as a sequence of events.

Behaviours of the code a reader may not expect, which the model follows:

- The heartbeat interval is cleared only by the scanner's `exit` handler, or by the next chunk of
  any run in the same process. `close` and `error` leave it running
  (src/steps/tls_scan_steps.js:108).
- `runTestSession` has no duplicate-run guard, because its status test is commented out. `startCucs`
  tests only whether testing properties are held, and never looks at the status.
- `startCucs` reads `testSession.id`, so properties without a test session make it throw before
  anything starts (`StartError.NoTestSession`).
- The json replacer builds `{ title, ...theRest }`. An input key `title` therefore overrides the
  branded title.
- The test-plan fold adds no separator while its accumulator is empty. Leading empty feature texts
  therefore vanish without a separator.
- The schema bounds `alertThreshold` to 0..1000.

## Model

| member | source | states |
|---|---|---|
| `Tls.SoleTrue` | src/api/tls/models/tls.js:42-52 | the status map after `#status(s)`: every status is a key and only `s` maps to true |
| `Tls.SoleTrueInjective` | src/api/tls/models/tls.js:49-57 | the map determines the status: two statuses with the same sole-true map are equal |
| `Tls.LabelInjective` | src/api/tls/models/tls.js:42-47 | the four status texts are distinct, so the text `initTester` answers with names one status |
| `Tls.StatusOrderComplete` | src/api/tls/models/tls.js:42-47 | every status is one of the four keys of the map |
| `Tls.FindTrue` | src/api/tls/models/tls.js:56 | the `find` over the entries returns a key whose entry is true, or nothing when no listed entry is true |
| `Tls.Tls.constructor` | src/api/tls/models/tls.js:32-47 | a new tester awaits a job and holds no testing properties |
| `Tls.Tls.Status` | src/api/tls/models/tls.js:56 | reading the status returns the one status whose entry is true |
| `Tls.Tls.SetStatus` | src/api/tls/models/tls.js:50-54 | after the loop that clears every entry and sets `state`, `state` is the sole true entry; it returns `state` and leaves the properties alone |
| `Tls.Tls.Reset` | src/api/tls/models/tls.js:59-63 | from any state: awaiting a job, with no properties |
| `Tls.Tls.InitTester` | src/api/tls/models/tls.js:65-83 | a busy tester answers with its status text and changes nothing; an idle one answers `Tester initialised.` and holds the job's protocol, ip, port and first `tlsScanner` resource |
| `Tls.FirstOfType` | src/api/tls/models/tls.js:69 | the first `included` element of the requested type, or none exactly when no element has that type |
| `Tls.PropsOfJob` | src/api/tls/models/tls.js:69-80 | the recorded properties keep the job's protocol, ip and port, and hold a test session exactly when the job includes a `tlsScanner` resource, which is then one of the job's resources |
| `Tls.Tls.StartCucs` | src/api/tls/models/tls.js:85-104 | without properties (or without a test session) nothing starts and nothing changes; otherwise the child's argv is the debug-prefixed cucumber argv for the held properties and the status is "tests running" |
| `Tls.SpawnArgv` | src/api/tls/models/tls.cuc.js:24 | the child argv is the cucumber argv, prefixed by `debugString:port` exactly when a non-empty debug string is configured |
| `Tls.Tls.OnCucumberExit` | src/api/tls/models/tls.cuc.js:36-40 | an exit with any code or signal resets to awaiting a job with no properties |
| `Tls.Tls.OnCucumberError` | src/api/tls/models/tls.cuc.js:47-50 | a spawn error also resets |
| `Tls.Tls.OnCucumberClose` | src/api/tls/models/tls.cuc.js:42-45 | `close` changes neither status nor properties |
| `Tls.CucumberArgs` | src/api/tls/models/tls.js:118-149 | the cucumber argv has 11 elements; element 4 names the result file for the session label and timestamp; element 10 is the rendered world parameters |
| `Tls.CucumberArgsFixedPositions` | src/api/tls/models/tls.js:131-145 | all elements other than the result file and the world parameters are independent of the session |
| `Tls.ResultFilesDistinct` | src/api/tls/models/tls.js:137 | sessions with different ids write different result files for the same timestamp |
| `Tls.MatchingPickleUris` | src/api/tls/models/tls.js:165-175 | the loop over the envelopes collects exactly the uris the specification `MatchedUris` gives: accepted pickles, each judged with the latest document, none before the first document |
| `Tls.MatchedUris` | src/api/tls/models/tls.js:165-175 | at most one uri per envelope |
| `Tls.DocumentBeforeLatest` | src/api/tls/models/tls.js:168-171 | the document remembered at a pickle is the last document envelope before it |
| `Tls.MatchedUrisExactly` | src/api/tls/models/tls.js:168-175 | a uri is reported exactly when some pickle with that uri is accepted by the filter, judged with the latest document before it |
| `Tls.AcceptedPickleReported` | src/api/tls/models/tls.js:168-175 | a pickle that the filter accepts together with the last document before it has its uri reported |
| `Tls.NoDocumentNoUris` | src/api/tls/models/tls.js:171 | a stream without a Gherkin document yields no uri |
| `Tls.FirstIndex` | src/api/tls/models/tls.js:179 | the position of the first occurrence of a uri |
| `Tls.FirstIndexPrefix` | src/api/tls/models/tls.js:179 | appending to a list does not move an earlier first occurrence |
| `Tls.FirstIndexLast` | src/api/tls/models/tls.js:179 | an appended uri that was not there before first occurs at the end |
| `Tls.FirstIndexUnique` | src/api/tls/models/tls.js:179 | a position holding the uri with no earlier occurrence is the first occurrence |
| `Tls.Dedupe` | src/api/tls/models/tls.js:177-179 | the de-duplicated list has the same uris as the input and no repeats |
| `Tls.DedupeKeepsFirstOrder` | src/api/tls/models/tls.js:177-179 | the kept uris are in the order of their first occurrences |
| `Tls.FeatureTexts` | src/api/tls/models/tls.js:187-188 | one text per uri, in the uris' order, each the content of that uri's file |
| `Tls.ReadFeatures` | src/api/tls/models/tls.js:187-188 | reading succeeds exactly when every uri's file is readable, giving their texts in order; a failure names an unreadable uri |
| `Tls.DropLeadingEmpty` | src/api/tls/models/tls.js:189 | the result is empty or starts with a non-empty feature |
| `Tls.PlanFoldNonEmpty` | src/api/tls/models/tls.js:189 | once the accumulator is non-empty, the fold joins it and the features with a blank line |
| `Tls.PlanFold` | src/api/tls/models/tls.js:189 | the reduce keeps its initial text as a prefix, and from the empty text over empty features stays empty |
| `Tls.PlanText` | src/api/tls/models/tls.js:186-190 | the plan text is the features after the leading empty ones, joined by a blank line |
| `Tls.PlanFoldFromEmpty` | src/api/tls/models/tls.js:186-190 | the reduce from the empty text is the features joined by `"\n\n"` with no leading separator; leading empty features are dropped |
| `Tls.PlanTextExamples` | src/api/tls/models/tls.js:189 | two features are joined by one blank line; a leading empty feature adds nothing; no features give the empty text |
| `Tls.Tls.TestPlan` | src/api/tls/models/tls.js:106-116 | the argv is `node` followed by the session-less cucumber argv (result file `noSessionPropsAvailable`); the plan succeeds exactly when every active uri is readable and is then the joined feature texts; a failure names an unreadable active uri; the state is untouched |
| `ScanSteps.FirstMarker` | src/steps/tls_scan_steps.js:39 | the first marker, in table order, whose key occurs in the chunk; none exactly when no key occurs |
| `ScanSteps.PctComplete` | src/steps/tls_scan_steps.js:26-39 | no percentage exactly when the chunk holds no marker key; otherwise the value of the first marker whose key occurs |
| `ScanSteps.PctCompleteStart` | src/steps/tls_scan_steps.js:27 | every chunk containing `Start` reports 3, whatever other keys it holds, since `Start` heads the table |
| `ScanSteps.PctCompleteFirstWins` | src/steps/tls_scan_steps.js:26-39 | for every chunk holding two or more marker keys, the earliest of them in table order decides the percentage |
| `ScanSteps.PctEvent` | src/steps/tls_scan_steps.js:40 | at most one percent-complete event per chunk, carrying the detected value, and only when that value is non-zero |
| `ScanSteps.PctEventsIffMarker` | src/steps/tls_scan_steps.js:26-40 | a chunk publishes a percentage exactly when it contains a marker key |
| `ScanSteps.Buffered` | src/steps/tls_scan_steps.js:90-91 | a chunk ending in a newline is buffered without it; any other chunk is buffered whole |
| `ScanSteps.Step` | src/steps/tls_scan_steps.js:88-98 | a chunk that completes no line adds its text to the buffered text; one that completes a line empties the buffer and counts one line |
| `ScanSteps.ChunkEvents` | src/steps/tls_scan_steps.js:88-98 | the chunk's percentage event comes first, at most three events are published, more than the percentage exactly when a line completes, and then the bug count is last |
| `ScanSteps.ChunkEventsNoFlush` | src/steps/tls_scan_steps.js:93 | a chunk that completes no line publishes no line and no bug count |
| `ScanSteps.ChunkEventsFlush` | src/steps/tls_scan_steps.js:93-98 | a completing chunk publishes exactly one bug count, the current alert count, and relays the buffered text once the counter has reached 7 |
| `ScanSteps.RunPrintCnt` | src/steps/tls_scan_steps.js:98 | over any run, the counter grows by exactly the number of completed lines |
| `ScanSteps.RunBugCounts` | src/steps/tls_scan_steps.js:97 | over any run, the bug counts published are the alert counts at the completed lines, in order |
| `ScanSteps.RunInfoCount` | src/steps/tls_scan_steps.js:77-95 | over any run, the number of relayed lines is the number of completed lines past the seventh |
| `ScanSteps.ChunkInfoCount` | src/steps/tls_scan_steps.js:93-95 | a chunk relays one line exactly when it completes a line and the counter has reached 7, otherwise none |
| `ScanSteps.RunWithoutFlush` | src/steps/tls_scan_steps.js:90-91 | chunks that complete no line are appended to the buffer whole and in order, and the counter is unchanged |
| `ScanSteps.RunWithoutFlushSilent` | src/steps/tls_scan_steps.js:93-95 | chunks that complete no line relay no line |
| `ScanSteps.RunAppend` | src/steps/tls_scan_steps.js:81-100 | the handler is sequential: a run of `a` then `b` is the run of `b` from the state `a` leaves, with the events concatenated |
| `ScanSteps.RelayedLine` | src/steps/tls_scan_steps.js:93-98 | after the banner, a completed line relays the concatenation of every chunk buffered since the previous one, empties the buffer and raises the counter by one |
| `ScanSteps.InfoTextsAppend` | src/steps/tls_scan_steps.js:95 | the relayed lines of two event runs are those of each, concatenated |
| `ScanSteps.BugCountsAppend` | src/steps/tls_scan_steps.js:97 | the bug counts of two event runs are those of each, concatenated |
| `ScanSteps.Heartbeat.constructor` | src/steps/tls_scan_steps.js:20 | the process starts with an empty slot and no running interval |
| `ScanSteps.ScanSession.constructor` | src/steps/tls_scan_steps.js:73-77 | empty buffer, counter 0, no interval of its own, no events, promise pending; the shared slot is left as earlier runs left it |
| `ScanSteps.ScanSession.KeepMessageChannelAlive` | src/steps/tls_scan_steps.js:46-54 | the interval in the shared slot is always cleared, whichever run started it; with `terminate` the slot is empty and nothing runs, otherwise exactly one fresh interval of this run runs and is in the slot |
| `ScanSteps.ScanSession.HeartbeatTick` | src/steps/tls_scan_steps.js:51-53 | only a still-running interval that this run started publishes its awaiting-feedback heartbeat |
| `ScanSteps.ScanSession.OnStdoutData` | src/steps/tls_scan_steps.js:81-100 | the buffer and counter move as `Step` says, the published events grow by `ChunkEvents` for the chunk's percentage and the current alert count, and the heartbeat is renewed |
| `ScanSteps.ScanSession.NotifyPctComplete` | src/steps/tls_scan_steps.js:22-41 | publishes the chunk's percentage when it is non-zero, and changes nothing else |
| `ScanSteps.ScanSession.PushPart` | src/steps/tls_scan_steps.js:90-91 | reports whether the chunk ends in a newline and buffers it without that newline |
| `ScanSteps.ScanSession.CompleteLine` | src/steps/tls_scan_steps.js:93-98 | a completed line relays the buffer when the counter is at least 7, empties the buffer, publishes the bug count and raises the counter |
| `ScanSteps.ScanSession.OnStderr` | src/steps/tls_scan_steps.js:102-104 | stderr data is published as an error log and nothing else changes |
| `ScanSteps.ExitMessage` | src/steps/tls_scan_steps.js:110 | the rejection text names the session right after its fixed opening |
| `ScanSteps.ScanSession.OnExit` | src/steps/tls_scan_steps.js:106-114 | the reports are restyled, the heartbeat stops, 100 and the finishing message are published, and the promise resolves exactly when the code is 0 (else rejects with the exit message) |
| `ScanSteps.ScanSession.OnError` | src/steps/tls_scan_steps.js:121-125 | a spawn error publishes the failure and rejects; the heartbeat slot is left as it was |
| `ScanSteps.StaleHeartbeatCleared` | src/steps/tls_scan_steps.js:46-54 | after a run fails once its heartbeat has started, the next run's first chunk clears that interval, and only the new one runs |
| `ScanSteps.Settle` | src/steps/tls_scan_steps.js:106-125 | a settled promise stays settled with its first outcome |
| `ScanSteps.SettleOnce` | src/steps/tls_scan_steps.js:106-125 | resolving or rejecting a second time changes nothing |
| `ScanSteps.StartScan` | src/steps/tls_scan_steps.js:68-79 | a missing test session or a protocol other than `https` stops the step before spawning; otherwise the argv carries the report path, the severity and the SUT's base URL |
| `ScanSteps.ThresholdVerdict` | src/steps/tls_scan_steps.js:136-138 | the step fails exactly when the count exceeds the threshold, with the difference as excess |
| `ScanSteps.ThresholdEvents` | src/steps/tls_scan_steps.js:133-137 | the final count is always published first; the excess line follows exactly on failure |
| `ScanSteps.ThresholdStep` | src/steps/tls_scan_steps.js:129-140 | the session fails exactly when the alert count of the CSV report exceeds the validated threshold |
| `ScanSteps.ThresholdMonotone` | src/steps/tls_scan_steps.js:136 | raising the threshold or lowering the count never turns a pass into a failure |
| `ScanSteps.UnreadableReportPasses` | src/emissaries/testssl.js:161-165 | an unreadable CSV report counts no alerts, so the step passes |
| `ScanSteps.ThresholdExamples` | src/steps/tls_scan_steps.js:136 | 5 alerts against a threshold of 4 fail by 1; 4 against 4 pass |
| `Testssl.LineFold` | src/emissaries/testssl.js:103 | the reduce keeps its initial text as a prefix and adds at least one character per line |
| `Testssl.LineFoldIsJoin` | src/emissaries/testssl.js:71 | the `reduce` that appends `\n` + line is the newline join of the heading and the lines |
| `Testssl.LineFoldAfterHeading` | src/emissaries/testssl.js:71 | the fold is the heading followed by the newline join of an empty piece and the lines |
| `Testssl.LineFoldTail` | src/emissaries/testssl.js:71 | after the heading, the output splits into an empty piece followed by exactly the lines |
| `Testssl.HtmlReplace` | src/emissaries/testssl.js:64-76 | an error (and no text) exactly for a missing or empty report; otherwise the branded header comes first, and a report of at most 27 lines gives exactly the header |
| `Testssl.HtmlReplaceKeepsBody` | src/emissaries/testssl.js:66-71 | after the header comes `\n` + line for every input line from index 27 on |
| `Testssl.NonBanner` | src/emissaries/testssl.js:102 | the lines not starting with `## `, in order |
| `Testssl.LogReplace` | src/emissaries/testssl.js:96-108 | an error exactly for a missing or empty report; otherwise the output starts with the log heading |
| `Testssl.LogReplaceLines` | src/emissaries/testssl.js:100-103 | the output is the heading line followed by the input lines, keeping every line except `## ` lines among the first 4, in their order |
| `Testssl.KeepFrom` | src/emissaries/testssl.js:100-103 | the filter keeps only lines of its input, and never more lines than it had |
| `Testssl.KeepFromPastWindow` | src/emissaries/testssl.js:102 | past index 3 every line is kept |
| `Testssl.KeepFromShape` | src/emissaries/testssl.js:102 | the filter drops banner lines inside the first-4 window and keeps every line after it |
| `Testssl.HeadingThenLines` | src/emissaries/testssl.js:103 | a newline-free heading and lines split back into the heading followed by the lines |
| `Testssl.KeptLinesHaveNoNewline` | src/emissaries/testssl.js:100-102 | the lines kept from a split text contain no newline |
| `Testssl.IndexEntries` | src/emissaries/testssl.js:86 | spreading an array or string gives one entry per index, keyed by its decimal |
| `Testssl.Rebrand` | src/emissaries/testssl.js:86 | none of `Invocation`, `at`, `version`, `openssl`, `startTime` remains; `title` is added (the branded title unless the input has its own); every other key keeps its value |
| `Testssl.JsonReplace` | src/emissaries/testssl.js:81-91 | a missing or empty report, or one that does not parse (or parses to `null`), gives an error; an object is rebranded |
| `Testssl.Restyle` | src/emissaries/testssl.js:56-123 | a missing or empty report fails for its format; the html and log replacers succeed exactly on a non-empty report |
| `Testssl.ApplyReportStyling` | src/emissaries/testssl.js:56-137 | a format is written back exactly when its replacer succeeded; every other styled format yields an error and does not stop the rest; writes keep the html, json, log order; csv is never written |
| `Testssl.Filter` | src/emissaries/testssl.js:151-159 | a filter keeps exactly the rows satisfying the predicate and never more rows |
| `Testssl.FilterConcat` | src/emissaries/testssl.js:151-159 | filtering distributes over concatenation |
| `Testssl.FilterChain` | src/emissaries/testssl.js:152-159 | the chain of service, empty-row and severity filters keeps exactly the alert rows, in order |
| `Testssl.NumberOfAlerts` | src/emissaries/testssl.js:139-166 | 0 when the CSV cannot be read; otherwise at most the number of lines minus the heading |
| `Testssl.FilterCountsIndices` | src/emissaries/testssl.js:151-160 | the filtered length is the number of alert-row positions |
| `Testssl.AlertCountIsRowCount` | src/emissaries/testssl.js:151-160 | the count is the number of data rows that are not `"service"` rows, not empty, and whose 4th field is not `"OK"`, `"INFO"` or `"WARN"`; rows with fewer fields count |
| `Testssl.ScanArgs` | src/emissaries/testssl.js:168-171 | the argv has 6 or 8 elements (8 exactly with a non-empty severity), starts with the fixed flags and the report path, and ends with the base URL |
| `Testssl.ScanArgsRoundTrip` | src/emissaries/testssl.js:170 | the report path, the severity and the base URL can be read back from the argv |
| `Testssl.Emissary.constructor` | src/emissaries/testssl.js:25-37 | no report directory and no report path before `init` |
| `Testssl.Emissary.Init` | src/emissaries/testssl.js:173-179 | `init` succeeds exactly when `reportDir` is the configured directory, and then records it and the report path `<dir>report_tlsScannerId-<id>_<timestamp>`; a rejected directory changes nothing |
| `Properties.Pick` | src/api/tls/do/sut.js:64 | the record's keys are exactly the listed names, each mapped to the stored value or `undefined` |
| `Properties.GetProperties` | src/api/tls/do/sut.js:61-66 | a name gives its value; an array gives a record of exactly those names; anything else gives the whole record |
| `Sut.AlertThreshold` | src/api/tls/do/sut.js:38 | the validated threshold is the job's value or the default 0, and never above 1000 |
| `Sut.Validate` | src/api/tls/do/sut.js:29-50 | validation succeeds exactly when the schema's constraints hold; accepted properties keep every field and get the threshold filled in |
| `Sut.ValidateIdempotent` | src/api/tls/do/sut.js:29-50 | validating validated properties changes nothing, and the threshold is kept |
| `Sut.SystemUnderTest.constructor` | src/api/tls/do/sut.js:23-27 | no property record before `init` |
| `Sut.SystemUnderTest.Init` | src/api/tls/do/sut.js:52-59 | `init` stores the validated properties exactly when they are accepted; rejected properties leave the record as it was |
| `Sut.BaseUrl` | src/api/tls/do/sut.js:71 | `protocol://ip`, with `:port` omitted exactly for the protocol's own default port |
| `Sut.BaseUrlRoundTrip` | src/api/tls/do/sut.js:71 | the port can always be read back from the base URL |
| `Sut.BaseUrlDeterminesPort` | src/api/tls/do/sut.js:71 | for one protocol and host, equal base URLs mean equal ports |
| `Sut.CrossDefaultPortKept` | src/api/tls/do/sut.js:71 | `https` on port 80 and `http` on port 443 keep the port |
| `Sut.BaseUrlExamples` | src/api/tls/do/sut.js:71 | `https` on 443 elides the port; `http` on 8 keeps it |

## Left out

- File reads and writes: reads are `Option<string>` inputs (or maps of readable files), and writes are returned as a list of `ReportWrite` values.
- Spawning `testssl.sh` and the cucumber CLI, and forwarding their stdout and stderr to the process's own stdout. Only the argument vectors and the event-driven transitions are modelled.
- `StringDecoder`: chunks are taken as already-decoded strings.
- Real timers: the heartbeat is an interval-id slot plus a set of running intervals. `HeartbeatTick` stands for a firing.
- `ScanSteps.ScanSession.OnStdoutData`: the `await` before the bug-count publish lets other handlers run before `printCnt` is raised. The model takes each handler as atomic. The alert count is passed in as the count of the CSV text readable at that point.
- JSON parsing (`Bourne.parse`) and `JSON.stringify` are function parameters. Key order in the rendered report is not modelled. JSON numbers are integers (`Json.JNumber` holds an `int`), so the non-integral numbers a testssl json report may hold are not represented.
- `Tls.CucumberArgs`: the world parameters are rendered by a function parameter. The test-plan call's `{}` properties are modelled as `None`.
- Joi internals: hostname syntax is reduced to "non-empty", and the severity's `uppercase()` conversion is not applied. The schema's default threshold is applied only when `attributes` is present, and the model always has an `attributes` record.
- Logger calls (`log.info`, `log.error`, …) are not recorded. Publisher calls are recorded as events without the session id and tags.
- The cucumber CLI configuration, Gherkin streams and the pickle filter: the envelopes are an input sequence, and the filter is a function parameter. `Promise.all`'s choice between several failed reads is not modelled (`Tls.Tls.TestPlan` names some unreadable uri).
- The scan step's `close` handler only logs, so it has no member.
- `Branding.LogoPngBase64`: the base64 PNG payload inside the html header is a fixed but unspecified string. No property depends on its characters.
- `ScanSteps.PctComplete`: marker examples beyond `Start` are not stated as lemmas. The first-match contract covers them.
- The HTTP routes and plugin wiring (`src/server.js`, `src/api/tls/index.js`), configuration loading (`config/config.js`), the cucumber world and the demo steps are not part of this model.
