/** The cucumber steps that drive one TLS scan: the percent-complete detector over stdout
    chunks, the line buffer that relays the scanner's output once its banner has passed, the
    heartbeat interval slot, the exit and error outcomes of the scan step, and the threshold
    step that fails the session when the scan found too many alerts. */
module ScanSteps {
  import opened Wrappers
  import opened Text
  import Testssl
  import Sut

  // ---------------------------------------------------------------------
  // percent complete

  /** One entry of the marker table: the text to look for and the percentage it stands for. */
  datatype Marker = Marker(key: string, pct: nat)

  const PctCompleteMarkers: seq<Marker> := [
    Marker("Start", 3),
    Marker("Testing protocols", 10),
    Marker("Testing cipher categories", 20),
    Marker("Testing robust (perfect) forward secrecy", 30),
    Marker("Testing server preferences", 40),
    Marker("Testing server defaults (Server Hello)", 50),
    Marker("Testing HTTP header response @ \"/\"", 60),
    Marker("Testing vulnerabilities", 70),
    Marker("Testing 370 ciphers via OpenSSL plus sockets against the server, ordered by encryption strength", 80),
    Marker("Running client simulations", 90)
  ]

  /** `markers.find((m) => chunk.includes(key))`, as the position of the marker found. */
  function FirstMarker(markers: seq<Marker>, chunk: string): (r: Option<nat>)
    ensures r.Some? ==> r.value < |markers| && Contains(chunk, markers[r.value].key)
    ensures r.Some? ==> forall j :: 0 <= j < r.value ==> !Contains(chunk, markers[j].key)
    ensures r.None? <==> forall j :: 0 <= j < |markers| ==> !Contains(chunk, markers[j].key)
  {
    if |markers| == 0 then None
    else if Contains(chunk, markers[0].key) then Some(0)
    else
      match FirstMarker(markers[1..], chunk)
      case None => None
      case Some(j) => Some(j + 1)
  }

  /** The percentage of the first marker, in table order, whose key occurs in the chunk. */
  function PctComplete(chunk: string): (pct: Option<nat>)
    ensures pct.None? <==> forall j :: 0 <= j < |PctCompleteMarkers| ==> !Contains(chunk, PctCompleteMarkers[j].key)
    ensures pct.Some? ==> exists j :: (0 <= j < |PctCompleteMarkers| && Contains(chunk, PctCompleteMarkers[j].key)
      && pct.value == PctCompleteMarkers[j].pct
      && (forall i :: 0 <= i < j ==> !Contains(chunk, PctCompleteMarkers[i].key)))
  {
    match FirstMarker(PctCompleteMarkers, chunk)
    case None => None
    case Some(j) => Some(PctCompleteMarkers[j].pct)
  }

  /** `Start` heads the table, so any chunk containing it reports 3, whatever else it holds. */
  lemma PctCompleteStart(chunk: string)
    requires Contains(chunk, "Start")
    ensures PctComplete(chunk) == Some(3)
  {
    assert PctCompleteMarkers[0].key == "Start";
    assert FirstMarker(PctCompleteMarkers, chunk) == Some(0);
  }

  /** A chunk containing several marker keys reports the earliest of them in table order. */
  lemma PctCompleteFirstWins(chunk: string, j: nat, k: nat)
    requires j < k < |PctCompleteMarkers|
    requires forall i :: 0 <= i < j ==> !Contains(chunk, PctCompleteMarkers[i].key)
    requires Contains(chunk, PctCompleteMarkers[j].key) && Contains(chunk, PctCompleteMarkers[k].key)
    ensures PctComplete(chunk) == Some(PctCompleteMarkers[j].pct)
  {
    assert FirstMarker(PctCompleteMarkers, chunk) == Some(j);
  }

  // ---------------------------------------------------------------------
  // events

  datatype LogLevel = Info | Error

  /** What the publisher is asked to send to the orchestrator. */
  datatype Event =
    | PctCompleteEvent(pct: nat)
    | BugCountEvent(count: nat)
    | LogEvent(level: LogLevel, text: string)

  const AwaitingFeedback := "Tester is awaiting Emissary feedback..."

  function FinishingScan(testSessionId: string): string
  {
    "Finishing scan with Test Session Id: \"" + testSessionId + "\". Please see the report for further details."
  }

  function StderrText(data: string): string
  {
    "stderr occurred: " + data
  }

  function FailedToStart(err: string): string
  {
    "Failed to start TLS Emissary. The error was: " + err + "."
  }

  /** `${n}` for an integer that may be negative. */
  function IntToString(n: int): string
  {
    if n < 0 then "-" + NatToString(-n) else NatToString(n)
  }

  /** `${code}` for an exit code or `null`, and the same for a signal name. */
  function OrNull(v: Option<string>): string
  {
    match v
    case Some(s) => s
    case None => "null"
  }

  const ExitMessagePrefix := "Child process \"testssl\" running session with id: \""

  /** The text an exit rejects with; it names the session right after its fixed opening. */
  function ExitMessage(testSessionId: string, code: Option<int>, signal: Option<string>): (m: string)
    ensures OccursAt(m, testSessionId, |ExitMessagePrefix|)
  {
    var codeText := match code case Some(c) => IntToString(c) case None => "null";
    var rest := "\" exited with code: \"" + codeText + "\", and signal: \"" + OrNull(signal) + "\".";
    var m := ExitMessagePrefix + testSessionId + rest;
    assert m[|ExitMessagePrefix|..|ExitMessagePrefix| + |testSessionId|] == testSessionId;
    m
  }

  /** `pctComplete && publish(...)`: at most one event, and only for a non-zero percentage. */
  function PctEvent(pct: Option<nat>): (es: seq<Event>)
    ensures |es| <= 1
    ensures |es| == 1 <==> pct.Some? && pct.value != 0
    ensures |es| == 1 ==> es[0] == PctCompleteEvent(pct.value)
  {
    match pct
    case Some(v) => if v != 0 then [PctCompleteEvent(v)] else []
    case None => []
  }

  /** Every marker has a non-zero value, so a chunk publishes a percentage exactly when it holds a key. */
  lemma PctEventsIffMarker(chunk: string)
    ensures |PctEvent(PctComplete(chunk))| == 1 <==> exists j :: 0 <= j < |PctCompleteMarkers| && Contains(chunk, PctCompleteMarkers[j].key)
  {
    assert forall j :: 0 <= j < |PctCompleteMarkers| ==> PctCompleteMarkers[j].pct != 0;
  }

  // ---------------------------------------------------------------------
  // the stdout relay as a function of the chunks

  const HeadingParts: nat := 7

  /** A chunk ending in a newline completes a line. */
  predicate Flushes(chunk: string)
  {
    |chunk| > 0 && chunk[|chunk| - 1] == '\n'
  }

  /** What is pushed onto `lineParts`: the chunk without its final newline, when it has one. */
  function Buffered(chunk: string): (b: string)
    ensures Flushes(chunk) ==> b + "\n" == chunk
    ensures !Flushes(chunk) ==> b == chunk
  {
    if Flushes(chunk) then chunk[..|chunk| - 1] else chunk
  }

  /** The data handler's local state: the buffered parts and the number of lines completed. */
  datatype Relay = Relay(lineParts: seq<string>, printCnt: nat)

  /** The state after one chunk: a chunk that completes no line adds its text to the buffered
      text; one that completes a line empties the buffer and counts one line. */
  function Step(r: Relay, chunk: string): (r': Relay)
    ensures !Flushes(chunk) ==> Concat(r'.lineParts) == Concat(r.lineParts) + chunk && r'.printCnt == r.printCnt
    ensures Flushes(chunk) ==> r'.lineParts == [] && r'.printCnt == r.printCnt + 1
  {
    if Flushes(chunk) then Relay([], r.printCnt + 1)
    else
      ConcatAppend(r.lineParts, chunk);
      Relay(r.lineParts + [chunk], r.printCnt)
  }

  /** What one chunk publishes: its percentage, then on a completed line the relayed text (once
      the heading lines have passed) and the alert count read at that moment. */
  function ChunkEvents(r: Relay, chunk: string, pct: Option<nat>, alerts: nat): (es: seq<Event>)
    ensures PctEvent(pct) <= es && |es| <= 3
    ensures Flushes(chunk) <==> |es| > |PctEvent(pct)|
    ensures Flushes(chunk) ==> es[|es| - 1] == BugCountEvent(alerts)
  {
    PctEvent(pct)
    + if Flushes(chunk) then
        (if r.printCnt >= HeadingParts then [LogEvent(Info, Concat(r.lineParts + [Buffered(chunk)]))] else [])
        + [BugCountEvent(alerts)]
      else []
  }

  /** The events of a chunk: its percentage, then only on a completed line the rest. */
  lemma ChunkEventsShape(r: Relay, chunk: string, pct: Option<nat>, alerts: nat)
    ensures !Flushes(chunk) ==> ChunkEvents(r, chunk, pct, alerts) == PctEvent(pct)
    ensures Flushes(chunk) ==>
      ChunkEvents(r, chunk, pct, alerts) == PctEvent(pct) + ((if r.printCnt >= HeadingParts then [LogEvent(Info, Concat(r.lineParts + [Buffered(chunk)]))] else []) + [BugCountEvent(alerts)])
  {
  }

  /** A stdout chunk together with the alert count the CSV report gives when it is handled. */
  datatype Chunk = Chunk(text: string, pct: Option<nat>, alerts: nat)

  function RunRelay(r: Relay, cs: seq<Chunk>): Relay
    decreases |cs|
  {
    if |cs| == 0 then r else RunRelay(Step(r, cs[0].text), cs[1..])
  }

  function RunEvents(r: Relay, cs: seq<Chunk>): seq<Event>
    decreases |cs|
  {
    if |cs| == 0 then [] else ChunkEvents(r, cs[0].text, cs[0].pct, cs[0].alerts) + RunEvents(Step(r, cs[0].text), cs[1..])
  }

  function FlushCount(cs: seq<Chunk>): nat
  {
    if |cs| == 0 then 0 else (if Flushes(cs[0].text) then 1 else 0) + FlushCount(cs[1..])
  }

  /** The alert counts read at the completed lines, in order. */
  function FlushAlerts(cs: seq<Chunk>): seq<nat>
  {
    if |cs| == 0 then []
    else (if Flushes(cs[0].text) then [cs[0].alerts] else []) + FlushAlerts(cs[1..])
  }

  /** The texts of the `info` log events. */
  function InfoTexts(es: seq<Event>): seq<string>
  {
    if |es| == 0 then []
    else (if es[0].LogEvent? && es[0].level == Info then [es[0].text] else []) + InfoTexts(es[1..])
  }

  /** The values of the bug-count events. */
  function BugCounts(es: seq<Event>): seq<nat>
  {
    if |es| == 0 then []
    else (if es[0].BugCountEvent? then [es[0].count] else []) + BugCounts(es[1..])
  }

  function Max(a: nat, b: nat): nat
  {
    if a >= b then a else b
  }

  lemma {:induction false} InfoTextsAppend(a: seq<Event>, b: seq<Event>)
    ensures InfoTexts(a + b) == InfoTexts(a) + InfoTexts(b)
  {
    if |a| > 0 {
      assert (a + b)[0] == a[0];
      assert (a + b)[1..] == a[1..] + b;
      InfoTextsAppend(a[1..], b);
    } else {
      assert a + b == b;
    }
  }

  lemma {:induction false} BugCountsAppend(a: seq<Event>, b: seq<Event>)
    ensures BugCounts(a + b) == BugCounts(a) + BugCounts(b)
  {
    if |a| > 0 {
      assert (a + b)[0] == a[0];
      assert (a + b)[1..] == a[1..] + b;
      BugCountsAppend(a[1..], b);
    } else {
      assert a + b == b;
    }
  }

  /** The counter ends up raised by exactly the number of completed lines. */
  lemma {:induction false} RunPrintCnt(r: Relay, cs: seq<Chunk>)
    ensures RunRelay(r, cs).printCnt == r.printCnt + FlushCount(cs)
    decreases |cs|
  {
    if |cs| > 0 {
      RunPrintCnt(Step(r, cs[0].text), cs[1..]);
    }
  }

  /** Only the percentage event can come from a chunk that completes no line. */
  lemma ChunkEventsNoFlush(r: Relay, chunk: string, pct: Option<nat>, alerts: nat)
    requires !Flushes(chunk)
    ensures InfoTexts(ChunkEvents(r, chunk, pct, alerts)) == [] && BugCounts(ChunkEvents(r, chunk, pct, alerts)) == []
  {
    var es := PctEvent(pct);
    assert ChunkEvents(r, chunk, pct, alerts) == es;
    if |es| == 1 {
      assert es[1..] == [];
    }
  }

  /** A completed line publishes one bug count, and the relayed text once the heading has passed. */
  lemma ChunkEventsFlush(r: Relay, chunk: string, pct: Option<nat>, alerts: nat)
    requires Flushes(chunk)
    ensures BugCounts(ChunkEvents(r, chunk, pct, alerts)) == [alerts]
    ensures InfoTexts(ChunkEvents(r, chunk, pct, alerts)) ==
      if r.printCnt >= HeadingParts then [Concat(r.lineParts + [Buffered(chunk)])] else []
  {
    var pe := PctEvent(pct);
    var logs: seq<Event> := if r.printCnt >= HeadingParts then [LogEvent(Info, Concat(r.lineParts + [Buffered(chunk)]))] else [];
    var tail := logs + [BugCountEvent(alerts)];
    assert ChunkEvents(r, chunk, pct, alerts) == pe + tail;
    assert InfoTexts(pe) == [] && BugCounts(pe) == [] by {
      if |pe| == 1 { assert pe[1..] == []; }
    }
    InfoTextsAppend(pe, tail);
    BugCountsAppend(pe, tail);
    InfoTextsAppend(logs, [BugCountEvent(alerts)]);
    BugCountsAppend(logs, [BugCountEvent(alerts)]);
    assert [BugCountEvent(alerts)][1..] == [];
    if |logs| == 1 { assert logs[1..] == []; }
  }

  /** Every completed line publishes one bug count, holding the alert count read at that line. */
  lemma {:induction false} RunBugCounts(r: Relay, cs: seq<Chunk>)
    ensures BugCounts(RunEvents(r, cs)) == FlushAlerts(cs)
    decreases |cs|
  {
    if |cs| > 0 {
      var c := cs[0];
      RunBugCounts(Step(r, c.text), cs[1..]);
      BugCountsAppend(ChunkEvents(r, c.text, c.pct, c.alerts), RunEvents(Step(r, c.text), cs[1..]));
      if Flushes(c.text) { ChunkEventsFlush(r, c.text, c.pct, c.alerts); } else { ChunkEventsNoFlush(r, c.text, c.pct, c.alerts); }
    }
  }

  /** A chunk relays one line exactly when it completes one after the heading. */
  lemma ChunkInfoCount(r: Relay, chunk: string, pct: Option<nat>, alerts: nat)
    ensures |InfoTexts(ChunkEvents(r, chunk, pct, alerts))| == if Flushes(chunk) && r.printCnt >= HeadingParts then 1 else 0
  {
    if Flushes(chunk) { ChunkEventsFlush(r, chunk, pct, alerts); } else { ChunkEventsNoFlush(r, chunk, pct, alerts); }
  }

  /** Lines are relayed only once the counter has reached 7: from a counter `p`, `F` completed
      lines relay `max(p + F, 7) - max(p, 7)` of them; from the start, all but the first 7. */
  lemma {:induction false} RunInfoCount(r: Relay, cs: seq<Chunk>)
    ensures |InfoTexts(RunEvents(r, cs))| == Max(r.printCnt + FlushCount(cs), HeadingParts) - Max(r.printCnt, HeadingParts)
    decreases |cs|
  {
    if |cs| > 0 {
      var r' := Step(r, cs[0].text);
      RunInfoStep(r, cs);
      RunInfoCount(r', cs[1..]);
      var d := if Flushes(cs[0].text) then 1 else 0;
      assert FlushCount(cs) == d + FlushCount(cs[1..]) && r'.printCnt == r.printCnt + d;
      MaxShift(r.printCnt, d, FlushCount(cs[1..]));
    }
  }

  /** The relayed lines of a run: the first chunk's, then the rest's. */
  lemma RunInfoStep(r: Relay, cs: seq<Chunk>)
    requires |cs| > 0
    ensures |InfoTexts(RunEvents(r, cs))|
      == (if Flushes(cs[0].text) && r.printCnt >= HeadingParts then 1 else 0) + |InfoTexts(RunEvents(Step(r, cs[0].text), cs[1..]))|
  {
    var c := cs[0];
    var head, rest := ChunkEvents(r, c.text, c.pct, c.alerts), RunEvents(Step(r, c.text), cs[1..]);
    assert RunEvents(r, cs) == head + rest;
    InfoTextsAppend(head, rest);
    ChunkInfoCount(r, c.text, c.pct, c.alerts);
  }

  /** One completed line adds a relayed line exactly when the counter has reached 7. */
  lemma MaxShift(p: nat, d: nat, f: nat)
    requires d <= 1
    ensures (if d == 1 && p >= HeadingParts then 1 else 0) + (Max(p + d + f, HeadingParts) - Max(p + d, HeadingParts))
      == Max(p + (d + f), HeadingParts) - Max(p, HeadingParts)
  {
  }

  /** Chunks that complete no line are buffered whole and in order. */
  lemma {:induction false} RunWithoutFlush(r: Relay, seg: seq<Chunk>)
    requires forall i :: 0 <= i < |seg| ==> !Flushes(seg[i].text)
    ensures RunRelay(r, seg) == Relay(r.lineParts + Texts(seg), r.printCnt)
    decreases |seg|
  {
    if |seg| > 0 {
      var r' := Step(r, seg[0].text);
      assert r' == Relay(r.lineParts + [seg[0].text], r.printCnt);
      RunWithoutFlush(r', seg[1..]);
      TextsCons(r.lineParts, seg);
    }
  }

  /** Buffering the first chunk, then the texts of the rest, buffers the texts of all. */
  lemma TextsCons(parts: seq<string>, seg: seq<Chunk>)
    requires |seg| > 0
    ensures (parts + [seg[0].text]) + Texts(seg[1..]) == parts + Texts(seg)
  {
    assert Texts(seg) == [seg[0].text] + Texts(seg[1..]);
  }

  /** Chunks that complete no line relay no line. */
  lemma {:induction false} RunWithoutFlushSilent(r: Relay, seg: seq<Chunk>)
    requires forall i :: 0 <= i < |seg| ==> !Flushes(seg[i].text)
    ensures InfoTexts(RunEvents(r, seg)) == []
    decreases |seg|
  {
    if |seg| > 0 {
      var c := seg[0];
      var r' := Step(r, c.text);
      RunWithoutFlushSilent(r', seg[1..]);
      InfoTextsAppend(ChunkEvents(r, c.text, c.pct, c.alerts), RunEvents(r', seg[1..]));
      ChunkEventsNoFlush(r, c.text, c.pct, c.alerts);
    }
  }

  /** The texts of the chunks, in order. */
  function Texts(cs: seq<Chunk>): seq<string>
  {
    if |cs| == 0 then [] else [cs[0].text] + Texts(cs[1..])
  }

  lemma {:induction false} RunAppend(r: Relay, a: seq<Chunk>, b: seq<Chunk>)
    ensures RunRelay(r, a + b) == RunRelay(RunRelay(r, a), b)
    ensures RunEvents(r, a + b) == RunEvents(r, a) + RunEvents(RunRelay(r, a), b)
    decreases |a|
  {
    if |a| > 0 {
      assert (a + b)[0] == a[0];
      assert (a + b)[1..] == a[1..] + b;
      RunAppend(Step(r, a[0].text), a[1..], b);
    } else {
      assert a + b == b;
    }
  }

  /** A completed line, after the heading, relays every chunk buffered since the previous one,
      joined, with the final newline removed; the buffer is then empty. */
  lemma RelayedLine(r: Relay, seg: seq<Chunk>, last: Chunk)
    requires forall i :: 0 <= i < |seg| ==> !Flushes(seg[i].text)
    requires Flushes(last.text)
    requires r.printCnt >= HeadingParts
    ensures InfoTexts(RunEvents(r, seg + [last])) == [Concat(r.lineParts + Texts(seg) + [Buffered(last.text)])]
    ensures RunRelay(r, seg + [last]) == Relay([], r.printCnt + 1)
  {
    var mid := RunRelay(r, seg);
    RunWithoutFlush(r, seg);
    RunAppendOne(r, seg, last);
    RelayedLineEvents(r, seg, last, mid);
  }

  /** Splits a run at its last chunk. */
  lemma RunAppendOne(r: Relay, seg: seq<Chunk>, last: Chunk)
    ensures RunRelay(r, seg + [last]) == Step(RunRelay(r, seg), last.text)
    ensures RunEvents(r, seg + [last]) == RunEvents(r, seg) + ChunkEvents(RunRelay(r, seg), last.text, last.pct, last.alerts)
  {
    RunAppend(r, seg, [last]);
    RunOne(RunRelay(r, seg), last);
  }

  /** The relayed lines of a run without a completed line, then one completing chunk from `mid`. */
  lemma RelayedLineEvents(r: Relay, seg: seq<Chunk>, last: Chunk, mid: Relay)
    requires forall i :: 0 <= i < |seg| ==> !Flushes(seg[i].text)
    requires Flushes(last.text) && mid.printCnt >= HeadingParts
    ensures InfoTexts(RunEvents(r, seg) + ChunkEvents(mid, last.text, last.pct, last.alerts))
      == [Concat(mid.lineParts + [Buffered(last.text)])]
  {
    RunWithoutFlushSilent(r, seg);
    ChunkEventsFlush(mid, last.text, last.pct, last.alerts);
    InfoTextsAppend(RunEvents(r, seg), ChunkEvents(mid, last.text, last.pct, last.alerts));
  }

  /** A run of one chunk is that chunk's step and events. */
  lemma RunOne(r: Relay, c: Chunk)
    ensures RunRelay(r, [c]) == Step(r, c.text)
    ensures RunEvents(r, [c]) == ChunkEvents(r, c.text, c.pct, c.alerts)
  {
    assert [c][1..] == [];
  }

  // ---------------------------------------------------------------------
  // the scan step's state

  /** How the scan step's promise settled. */
  datatype Outcome = Resolved | Rejected(message: string)

  /** A promise settles once: later `resolve`/`reject` calls change nothing. */
  function Settle(current: Option<Outcome>, o: Outcome): (r: Option<Outcome>)
    ensures r.Some?
    ensures current.Some? ==> r == current
  {
    if current.Some? then current else Some(o)
  }

  lemma SettleOnce(a: Outcome, b: Outcome)
    ensures Settle(Settle(None, a), b) == Some(a)
  {
  }

  /** Why the scan step throws before spawning the scanner. */
  datatype StartError = NoTestSession | IncorrectProtocol

  /** The start of the scan step: it reads the test session (which must be present), accepts
      only `https`, and spawns the scanner with the argument vector of the emissary. */
  function StartScan(p: Sut.SessionProps, reportFilePath: string): (r: Result<seq<string>, StartError>)
    ensures p.testSession.None? ==> r == Failure(NoTestSession)
    ensures p.testSession.Some? ==> (r.Success? <==> p.protocol == "https")
    ensures p.testSession.Some? && p.protocol != "https" ==> r == Failure(IncorrectProtocol)
    ensures r.Success? ==> Testssl.ParseScanArgs(r.value) == Some(Testssl.ScanRequest(reportFilePath,
      Testssl.SeverityFlag(p.testSession.value.attributes.tlsScannerSeverity), Sut.BaseUrl(p)))
  {
    if p.testSession.None? then Failure(NoTestSession)
    else if p.protocol != "https" then Failure(IncorrectProtocol)
    else
      var severity := p.testSession.value.attributes.tlsScannerSeverity;
      Testssl.ScanArgsRoundTrip(reportFilePath, severity, Sut.BaseUrl(p));
      Success(Testssl.ScanArgs(reportFilePath, severity, Sut.BaseUrl(p)))
  }

  /** The module's heartbeat slot (`internals.emissaryInProgressIntervalId`), shared by every
      run of the step in one process, with the intervals the runtime holds and the next id
      `setInterval` hands out. */
  class Heartbeat {
    var intervalId: Option<nat>
    var liveIntervals: set<nat>
    var nextIntervalId: nat

    /** At most one heartbeat interval runs, and it is the one in the slot. */
    ghost predicate Valid()
      reads this
    {
      && liveIntervals == (if intervalId.Some? then {intervalId.value} else {})
      && (forall id :: id in liveIntervals ==> id < nextIntervalId)
    }

    constructor ()
      ensures Valid()
      ensures intervalId.None? && liveIntervals == {}
    {
      intervalId := None;
      liveIntervals := {};
      nextIntervalId := 0;
    }
  }

  /** One run of the scan step: the data handler's buffer and counter, the shared heartbeat
      slot, the intervals this run started, the events published and the step's promise. */
  class ScanSession {
    const testSessionId: string
    const heartbeat: Heartbeat
    var lineParts: seq<string>
    var printCnt: nat
    var ownIntervals: set<nat>
    var published: seq<Event>
    var outcome: Option<Outcome>

    ghost predicate Valid()
      reads heartbeat
    {
      heartbeat.Valid()
    }

    /** The data handler's state as a value. */
    function State(): Relay
      reads this
    {
      Relay(lineParts, printCnt)
    }

    /** A run starts with an empty buffer and a pending promise; the slot is left as earlier
        runs left it. */
    constructor (testSessionId: string, heartbeat: Heartbeat)
      requires heartbeat.Valid()
      ensures Valid()
      ensures this.testSessionId == testSessionId && this.heartbeat == heartbeat
      ensures lineParts == [] && printCnt == 0 && ownIntervals == {}
      ensures published == [] && outcome.None?
    {
      this.testSessionId := testSessionId;
      this.heartbeat := heartbeat;
      lineParts := [];
      printCnt := 0;
      ownIntervals := {};
      published := [];
      outcome := None;
    }

    /** Clears the interval in the slot, whichever run started it, then either leaves the slot
        empty or starts a new interval for this run. */
    method KeepMessageChannelAlive(terminate: bool)
      requires Valid()
      modifies this, heartbeat
      ensures Valid()
      ensures terminate ==> heartbeat.intervalId.None? && heartbeat.liveIntervals == {}
      ensures !terminate ==>
        && heartbeat.intervalId == Some(old(heartbeat.nextIntervalId))
        && heartbeat.liveIntervals == {old(heartbeat.nextIntervalId)}
      ensures old(heartbeat.intervalId).Some? ==> old(heartbeat.intervalId).value !in heartbeat.liveIntervals
      ensures ownIntervals == old(ownIntervals) + (if terminate then {} else {old(heartbeat.nextIntervalId)})
      ensures lineParts == old(lineParts) && printCnt == old(printCnt)
      ensures published == old(published) && outcome == old(outcome)
    {
      if heartbeat.intervalId.Some? {
        heartbeat.liveIntervals := heartbeat.liveIntervals - {heartbeat.intervalId.value};
      }
      if terminate {
        heartbeat.intervalId := None;
      } else {
        var id := heartbeat.nextIntervalId;
        heartbeat.nextIntervalId := heartbeat.nextIntervalId + 1;
        heartbeat.liveIntervals := heartbeat.liveIntervals + {id};
        heartbeat.intervalId := Some(id);
        ownIntervals := ownIntervals + {id};
      }
    }

    /** The runtime fires interval `id`: an interval this run started publishes the heartbeat
        while it is still running. */
    method HeartbeatTick(id: nat)
      modifies this
      ensures published == old(published)
        + (if id in heartbeat.liveIntervals && id in ownIntervals then [LogEvent(Info, AwaitingFeedback)] else [])
      ensures lineParts == old(lineParts) && printCnt == old(printCnt) && outcome == old(outcome)
      ensures ownIntervals == old(ownIntervals)
    {
      if id in heartbeat.liveIntervals && id in ownIntervals {
        published := published + [LogEvent(Info, AwaitingFeedback)];
      }
    }

    /** The stdout `data` handler; `csv` is the CSV report as it can be read when a line completes. */
    method OnStdoutData(chunk: string, csv: Option<string>)
      requires Valid()
      modifies this, heartbeat
      ensures Valid()
      ensures State() == Step(old(State()), chunk)
      ensures published == old(published) + ChunkEvents(old(State()), chunk, PctComplete(chunk), Testssl.NumberOfAlerts(csv))
      ensures heartbeat.intervalId == Some(old(heartbeat.nextIntervalId))
      ensures heartbeat.liveIntervals == {old(heartbeat.nextIntervalId)}
      ensures ownIntervals == old(ownIntervals) + {old(heartbeat.nextIntervalId)}
      ensures outcome == old(outcome)
    {
      ghost var before := State();
      ghost var alerts := Testssl.NumberOfAlerts(csv);
      KeepMessageChannelAlive(false);
      NotifyPctComplete(chunk);
      var timeToPrint := PushPart(chunk);
      if timeToPrint {
        ghost var parts, cnt := lineParts, printCnt;
        CompleteLine(Testssl.NumberOfAlerts(csv));
        AppendAssoc(old(published), PctEvent(PctComplete(chunk)),
          (if cnt >= HeadingParts then [LogEvent(Info, Concat(parts))] else []) + [BugCountEvent(alerts)]);
      }
      ChunkEventsShape(before, chunk, PctComplete(chunk), alerts);
    }

    /** `notifyCliPctComplete`: publishes the chunk's percentage when it has a non-zero one. */
    method NotifyPctComplete(chunk: string)
      modifies this
      ensures published == old(published) + PctEvent(PctComplete(chunk))
      ensures lineParts == old(lineParts) && printCnt == old(printCnt) && outcome == old(outcome)
      ensures ownIntervals == old(ownIntervals)
    {
      var pct := PctComplete(chunk);
      if pct.Some? && pct.value != 0 {
        published := published + [PctCompleteEvent(pct.value)];
      }
    }

    /** Buffers the chunk, without its final newline when it has one, and tells whether it ended a line. */
    method PushPart(chunk: string) returns (timeToPrint: bool)
      modifies this
      ensures timeToPrint == Flushes(chunk)
      ensures lineParts == old(lineParts) + [Buffered(chunk)]
      ensures published == old(published) && printCnt == old(printCnt) && outcome == old(outcome)
      ensures ownIntervals == old(ownIntervals)
    {
      timeToPrint := |chunk| > 0 && chunk[|chunk| - 1] == '\n';
      lineParts := lineParts + [if timeToPrint then chunk[..|chunk| - 1] else chunk];
    }

    /** A chunk ended a line: relay the buffer once the heading has passed, empty it, publish
        the alert count and count the line. */
    method CompleteLine(alerts: nat)
      modifies this
      ensures published == old(published)
        + ((if old(printCnt) >= HeadingParts then [LogEvent(Info, Concat(old(lineParts)))] else []) + [BugCountEvent(alerts)])
      ensures lineParts == [] && printCnt == old(printCnt) + 1
      ensures outcome == old(outcome)
      ensures ownIntervals == old(ownIntervals)
    {
      if printCnt >= HeadingParts {
        published := published + [LogEvent(Info, Concat(lineParts))];
      }
      lineParts := [];
      published := published + [BugCountEvent(alerts)];
      printCnt := printCnt + 1;
    }

    method OnStderr(data: string)
      modifies this
      ensures published == old(published) + [LogEvent(Error, StderrText(data))]
      ensures lineParts == old(lineParts) && printCnt == old(printCnt) && outcome == old(outcome)
      ensures ownIntervals == old(ownIntervals)
    {
      published := published + [LogEvent(Error, StderrText(data))];
    }

    /** The `exit` handler: restyles the reports, stops the heartbeat, publishes 100 and the
        closing line, and resolves exactly when the exit code is 0. */
    method OnExit(code: Option<int>, signal: Option<string>, files: map<Testssl.Format, string>,
                  parse: string -> Option<Testssl.Json>, stringify: Testssl.Json -> string)
      returns (writes: seq<Testssl.ReportWrite>)
      requires Valid()
      modifies this, heartbeat
      ensures Valid()
      ensures forall w :: w in writes <==> (w.format in Testssl.StyledFormats
        && Testssl.Restyle(w.format, Testssl.ReadFile(files, w.format), parse, stringify) == Success(w.text))
      ensures heartbeat.intervalId.None? && heartbeat.liveIntervals == {} && ownIntervals == old(ownIntervals)
      ensures published == old(published) + [PctCompleteEvent(100), LogEvent(Info, FinishingScan(testSessionId))]
      ensures outcome == Settle(old(outcome), if code == Some(0) then Resolved else Rejected(ExitMessage(testSessionId, code, signal)))
      ensures lineParts == old(lineParts) && printCnt == old(printCnt)
    {
      var errors;
      writes, errors := Testssl.ApplyReportStyling(files, parse, stringify);
      KeepMessageChannelAlive(true);
      published := published + [PctCompleteEvent(100)];
      published := published + [LogEvent(Info, FinishingScan(testSessionId))];
      if outcome.None? {
        outcome := Some(if code == Some(0) then Resolved else Rejected(ExitMessage(testSessionId, code, signal)));
      }
    }

    /** The `error` handler: publishes the failure and rejects; the heartbeat is left running
        until the next run's first chunk or exit clears the slot. */
    method OnError(err: string)
      modifies this
      ensures published == old(published) + [LogEvent(Error, FailedToStart(err))]
      ensures outcome == Settle(old(outcome), Rejected(FailedToStart(err)))
      ensures lineParts == old(lineParts) && printCnt == old(printCnt)
      ensures ownIntervals == old(ownIntervals)
    {
      published := published + [LogEvent(Error, FailedToStart(err))];
      if outcome.None? {
        outcome := Some(Rejected(FailedToStart(err)));
      }
    }
  }

  /** One run fails to start after its first chunk, so its interval keeps running; the next
      run's first chunk clears it through the shared slot, and only the new interval runs. */
  method StaleHeartbeatCleared(heartbeat: Heartbeat, first: string, second: string, chunk: string,
                               err: string, csv: Option<string>)
    returns (stale: nat, current: nat)
    requires heartbeat.Valid()
    modifies heartbeat
    ensures heartbeat.Valid()
    ensures stale != current
    ensures stale !in heartbeat.liveIntervals && heartbeat.liveIntervals == {current}
  {
    var a := new ScanSession(first, heartbeat);
    a.OnStdoutData(chunk, csv);
    stale := heartbeat.intervalId.value;
    a.OnError(err);
    assert heartbeat.liveIntervals == {stale};
    var b := new ScanSession(second, heartbeat);
    b.OnStdoutData(chunk, csv);
    current := heartbeat.intervalId.value;
  }

  lemma AppendAssoc<T>(a: seq<T>, b: seq<T>, c: seq<T>)
    ensures (a + b) + c == a + (b + c)
  {
  }

  // ---------------------------------------------------------------------
  // the threshold step

  datatype Verdict = Pass | Fail(excess: nat)

  /** The step fails exactly when the count exceeds the threshold, by the difference. */
  function ThresholdVerdict(count: nat, alertThreshold: nat): (v: Verdict)
    ensures v.Fail? <==> count > alertThreshold
    ensures v.Fail? ==> v.excess > 0 && alertThreshold + v.excess == count
  {
    if count > alertThreshold then Fail(count - alertThreshold) else Pass
  }

  function ExcessText(excess: nat, alertThreshold: nat, testSessionId: string): string
  {
    "Search the generated report for the " + NatToString(excess)
      + " vulnerabilities that exceed the Build User defined alert threshold of \"" + NatToString(alertThreshold)
      + "\" for the Test Session with id \"" + testSessionId + "\"."
  }

  /** The events of the threshold step: the final count, then the excess line when it fails. */
  function ThresholdEvents(count: nat, alertThreshold: nat, testSessionId: string): (es: seq<Event>)
    ensures 1 <= |es| <= 2 && es[0] == BugCountEvent(count)
    ensures |es| == 2 <==> ThresholdVerdict(count, alertThreshold).Fail?
  {
    [BugCountEvent(count)]
    + match ThresholdVerdict(count, alertThreshold)
      case Fail(excess) => [LogEvent(Info, ExcessText(excess, alertThreshold, testSessionId))]
      case Pass => []
  }

  /** The verdict over the CSV report and the session's validated threshold. */
  function ThresholdStep(csv: Option<string>, p: Sut.SessionProps): (v: Verdict)
    requires Sut.SutSchemaAccepts(p) && p.testSession.Some?
    ensures v.Fail? <==> Testssl.NumberOfAlerts(csv) > Sut.AlertThreshold(p)
  {
    ThresholdVerdict(Testssl.NumberOfAlerts(csv), Sut.AlertThreshold(p))
  }

  /** Raising the threshold never turns a pass into a failure, nor does lowering the count. */
  lemma ThresholdMonotone(count: nat, count': nat, t: nat, t': nat)
    requires count' <= count && t <= t'
    requires ThresholdVerdict(count, t) == Pass
    ensures ThresholdVerdict(count', t') == Pass
  {
  }

  /** A CSV report that cannot be read counts no alerts, so the step passes. */
  lemma UnreadableReportPasses(p: Sut.SessionProps)
    requires Sut.SutSchemaAccepts(p) && p.testSession.Some?
    ensures ThresholdStep(None, p) == Pass
  {
  }

  lemma ThresholdExamples()
    ensures ThresholdVerdict(5, 4) == Fail(1)
    ensures ThresholdVerdict(4, 4) == Pass
  {
  }
}
