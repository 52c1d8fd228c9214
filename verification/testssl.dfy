/** The testssl emissary: the per-format report post-processors and the pipeline that writes
    back only what they produced, the vulnerability count read from the CSV report, the
    scanner's argument vector, and the emissary's initialisation of the report path. */
module Testssl {
  import opened Wrappers
  import opened Text
  import Branding

  /** The four files the scanner writes, `<reportFilePath>.<format>`. */
  datatype Format = Csv | Html | Json | Log

  /** The formats that are restyled, in the order of the `reports` list; CSV carries no branding. */
  const StyledFormats: seq<Format> := [Html, Json, Log]

  const HtmlHeadingLinesToRemove: nat := 27
  const LogHeadingLinesToRemove: nat := 4
  const ReportTitle := "PurpleTeam TLS Scanning Report"
  const LogHeading := "## PurpleTeam TLS Scanning Report"
  const BannerMarker := "## "
  const VendorKeys: set<string> := {"Invocation", "at", "version", "openssl", "startTime"}

  /** Why a replacer produced no text. */
  datatype ReplaceError = EmptyReport(format: Format) | Unparsable(format: Format)

  /** A parsed JSON value (numbers are kept integral). */
  datatype Json =
    | JNull
    | JBool(b: bool)
    | JNumber(n: int)
    | JString(s: string)
    | JArray(items: seq<Json>)
    | JObject(members: map<string, Json>)

  /** `if (!t)`: the read failed (`undefined`) or the file was empty. */
  predicate HasText(t: Option<string>)
  {
    t.Some? && |t.value| > 0
  }

  /** `array.slice(n)`. */
  function Drop<T>(s: seq<T>, n: nat): seq<T>
  {
    if n <= |s| then s[n..] else []
  }

  /** `lines.reduce((accum, cV) => `${accum}\n${cV}`, acc)`. */
  function LineFold(acc: string, lines: seq<string>): (r: string)
    ensures StartsWith(r, acc)
    ensures |r| >= |acc| + |lines|
    decreases |lines|
  {
    if |lines| == 0 then acc
    else
      var next := acc + "\n" + lines[0];
      var r := LineFold(next, lines[1..]);
      assert r[..|acc|] == r[..|next|][..|acc|];
      r
  }

  /** The reduce is the newline join of the initial text and the lines. */
  lemma {:induction false} LineFoldIsJoin(acc: string, lines: seq<string>)
    ensures LineFold(acc, lines) == Join([acc] + lines, "\n")
    decreases |lines|
  {
    if |lines| > 0 {
      LineFoldIsJoin(acc + "\n" + lines[0], lines[1..]);
      JoinGlue(acc, lines[0], lines[1..], "\n");
      assert [acc, lines[0]] + lines[1..] == [acc] + lines;
    }
  }

  /** The fold is the heading followed by the newline join of an empty piece and the lines. */
  lemma LineFoldAfterHeading(heading: string, lines: seq<string>)
    ensures LineFold(heading, lines) == heading + Join([""] + lines, "\n")
  {
    LineFoldIsJoin(heading, lines);
    if |lines| == 0 {
      assert [heading] + lines == [heading];
      assert [""] + lines == [""];
      assert heading + "" == heading;
    } else {
      assert ([heading] + lines)[1..] == lines;
      assert ([""] + lines)[1..] == lines;
      var rest := Join(lines, "\n");
      assert Join([""] + lines, "\n") == "" + "\n" + rest;
      assert heading + ("" + "\n" + rest) == heading + "\n" + rest;
    }
  }

  /** After the heading, the output splits back into an empty piece and exactly the kept lines. */
  lemma LineFoldTail(heading: string, lines: seq<string>)
    requires forall i :: 0 <= i < |lines| ==> '\n' !in lines[i]
    ensures StartsWith(LineFold(heading, lines), heading)
    ensures Split(LineFold(heading, lines)[|heading|..], '\n') == [""] + lines
  {
    LineFoldAfterHeading(heading, lines);
    var tail := Join([""] + lines, "\n");
    var out := heading + tail;
    assert out[..|heading|] == heading;
    assert out[|heading|..] == tail;
    assert forall i :: 0 <= i < |[""] + lines| ==> '\n' !in ([""] + lines)[i];
    SplitJoin([""] + lines, '\n');
  }

  // ---------------------------------------------------------------------
  // html

  function HtmlReplace(t: Option<string>): (r: Result<string, ReplaceError>)
    ensures r.Success? <==> HasText(t)
    ensures r.Failure? ==> r.error == EmptyReport(Html)
    ensures r.Success? ==> StartsWith(r.value, Branding.HtmlReplacementText)
    ensures r.Success? && |Split(t.value, '\n')| <= HtmlHeadingLinesToRemove ==>
      r.value == Branding.HtmlReplacementText
  {
    if !HasText(t) then Failure(EmptyReport(Html))
    else
      var kept := Drop(Split(t.value, '\n'), HtmlHeadingLinesToRemove);
      LineFoldTail(Branding.HtmlReplacementText, kept);
      Success(LineFold(Branding.HtmlReplacementText, kept))
  }

  /** What follows the branded heading is every input line from index 27 on, each after a newline. */
  lemma HtmlReplaceKeepsBody(t: Option<string>)
    requires HasText(t)
    ensures var out := HtmlReplace(t).value;
      Split(out[|Branding.HtmlReplacementText|..], '\n') == [""] + Drop(Split(t.value, '\n'), HtmlHeadingLinesToRemove)
  {
    var lines := Split(t.value, '\n');
    var kept := Drop(lines, HtmlHeadingLinesToRemove);
    assert forall i :: 0 <= i < |kept| ==> kept[i] == lines[i + HtmlHeadingLinesToRemove];
    LineFoldTail(Branding.HtmlReplacementText, kept);
  }

  // ---------------------------------------------------------------------
  // log

  /** `filter((l, i) => !l.startsWith('## ') || i > numOfHeadingLinesToRemove - 1)`, `i` being the index of `lines[0]`. */
  function KeepFrom(lines: seq<string>, i: nat): (r: seq<string>)
    ensures forall x :: x in r ==> x in lines
    ensures |r| <= |lines|
    decreases |lines|
  {
    if |lines| == 0 then []
    else
      (if !StartsWith(lines[0], BannerMarker) || i > LogHeadingLinesToRemove - 1 then [lines[0]] else [])
      + KeepFrom(lines[1..], i + 1)
  }

  /** The lines that do not begin with the banner marker, in order. */
  function NonBanner(lines: seq<string>): (r: seq<string>)
    ensures forall x :: x in r <==> x in lines && !StartsWith(x, BannerMarker)
    ensures |r| <= |lines|
  {
    if |lines| == 0 then []
    else (if StartsWith(lines[0], BannerMarker) then [] else [lines[0]]) + NonBanner(lines[1..])
  }

  function LogReplace(t: Option<string>): (r: Result<string, ReplaceError>)
    ensures r.Success? <==> HasText(t)
    ensures r.Failure? ==> r.error == EmptyReport(Log)
    ensures r.Success? ==> StartsWith(r.value, LogHeading)
  {
    if !HasText(t) then Failure(EmptyReport(Log))
    else
      var kept := KeepFrom(Split(t.value, '\n'), 0);
      LineFoldIsJoin(LogHeading, kept);
      assert StartsWith(LineFold(LogHeading, kept), LogHeading) by {
        if |kept| > 0 { assert ([LogHeading] + kept)[1..] == kept; }
      }
      Success(LineFold(LogHeading, kept))
  }

  /** From the index past the banner window on, every line is kept. */
  lemma {:induction false} KeepFromPastWindow(lines: seq<string>, i: nat)
    requires i >= LogHeadingLinesToRemove
    ensures KeepFrom(lines, i) == lines
    decreases |lines|
  {
    if |lines| > 0 {
      KeepFromPastWindow(lines[1..], i + 1);
      assert [lines[0]] + lines[1..] == lines;
    }
  }

  /** The number of leading lines still inside the banner window when `lines[0]` has index `i`. */
  function WindowLength(n: nat, i: nat): nat
  {
    if i >= LogHeadingLinesToRemove then 0
    else if LogHeadingLinesToRemove - i <= n then LogHeadingLinesToRemove - i
    else n
  }

  lemma KeepFromStep(lines: seq<string>, i: nat)
    requires |lines| > 0 && i < LogHeadingLinesToRemove
    ensures KeepFrom(lines, i) == NonBanner(lines[..1]) + KeepFrom(lines[1..], i + 1)
  {
    assert lines[..1][1..] == [];
  }

  lemma NonBannerSplit(w: seq<string>)
    requires |w| > 0
    ensures NonBanner(w) == NonBanner(w[..1]) + NonBanner(w[1..])
  {
    assert w[..1][1..] == [];
  }

  /** Within the window the banner lines go; after it, every line stays. */
  lemma {:induction false} KeepFromShape(lines: seq<string>, i: nat)
    requires i <= LogHeadingLinesToRemove
    ensures KeepFrom(lines, i) == NonBanner(lines[..WindowLength(|lines|, i)]) + lines[WindowLength(|lines|, i)..]
    decreases |lines|
  {
    var k := WindowLength(|lines|, i);
    if i == LogHeadingLinesToRemove {
      KeepFromPastWindow(lines, i);
      assert lines[..k] == [] && lines[k..] == lines;
    } else if |lines| > 0 {
      var rest := lines[1..];
      var k' := WindowLength(|rest|, i + 1);
      assert k == k' + 1;
      calc {
        KeepFrom(lines, i);
        { KeepFromStep(lines, i); }
        NonBanner(lines[..1]) + KeepFrom(rest, i + 1);
        { KeepFromShape(rest, i + 1); }
        NonBanner(lines[..1]) + (NonBanner(rest[..k']) + rest[k'..]);
        { WindowGlue(lines, k'); }
        NonBanner(lines[..k]) + lines[k..];
      }
    }
  }

  /** Re-associates one step of the window: the window of `lines` is its first line then the window of the rest. */
  lemma WindowGlue(lines: seq<string>, k': nat)
    requires k' + 1 <= |lines|
    ensures NonBanner(lines[..k' + 1]) + lines[k' + 1..] ==
      NonBanner(lines[..1]) + (NonBanner(lines[1..][..k']) + lines[1..][k'..])
  {
    var window := lines[..k' + 1];
    NonBannerSplit(window);
    assert window[..1] == lines[..1];
    assert window[1..] == lines[1..][..k'];
    assert lines[k' + 1..] == lines[1..][k'..];
  }

  /** A heading without a newline comes back as the first piece of the output. */
  lemma HeadingThenLines(heading: string, kept: seq<string>)
    requires '\n' !in heading
    requires forall i :: 0 <= i < |kept| ==> '\n' !in kept[i]
    ensures Split(LineFold(heading, kept), '\n') == [heading] + kept
  {
    LineFoldTail(heading, kept);
    var out := LineFold(heading, kept);
    var tail := out[|heading|..];
    assert out == heading + tail;
    SplitPrepend(heading, tail, '\n');
    assert heading + "" == heading;
  }

  /** Lines of the split text keep no newline after the filter. */
  lemma KeptLinesHaveNoNewline(lines: seq<string>, kept: seq<string>, k: nat)
    requires k <= |lines|
    requires forall i :: 0 <= i < |lines| ==> '\n' !in lines[i]
    requires kept == NonBanner(lines[..k]) + lines[k..]
    ensures forall i :: 0 <= i < |kept| ==> '\n' !in kept[i]
  {
    forall i | 0 <= i < |kept| ensures '\n' !in kept[i] {
      var x := kept[i];
      assert x in kept;
      if x in NonBanner(lines[..k]) { assert x in lines[..k]; } else { assert x in lines[k..]; }
    }
  }

  /** The log output is the heading line followed by exactly the kept lines: the first four
      lines without those starting with `## `, then every later line, all in their order. */
  lemma LogReplaceLines(t: Option<string>)
    requires HasText(t)
    ensures var lines := Split(t.value, '\n');
      var k := if LogHeadingLinesToRemove <= |lines| then LogHeadingLinesToRemove else |lines|;
      Split(LogReplace(t).value, '\n') == [LogHeading] + NonBanner(lines[..k]) + lines[k..]
  {
    var lines := Split(t.value, '\n');
    var kept := KeepFrom(lines, 0);
    KeepFromShape(lines, 0);
    KeptLinesHaveNoNewline(lines, kept, WindowLength(|lines|, 0));
    LogHeadingOneLine();
    HeadingThenLines(LogHeading, kept);
    assert LogReplace(t).value == LineFold(LogHeading, kept);
  }

  lemma LogHeadingOneLine()
    ensures '\n' !in LogHeading
  {
  }

  // ---------------------------------------------------------------------
  // json

  /** The own enumerable properties that object-rest destructuring copies; destructuring `null` throws. */
  function OwnEntries(v: Json): Option<map<string, Json>>
  {
    match v
    case JNull => None
    case JObject(m) => Some(m)
    case JArray(items) => Some(IndexEntries(items))
    case JString(s) => Some(IndexEntries(seq(|s|, i requires 0 <= i < |s| => JString([s[i]]))))
    case _ => Some(map[])
  }

  /** `{ '0': xs[0], '1': xs[1], ... }`. */
  function IndexEntries(xs: seq<Json>): (m: map<string, Json>)
    ensures forall i :: 0 <= i < |xs| ==> NatToString(i) in m && m[NatToString(i)] == xs[i]
  {
    if |xs| == 0 then map[]
    else
      var n := |xs| - 1;
      assert forall i :: 0 <= i < n ==> NatToString(i) != NatToString(n) by {
        forall i | 0 <= i < n ensures NatToString(i) != NatToString(n) {
          if NatToString(i) == NatToString(n) { NatToStringInjective(i, n); }
        }
      }
      IndexEntries(xs[..n])[NatToString(n) := xs[n]]
  }

  /** `{ title: 'PurpleTeam TLS Scanning Report', ...theRest }` where `theRest` lacks the vendor keys. */
  function Rebrand(m: map<string, Json>): (r: map<string, Json>)
    ensures r.Keys == (m.Keys - VendorKeys) + {"title"}
    ensures forall k :: k in VendorKeys ==> k !in r
    ensures forall k :: k in m && k !in VendorKeys ==> r[k] == m[k]
    ensures "title" !in m ==> r["title"] == JString(ReportTitle)
  {
    map["title" := JString(ReportTitle)] + (m - VendorKeys)
  }

  function JsonReplace(t: Option<string>, parse: string -> Option<Json>): (r: Result<map<string, Json>, ReplaceError>)
    ensures !HasText(t) ==> r == Failure(EmptyReport(Json))
    ensures HasText(t) && parse(t.value).None? ==> r == Failure(Unparsable(Json))
    ensures HasText(t) && parse(t.value) == Some(JNull) ==> r == Failure(Unparsable(Json))
    ensures HasText(t) && parse(t.value).Some? && parse(t.value).value.JObject? ==>
      r == Success(Rebrand(parse(t.value).value.members))
  {
    if !HasText(t) then Failure(EmptyReport(Json))
    else
      match parse(t.value)
      case None => Failure(Unparsable(Json))
      case Some(v) =>
        match OwnEntries(v)
        case None => Failure(Unparsable(Json))
        case Some(m) => Success(Rebrand(m))
  }

  // ---------------------------------------------------------------------
  // the write-back pipeline

  /** The file written back: `<reportFilePath>.<format>` gets `text`. */
  datatype ReportWrite = ReportWrite(format: Format, text: string)

  /** The replacer declared for a restyled format. */
  function Restyle(f: Format, t: Option<string>, parse: string -> Option<Json>, stringify: Json -> string): (r: Result<string, ReplaceError>)
    requires f in StyledFormats
    ensures !HasText(t) ==> r == Failure(EmptyReport(f))
    ensures f != Json ==> (r.Success? <==> HasText(t))
  {
    match f
    case Html => HtmlReplace(t)
    case Log => LogReplace(t)
    case Json =>
      (match JsonReplace(t, parse)
       case Success(m) => Success(stringify(JObject(m)))
       case Failure(e) => Failure(e))
    case Csv => assert false; Failure(EmptyReport(Csv))
  }

  function Rank(f: Format): nat
  {
    match f
    case Html => 0
    case Json => 1
    case Log => 2
    case Csv => 3
  }

  function ReadFile(files: map<Format, string>, f: Format): Option<string>
  {
    if f in files then Some(files[f]) else None
  }

  /** Reads each restyled format (`files` holds those that could be read), applies its replacer,
      logs and drops the ones that failed, and returns the writes to perform for the rest. */
  method ApplyReportStyling(files: map<Format, string>, parse: string -> Option<Json>, stringify: Json -> string)
    returns (writes: seq<ReportWrite>, errors: seq<ReplaceError>)
    ensures forall w :: w in writes <==>
      w.format in StyledFormats && Restyle(w.format, ReadFile(files, w.format), parse, stringify) == Success(w.text)
    ensures forall e :: e in errors ==>
      e.format in StyledFormats && Restyle(e.format, ReadFile(files, e.format), parse, stringify) == Failure(e)
    ensures forall i, j :: 0 <= i < j < |writes| ==> Rank(writes[i].format) < Rank(writes[j].format)
    ensures |writes| + |errors| == |StyledFormats|
    ensures forall w :: w in writes ==> w.format != Csv
  {
    writes, errors := [], [];
    var i := 0;
    while i < |StyledFormats|
      invariant 0 <= i <= |StyledFormats|
      invariant forall w :: w in writes <==>
        w.format in StyledFormats[..i] && Restyle(w.format, ReadFile(files, w.format), parse, stringify) == Success(w.text)
      invariant forall e :: e in errors ==>
        e.format in StyledFormats[..i] && Restyle(e.format, ReadFile(files, e.format), parse, stringify) == Failure(e)
      invariant forall w :: w in writes ==> Rank(w.format) < i
      invariant forall a, b :: 0 <= a < b < |writes| ==> Rank(writes[a].format) < Rank(writes[b].format)
      invariant |writes| + |errors| == i
    {
      var format := StyledFormats[i];
      assert Rank(format) == i;
      assert StyledFormats[..i + 1] == StyledFormats[..i] + [format];
      var replaced := Restyle(format, ReadFile(files, format), parse, stringify);
      match replaced {
        case Success(text) =>
          writes := writes + [ReportWrite(format, text)];
        case Failure(e) =>
          assert e.format == format by {
            match format
            case Html =>
            case Log =>
            case Json =>
          }
          errors := errors + [e];
      }
      i := i + 1;
    }
  }

  // ---------------------------------------------------------------------
  // the vulnerability count

  const ServiceField := "\"service\""
  const BenignSeverities: set<string> := {"\"OK\"", "\"INFO\"", "\"WARN\""}

  predicate NotServiceRow(row: string)
  {
    Split(row, ',')[0] != ServiceField
  }

  predicate NonEmptyRow(row: string)
  {
    |row| > 0
  }

  /** The 4th field is not a benign severity; a row with fewer fields has none, so it is not benign. */
  predicate NotBenign(row: string)
  {
    var fields := Split(row, ',');
    |fields| < 4 || fields[3] !in BenignSeverities
  }

  /** A data row that counts as a defect. */
  predicate IsAlertRow(row: string)
  {
    NotServiceRow(row) && NonEmptyRow(row) && NotBenign(row)
  }

  /** `rows.filter(p)`. */
  function Filter(s: seq<string>, p: string -> bool): (r: seq<string>)
    ensures |r| <= |s|
    ensures forall x :: x in r <==> x in s && p(x)
  {
    if |s| == 0 then [] else (if p(s[0]) then [s[0]] else []) + Filter(s[1..], p)
  }

  /** The rows below the CSV heading row. */
  function DataRows(text: string): seq<string>
  {
    Split(text, '\n')[1..]
  }

  /** `numberOfAlertsForSesh`: the filter chain over the rows of the CSV report; 0 when it could not be read. */
  function NumberOfAlerts(csv: Option<string>): (count: nat)
    ensures csv.None? ==> count == 0
    ensures csv.Some? ==> count <= |Split(csv.value, '\n')| - 1
  {
    match csv
    case None => 0
    case Some(text) => |Filter(Filter(Filter(DataRows(text), NotServiceRow), NonEmptyRow), NotBenign)|
  }

  lemma {:induction false} FilterConcat(a: seq<string>, b: seq<string>, p: string -> bool)
    ensures Filter(a + b, p) == Filter(a, p) + Filter(b, p)
  {
    if |a| > 0 {
      assert (a + b)[0] == a[0];
      assert (a + b)[1..] == a[1..] + b;
      FilterConcat(a[1..], b, p);
    } else {
      assert a + b == b;
    }
  }

  /** The chain of three filters keeps exactly the alert rows, in order. */
  lemma {:induction false} FilterChain(rows: seq<string>)
    ensures Filter(Filter(Filter(rows, NotServiceRow), NonEmptyRow), NotBenign) == Filter(rows, IsAlertRow)
  {
    if |rows| > 0 {
      var h := rows[0];
      FilterChain(rows[1..]);
      var f1 := Filter(rows, NotServiceRow);
      var h1: seq<string> := if NotServiceRow(h) then [h] else [];
      assert f1 == h1 + Filter(rows[1..], NotServiceRow);
      FilterConcat(h1, Filter(rows[1..], NotServiceRow), NonEmptyRow);
      var h2: seq<string> := if NotServiceRow(h) && NonEmptyRow(h) then [h] else [];
      assert Filter(h1, NonEmptyRow) == h2;
      FilterConcat(h2, Filter(Filter(rows[1..], NotServiceRow), NonEmptyRow), NotBenign);
      assert Filter(h2, NotBenign) == if IsAlertRow(h) then [h] else [];
    }
  }

  function AlertIndices(rows: seq<string>): set<nat>
  {
    set i: nat | i < |rows| && IsAlertRow(rows[i])
  }

  lemma AlertIndicesSnoc(rows: seq<string>, x: string)
    ensures AlertIndices(rows + [x]) == AlertIndices(rows) + (if IsAlertRow(x) then {|rows|} else {})
  {
    var r := rows + [x];
    forall i: nat | i < |rows| ensures r[i] == rows[i] { }
  }

  lemma {:induction false} FilterCountsIndices(rows: seq<string>)
    ensures |Filter(rows, IsAlertRow)| == |AlertIndices(rows)|
    decreases |rows|
  {
    if |rows| > 0 {
      var n := |rows| - 1;
      var front, x := rows[..n], rows[n];
      FilterCountsIndices(front);
      assert rows == front + [x];
      FilterConcat(front, [x], IsAlertRow);
      assert [x][1..] == [];
      AlertIndicesSnoc(front, x);
      assert n !in AlertIndices(front);
    } else {
      assert AlertIndices(rows) == {};
    }
  }

  /** The count is the number of data rows that are alert rows: not a `"service"` row, not empty,
      and with no benign severity (rows with fewer than four fields count). */
  lemma AlertCountIsRowCount(text: string)
    ensures NumberOfAlerts(Some(text)) == |AlertIndices(DataRows(text))|
  {
    FilterChain(DataRows(text));
    FilterCountsIndices(DataRows(text));
  }

  // ---------------------------------------------------------------------
  // the scanner's argument vector

  /** `tlsScannerSeverity ? ['--severity', tlsScannerSeverity] : []`: an empty string is falsy. */
  function SeverityFlag(severity: Option<string>): Option<string>
  {
    if severity.Some? && severity.value != "" then severity else None
  }

  /** The arguments `createProc` passes to `testssl.sh`. */
  function ScanArgs(reportFilePath: string, severity: Option<string>, baseUrl: string): (argv: seq<string>)
    ensures |argv| == 6 || |argv| == 8
    ensures |argv| == 8 <==> SeverityFlag(severity).Some?
    ensures argv[..5] == ["--ip=one", "--warnings", "off", "--outFile", reportFilePath]
    ensures argv[|argv| - 1] == baseUrl
  {
    ["--ip=one", "--warnings", "off", "--outFile", reportFilePath]
    + (match SeverityFlag(severity) case Some(s) => ["--severity", s] case None => [])
    + [baseUrl]
  }

  /** What a scan invocation asks of the scanner. */
  datatype ScanRequest = ScanRequest(reportFilePath: string, severity: Option<string>, baseUrl: string)

  /** Reads the request back out of an argument vector. */
  function ParseScanArgs(argv: seq<string>): Option<ScanRequest>
  {
    if |argv| == 6 && argv[..4] == ["--ip=one", "--warnings", "off", "--outFile"] then
      Some(ScanRequest(argv[4], None, argv[5]))
    else if |argv| == 8 && argv[..4] == ["--ip=one", "--warnings", "off", "--outFile"] && argv[5] == "--severity" then
      Some(ScanRequest(argv[4], Some(argv[6]), argv[7]))
    else None
  }

  /** The argument vector carries the report path, the (non-empty) severity and the target unchanged. */
  lemma ScanArgsRoundTrip(reportFilePath: string, severity: Option<string>, baseUrl: string)
    ensures ParseScanArgs(ScanArgs(reportFilePath, severity, baseUrl))
      == Some(ScanRequest(reportFilePath, SeverityFlag(severity), baseUrl))
  {
    var argv := ScanArgs(reportFilePath, severity, baseUrl);
    assert argv[..4] == argv[..5][..4];
  }

  // ---------------------------------------------------------------------
  // initialisation

  /** `${reportDir}report_tlsScannerId-${testSessionId}_${timestamp}`. */
  function ReportFilePath(reportDir: string, testSessionId: string, timestamp: string): string
  {
    reportDir + "report_tlsScannerId-" + testSessionId + "_" + timestamp
  }

  datatype InitError = InvalidReportDir

  /** The emissary's module state: its validated properties and the report base path. */
  class Emissary {
    var reportDir: Option<string>
    var reportFilePath: Option<string>

    constructor ()
      ensures reportDir.None? && reportFilePath.None?
    {
      reportDir := None;
      reportFilePath := None;
    }

    /** Validates `reportDir` against the configured directory, then records it and the report path. */
    method Init(emissaryReportDir: Option<string>, configuredReportDir: string, testSessionId: string, timestamp: string)
      returns (r: Result<(), InitError>)
      modifies this
      ensures r.Success? <==> emissaryReportDir == Some(configuredReportDir)
      ensures r.Success? ==> reportDir == Some(configuredReportDir)
      ensures r.Success? ==> reportFilePath == Some(ReportFilePath(configuredReportDir, testSessionId, timestamp))
      ensures r.Failure? ==> reportDir == old(reportDir) && reportFilePath == old(reportFilePath)
    {
      if emissaryReportDir != Some(configuredReportDir) {
        return Failure(InvalidReportDir);
      }
      reportDir := emissaryReportDir;
      reportFilePath := Some(ReportFilePath(configuredReportDir, testSessionId, timestamp));
      r := Success(());
    }
  }
}
