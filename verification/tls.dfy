/** The tester's session model: a status map in which exactly one status holds, the testing
    properties taken from a job, the transitions of a cucumber run (spawn, exit, close, error),
    the cucumber argument vector, and the test plan built from the active feature files. */
module Tls {
  import opened Wrappers
  import opened Text
  import Sut

  // ---------------------------------------------------------------------
  // statuses

  datatype Status = AwaitingJob | InitialisingTester | TesterInitialised | TestsRunning

  /** The key under which each status is kept. */
  function Label(s: Status): string
  {
    match s
    case AwaitingJob => "Awaiting Job."
    case InitialisingTester => "Initialising Tester."
    case TesterInitialised => "Tester initialised."
    case TestsRunning => "Tls tests are running."
  }

  /** The keys of the status map in their insertion order. */
  const StatusOrder: seq<Status> := [AwaitingJob, InitialisingTester, TesterInitialised, TestsRunning]

  /** The map in which `s` is the only true entry, over every status. */
  function SoleTrue(s: Status): (m: map<Status, bool>)
    ensures forall t :: t in StatusOrder <==> t in m
    ensures forall t :: t in m ==> (m[t] <==> t == s)
  {
    map t | t in StatusOrder :: t == s
  }

  lemma StatusOrderComplete(s: Status)
    ensures s in StatusOrder
  {
    match s
    case AwaitingJob =>
    case InitialisingTester => assert StatusOrder[1] == s;
    case TesterInitialised => assert StatusOrder[2] == s;
    case TestsRunning => assert StatusOrder[3] == s;
  }

  /** The map determines the status: distinct statuses give distinct maps. */
  lemma SoleTrueInjective(a: Status, b: Status)
    requires SoleTrue(a) == SoleTrue(b)
    ensures a == b
  {
    assert SoleTrue(a)[a];
  }

  /** The labels are distinct, so each status has a key of its own and the text `initTester`
      answers with names exactly one status. */
  lemma LabelInjective(a: Status, b: Status)
    requires Label(a) == Label(b)
    ensures a == b
  {
  }

  /** `Object.entries(map).find((e) => e[1] === true)`: the first true entry in key order. */
  function FindTrue(keys: seq<Status>, m: map<Status, bool>): (r: Option<Status>)
    ensures r.Some? ==> r.value in keys && r.value in m && m[r.value]
    ensures r.None? ==> forall k :: k in keys && k in m ==> !m[k]
  {
    if |keys| == 0 then None
    else if keys[0] in m && m[keys[0]] then Some(keys[0])
    else FindTrue(keys[1..], m)
  }

  // ---------------------------------------------------------------------
  // jobs and configuration

  /** `testJob.data.attributes` and `testJob.included`. */
  datatype TestJob = TestJob(sutProtocol: string, sutIp: string, sutPort: nat, included: seq<Sut.ResourceObject>)

  /** `included.find((resourceObject) => resourceObject.type === 'tlsScanner')`. */
  function FirstOfType(included: seq<Sut.ResourceObject>, resourceType: string): (r: Option<Sut.ResourceObject>)
    ensures r.None? <==> forall i :: 0 <= i < |included| ==> included[i].resourceType != resourceType
    ensures r.Some? ==> r.value.resourceType == resourceType
    ensures r.Some? ==> (exists i :: 0 <= i < |included| && included[i] == r.value &&
                           forall j :: 0 <= j < i ==> included[j].resourceType != resourceType)
  {
    if |included| == 0 then None
    else if included[0].resourceType == resourceType then
      Some(included[0])
    else
      var r := FirstOfType(included[1..], resourceType);
      if r.Some? then
        var i :| 0 <= i < |included[1..]| && included[1..][i] == r.value && r.value.resourceType == resourceType
          && (forall j :: 0 <= j < i ==> included[1..][j].resourceType != resourceType);
        assert included[i + 1] == r.value;
        assert forall j :: 0 <= j < i + 1 ==> included[j].resourceType != resourceType by {
          forall j | 0 <= j < i + 1 ensures included[j].resourceType != resourceType {
            if j > 0 { assert included[j] == included[1..][j - 1]; }
          }
        }
        r
      else
        assert forall i :: 0 <= i < |included| ==> included[i].resourceType != resourceType by {
          forall i | 0 <= i < |included| ensures included[i].resourceType != resourceType {
            if i > 0 { assert included[i] == included[1..][i - 1]; }
          }
        }
        r
  }

  /** The session properties recorded from a job. */
  function PropsOfJob(job: TestJob): (p: Sut.SessionProps)
    ensures p.protocol == job.sutProtocol && p.ip == job.sutIp && p.port == job.sutPort
    ensures p.testSession.Some? <==> exists i :: 0 <= i < |job.included| && job.included[i].resourceType == Sut.TlsScannerType
    ensures p.testSession.Some? ==> p.testSession.value in job.included && p.testSession.value.resourceType == Sut.TlsScannerType
  {
    Sut.SessionProps(job.sutProtocol, job.sutIp, job.sutPort, FirstOfType(job.included, Sut.TlsScannerType))
  }

  datatype CucumberConfig = CucumberConfig(binary: string, features: string, steps: string, tagExpression: string, timeout: nat)

  /** `execArgvDebugString` (absent or empty when not debugging) and the inspector port. */
  datatype DebugConfig = DebugConfig(execArgvDebugString: Option<string>, firstChildProcessInspectPort: nat)

  datatype TesterConfig = TesterConfig(reportDir: string, cucumber: CucumberConfig, resultsDir: string, debug: DebugConfig)

  /** The object passed as `--world-parameters`, before it is rendered as JSON. */
  datatype WorldParameters = WorldParameters(reportDir: string, sutProperties: Option<Sut.SessionProps>, timeout: nat)

  // ---------------------------------------------------------------------
  // the cucumber argument vector

  const NoSessionLabel := "noSessionPropsAvailable"

  /** The session id when the properties hold a test session, otherwise the placeholder. */
  function SessionLabel(sessionProps: Option<Sut.SessionProps>): string
  {
    match sessionProps
    case Some(p) => if p.testSession.Some? then p.testSession.value.id else NoSessionLabel
    case None => NoSessionLabel
  }

  function ResultFormatArg(resultsDir: string, sessionLabel: string, timestamp: string): string
  {
    "--format=message:" + resultsDir + "result_tlsScannerId-" + sessionLabel + "_" + timestamp + ".NDJSON"
  }

  /** The arguments of the cucumber command line; `encode` renders the world parameters as JSON. */
  function CucumberArgs(cfg: TesterConfig, sessionProps: Option<Sut.SessionProps>, timestamp: string,
                        encode: WorldParameters -> string): (argv: seq<string>)
    ensures |argv| == 11
    ensures argv[4] == ResultFormatArg(cfg.resultsDir, SessionLabel(sessionProps), timestamp)
    ensures argv[10] == encode(WorldParameters(cfg.reportDir, sessionProps, cfg.cucumber.timeout))
  {
    [ cfg.cucumber.binary,
      cfg.cucumber.features,
      "--require",
      cfg.cucumber.steps,
      ResultFormatArg(cfg.resultsDir, SessionLabel(sessionProps), timestamp),
      "--format-options",
      "{\"colorsEnabled\": true}",
      "--tags",
      cfg.cucumber.tagExpression,
      "--world-parameters",
      encode(WorldParameters(cfg.reportDir, sessionProps, cfg.cucumber.timeout)) ]
  }

  /** Only the result file and the world parameters depend on the session. */
  lemma CucumberArgsFixedPositions(cfg: TesterConfig, a: Option<Sut.SessionProps>, b: Option<Sut.SessionProps>,
                                   timestamp: string, encode: WorldParameters -> string)
    ensures var x, y := CucumberArgs(cfg, a, timestamp, encode), CucumberArgs(cfg, b, timestamp, encode);
      forall i :: 0 <= i < 11 && i != 4 && i != 10 ==> x[i] == y[i]
  {
  }

  /** Runs of different sessions started with the same timestamp write different result files. */
  lemma ResultFilesDistinct(resultsDir: string, id1: string, id2: string, timestamp: string)
    requires id1 != id2
    ensures ResultFormatArg(resultsDir, id1, timestamp) != ResultFormatArg(resultsDir, id2, timestamp)
  {
    var pre := "--format=message:" + resultsDir + "result_tlsScannerId-";
    var post := "_" + timestamp + ".NDJSON";
    assert ResultFormatArg(resultsDir, id1, timestamp) == pre + id1 + post;
    assert ResultFormatArg(resultsDir, id2, timestamp) == pre + id2 + post;
    if |id1| != |id2| {
      assert |pre + id1 + post| != |pre + id2 + post|;
    } else {
      assert (pre + id1 + post)[|pre|..|pre| + |id1|] == id1;
      assert (pre + id2 + post)[|pre|..|pre| + |id1|] == id2;
    }
  }

  /** `[...(execArgvDebugString ? [`${execArgvDebugString}:${port}`] : []), ...cucumberArgs]`. */
  function SpawnArgv(debug: DebugConfig, cucumberArgs: seq<string>): (argv: seq<string>)
    ensures var debugging := debug.execArgvDebugString.Some? && debug.execArgvDebugString.value != "";
      && |argv| == |cucumberArgs| + (if debugging then 1 else 0)
      && argv[|argv| - |cucumberArgs|..] == cucumberArgs
      && (debugging ==> argv[0] == debug.execArgvDebugString.value + ":" + NatToString(debug.firstChildProcessInspectPort))
  {
    match debug.execArgvDebugString
    case Some(s) =>
      if s != "" then [s + ":" + NatToString(debug.firstChildProcessInspectPort)] + cucumberArgs else cucumberArgs
    case None => cucumberArgs
  }

  // ---------------------------------------------------------------------
  // active feature files and the test plan

  datatype GherkinDocument = GherkinDocument(uri: string)
  datatype Pickle = Pickle(uri: string, name: string)

  /** The messages of the Gherkin stream that matter here. */
  datatype Envelope = DocumentEnvelope(document: GherkinDocument) | PickleEnvelope(pickle: Pickle) | OtherEnvelope

  /** The uris of the pickles the filter accepts, each judged with the latest document before it;
      a pickle before any document is skipped. */
  function MatchedUris(es: seq<Envelope>, doc: Option<GherkinDocument>, matches: (GherkinDocument, Pickle) -> bool): (uris: seq<string>)
    ensures |uris| <= |es|
    decreases |es|
  {
    if |es| == 0 then []
    else
      match es[0]
      case DocumentEnvelope(d) => MatchedUris(es[1..], Some(d), matches)
      case PickleEnvelope(p) =>
        (if doc.Some? && matches(doc.value, p) then [p.uri] else []) + MatchedUris(es[1..], doc, matches)
      case OtherEnvelope => MatchedUris(es[1..], doc, matches)
  }

  /** The remembered document after envelope `e`. */
  function NextDocument(e: Envelope, doc: Option<GherkinDocument>): Option<GherkinDocument>
  {
    if e.DocumentEnvelope? then Some(e.document) else doc
  }

  /** The latest document among the first `i` envelopes, or `doc` when there is none. */
  function DocumentBefore(es: seq<Envelope>, doc: Option<GherkinDocument>, i: nat): Option<GherkinDocument>
    requires i <= |es|
    decreases i
  {
    if i == 0 then doc else NextDocument(es[i - 1], DocumentBefore(es, doc, i - 1))
  }

  /** Envelope `i` is a pickle that the filter accepts, judged with the latest document before it. */
  predicate AcceptedAt(es: seq<Envelope>, doc: Option<GherkinDocument>, matches: (GherkinDocument, Pickle) -> bool, i: int)
  {
    && 0 <= i < |es|
    && es[i].PickleEnvelope?
    && DocumentBefore(es, doc, i).Some?
    && matches(DocumentBefore(es, doc, i).value, es[i].pickle)
  }

  /** Dropping the first envelope moves its document into the remembered one. */
  lemma {:induction false} DocumentBeforeShift(es: seq<Envelope>, doc: Option<GherkinDocument>, i: nat)
    requires i < |es|
    ensures DocumentBefore(es, doc, i + 1) == DocumentBefore(es[1..], NextDocument(es[0], doc), i)
  {
    if i > 0 {
      DocumentBeforeShift(es, doc, i - 1);
      assert es[1..][i - 1] == es[i];
    }
  }

  /** The document before a pickle is the last document envelope preceding it. */
  lemma {:induction false} DocumentBeforeLatest(es: seq<Envelope>, doc: Option<GherkinDocument>, j: nat, i: nat)
    requires j < i <= |es| && es[j].DocumentEnvelope?
    requires forall k :: j < k < i ==> !es[k].DocumentEnvelope?
    ensures DocumentBefore(es, doc, i) == Some(es[j].document)
    decreases i
  {
    if i > j + 1 {
      DocumentBeforeLatest(es, doc, j, i - 1);
    }
  }

  /** A uri is reported exactly when some pickle with that uri is accepted by the filter,
      judged with the latest document before it. */
  lemma {:induction false} MatchedUrisExactly(es: seq<Envelope>, doc: Option<GherkinDocument>,
                                             matches: (GherkinDocument, Pickle) -> bool, u: string)
    ensures u in MatchedUris(es, doc, matches) <==> exists i :: AcceptedAt(es, doc, matches, i) && es[i].pickle.uri == u
    decreases |es|
  {
    if |es| > 0 {
      var rest := es[1..];
      var nd := NextDocument(es[0], doc);
      MatchedUrisExactly(rest, nd, matches, u);
      var head := if es[0].PickleEnvelope? && doc.Some? && matches(doc.value, es[0].pickle) then [es[0].pickle.uri] else [];
      assert MatchedUris(es, doc, matches) == head + MatchedUris(rest, nd, matches);
      assert AcceptedAt(es, doc, matches, 0) <==> |head| == 1;
      forall i | 0 <= i < |rest|
        ensures AcceptedAt(es, doc, matches, i + 1) <==> AcceptedAt(rest, nd, matches, i)
      {
        DocumentBeforeShift(es, doc, i);
        assert rest[i] == es[i + 1];
      }
      if u in MatchedUris(es, doc, matches) {
        if u in head {
          assert AcceptedAt(es, doc, matches, 0) && es[0].pickle.uri == u;
        } else {
          var i :| AcceptedAt(rest, nd, matches, i) && rest[i].pickle.uri == u;
          assert AcceptedAt(es, doc, matches, i + 1) && es[i + 1].pickle.uri == u;
        }
      }
      if exists i :: AcceptedAt(es, doc, matches, i) && es[i].pickle.uri == u {
        var i :| AcceptedAt(es, doc, matches, i) && es[i].pickle.uri == u;
        if i > 0 {
          assert AcceptedAt(rest, nd, matches, i - 1) && rest[i - 1].pickle.uri == u;
        }
      }
    }
  }

  /** A pickle accepted with the last document before it is reported. */
  lemma AcceptedPickleReported(es: seq<Envelope>, matches: (GherkinDocument, Pickle) -> bool, j: nat, i: nat)
    requires j < i < |es| && es[i].PickleEnvelope? && es[j].DocumentEnvelope?
    requires forall k :: j < k < i ==> !es[k].DocumentEnvelope?
    requires matches(es[j].document, es[i].pickle)
    ensures es[i].pickle.uri in MatchedUris(es, None, matches)
  {
    DocumentBeforeLatest(es, None, j, i);
    assert AcceptedAt(es, None, matches, i);
    MatchedUrisExactly(es, None, matches, es[i].pickle.uri);
  }

  /** A stream without a document reports nothing. */
  lemma {:induction false} NoDocumentNoUris(es: seq<Envelope>, matches: (GherkinDocument, Pickle) -> bool)
    requires forall i :: 0 <= i < |es| ==> !es[i].DocumentEnvelope?
    ensures MatchedUris(es, None, matches) == []
    decreases |es|
  {
    if |es| > 0 {
      NoDocumentNoUris(es[1..], matches);
    }
  }

  /** The envelope walk: remembers the latest document and collects the accepted pickles' uris. */
  method MatchingPickleUris(envelopes: seq<Envelope>, matches: (GherkinDocument, Pickle) -> bool) returns (uris: seq<string>)
    ensures uris == MatchedUris(envelopes, None, matches)
  {
    var gherkinDocument: Option<GherkinDocument> := None;
    uris := [];
    var i := 0;
    while i < |envelopes|
      invariant 0 <= i <= |envelopes|
      invariant uris + MatchedUris(envelopes[i..], gherkinDocument, matches) == MatchedUris(envelopes, None, matches)
    {
      assert envelopes[i..][1..] == envelopes[i + 1..];
      match envelopes[i] {
        case DocumentEnvelope(d) =>
          gherkinDocument := Some(d);
        case PickleEnvelope(p) =>
          if gherkinDocument.Some? && matches(gherkinDocument.value, p) {
            assert uris + MatchedUris(envelopes[i..], gherkinDocument, matches)
              == (uris + [p.uri]) + MatchedUris(envelopes[i + 1..], gherkinDocument, matches);
            uris := uris + [p.uri];
          }
        case OtherEnvelope =>
      }
      i := i + 1;
    }
    assert envelopes[i..] == [];
  }

  /** The index of the first occurrence of `x` in `xs`. */
  function FirstIndex(xs: seq<string>, x: string): (i: nat)
    requires x in xs
    ensures i < |xs| && xs[i] == x && forall j :: 0 <= j < i ==> xs[j] != x
  {
    if xs[0] == x then 0 else 1 + FirstIndex(xs[1..], x)
  }

  /** `reduce((accum, cV) => [...accum, ...(accum.includes(cV) ? [] : [cV])], [])`. */
  function Dedupe(xs: seq<string>): (r: seq<string>)
    ensures forall x :: x in r <==> x in xs
    ensures forall i, j :: 0 <= i < j < |r| ==> r[i] != r[j]
    ensures |r| <= |xs|
  {
    if |xs| == 0 then []
    else
      var d := Dedupe(xs[..|xs| - 1]);
      var x := xs[|xs| - 1];
      assert forall y :: y in xs <==> y in xs[..|xs| - 1] || y == x by {
        assert xs == xs[..|xs| - 1] + [x];
      }
      if x in d then d else d + [x]
  }

  /** Appending an element does not move an earlier first occurrence. */
  lemma FirstIndexPrefix(xs: seq<string>, y: string)
    requires |xs| > 0 && y in xs[..|xs| - 1]
    ensures FirstIndex(xs, y) == FirstIndex(xs[..|xs| - 1], y)
  {
    var front := xs[..|xs| - 1];
    var k := FirstIndex(front, y);
    assert xs[k] == front[k];
    assert forall j :: 0 <= j < k ==> xs[j] == front[j];
    FirstIndexUnique(xs, y, k);
  }

  /** An element not occurring earlier first occurs at its own position. */
  lemma FirstIndexLast(xs: seq<string>)
    requires |xs| > 0 && xs[|xs| - 1] !in xs[..|xs| - 1]
    ensures FirstIndex(xs, xs[|xs| - 1]) == |xs| - 1
  {
    var x := xs[|xs| - 1];
    assert forall j :: 0 <= j < |xs| - 1 ==> xs[j] == xs[..|xs| - 1][j];
    FirstIndexUnique(xs, x, |xs| - 1);
  }

  lemma FirstIndexUnique(xs: seq<string>, x: string, k: nat)
    requires k < |xs| && xs[k] == x && forall j :: 0 <= j < k ==> xs[j] != x
    ensures FirstIndex(xs, x) == k
  {
  }

  /** The kept uris appear in the order of their first occurrence. */
  lemma {:induction false} DedupeKeepsFirstOrder(xs: seq<string>)
    ensures forall i, j :: 0 <= i < j < |Dedupe(xs)| ==>
      FirstIndex(xs, Dedupe(xs)[i]) < FirstIndex(xs, Dedupe(xs)[j])
    decreases |xs|
  {
    if |xs| > 0 {
      var front := xs[..|xs| - 1];
      var x := xs[|xs| - 1];
      var d := Dedupe(front);
      var e := Dedupe(xs);
      DedupeKeepsFirstOrder(front);
      assert e == if x in d then d else d + [x];
      forall i, j | 0 <= i < j < |e| ensures FirstIndex(xs, e[i]) < FirstIndex(xs, e[j]) {
        assert e[i] == d[i] && d[i] in front;
        FirstIndexPrefix(xs, d[i]);
        if j < |d| {
          assert e[j] == d[j] && d[j] in front;
          FirstIndexPrefix(xs, d[j]);
        } else {
          assert e[j] == x && x !in front;
          FirstIndexLast(xs);
        }
      }
    }
  }

  /** Drops the leading empty feature texts. */
  function DropLeadingEmpty(fs: seq<string>): (r: seq<string>)
    ensures |r| == 0 || r[0] != ""
  {
    if |fs| > 0 && fs[0] == "" then DropLeadingEmpty(fs[1..]) else fs
  }

  /** `reduce((acc, feature) => `${acc}${!acc.length > 0 ? feature : `\n\n${feature}`}`, acc)`. */
  function PlanFold(acc: string, fs: seq<string>): (r: string)
    ensures StartsWith(r, acc)
    ensures |acc| == 0 && (forall k :: 0 <= k < |fs| ==> fs[k] == "") ==> r == ""
    decreases |fs|
  {
    if |fs| == 0 then acc
    else PlanFold(acc + (if |acc| == 0 then fs[0] else "\n\n" + fs[0]), fs[1..])
  }

  /** The plan: the features after the leading empty ones, separated by blank lines. */
  function PlanText(features: seq<string>): (plan: string)
    ensures plan == Join(DropLeadingEmpty(features), "\n\n")
  {
    PlanFoldFromEmpty(features);
    PlanFold("", features)
  }

  lemma {:induction false} PlanFoldNonEmpty(acc: string, fs: seq<string>)
    requires |acc| > 0
    ensures PlanFold(acc, fs) == Join([acc] + fs, "\n\n")
    decreases |fs|
  {
    if |fs| > 0 {
      PlanFoldNonEmpty(acc + "\n\n" + fs[0], fs[1..]);
      assert acc + ("\n\n" + fs[0]) == acc + "\n\n" + fs[0];
      JoinGlue(acc, fs[0], fs[1..], "\n\n");
      assert [acc, fs[0]] + fs[1..] == [acc] + fs;
    }
  }

  /** The plan is the features joined by a blank line; leading empty features add no separator. */
  /** Folding from the empty text swallows the leading empty features and then joins the
      rest with blank lines. */
  lemma {:induction false} PlanFoldFromEmpty(features: seq<string>)
    ensures PlanFold("", features) == Join(DropLeadingEmpty(features), "\n\n")
    decreases |features|
  {
    if |features| > 0 {
      var f := features[0];
      assert "" + f == f;
      if f == "" {
        PlanFoldFromEmpty(features[1..]);
      } else {
        PlanFoldNonEmpty(f, features[1..]);
        assert [f] + features[1..] == features;
      }
    }
  }

  lemma PlanTextExamples()
    ensures PlanText(["a", "b"]) == "a\n\nb"
    ensures PlanText(["", "a"]) == "a"
    ensures PlanText([]) == ""
  {
    assert ["a", "b"][1..] == ["b"];
    assert ["", "a"][1..] == ["a"];
  }

  datatype PlanError = UnreadableFeature(uri: string)

  /** The texts of the feature files, in the order of their uris. */
  function FeatureTexts(uris: seq<string>, features: map<string, string>): (texts: seq<string>)
    requires forall u :: u in uris ==> u in features
    ensures |texts| == |uris|
    ensures forall i :: 0 <= i < |uris| ==> texts[i] == features[uris[i]]
  {
    if |uris| == 0 then []
    else FeatureTexts(uris[..|uris| - 1], features) + [features[uris[|uris| - 1]]]
  }

  /** Reads the feature file of every uri, in order; `features` holds the files that could be read. */
  method ReadFeatures(uris: seq<string>, features: map<string, string>) returns (r: Result<seq<string>, PlanError>)
    ensures r.Success? <==> forall u :: u in uris ==> u in features
    ensures r.Success? ==> r.value == FeatureTexts(uris, features)
    ensures r.Failure? ==> r.error.uri in uris && r.error.uri !in features
  {
    var texts: seq<string> := [];
    var i := 0;
    while i < |uris|
      invariant 0 <= i <= |uris|
      invariant forall u :: u in uris[..i] ==> u in features
      invariant texts == FeatureTexts(uris[..i], features)
    {
      if uris[i] !in features {
        return Failure(UnreadableFeature(uris[i]));
      }
      assert uris[..i + 1] == uris[..i] + [uris[i]];
      texts := texts + [features[uris[i]]];
      i := i + 1;
    }
    assert uris[..i] == uris;
    r := Success(texts);
  }

  /** Why `startCucs` does not start a run. */
  datatype StartError = NotInitialised | NoTestSession

  // ---------------------------------------------------------------------
  // the tester

  class Tls {
    const config: TesterConfig
    var statusMap: map<Status, bool>
    var testingProps: Option<Sut.SessionProps>

    /** Exactly one status holds, and the tester holds properties unless it awaits a job. */
    ghost predicate Valid()
      reads this
    {
      && (exists s :: statusMap == SoleTrue(s))
      && AwaitingJob in statusMap
      && (testingProps.None? <==> statusMap[AwaitingJob])
    }

    constructor (config: TesterConfig)
      ensures Valid()
      ensures this.config == config
      ensures statusMap == SoleTrue(AwaitingJob) && testingProps.None?
    {
      this.config := config;
      statusMap := SoleTrue(AwaitingJob);
      testingProps := None;
    }

    /** `#status()`: the status whose entry is true. */
    function Status(): (s: Status)
      requires Valid()
      reads this
      ensures statusMap == SoleTrue(s)
    {
      var t :| statusMap == SoleTrue(t);
      StatusOrderComplete(t);
      var found := FindTrue(StatusOrder, statusMap);
      if found.Some? then
        assert found.value == t;
        found.value
      else
        assert false; t
    }

    /** `#status(state)`: every entry is set false, then the entry of `state` true. */
    method SetStatus(state: Status) returns (r: Status)
      modifies this
      ensures statusMap == SoleTrue(state) && r == state
      ensures testingProps == old(testingProps)
    {
      var i := 0;
      var m := statusMap;
      var keys := StatusOrder;
      while i < |keys|
        invariant 0 <= i <= |keys|
        invariant forall k :: k in keys[..i] ==> k in m && !m[k]
      {
        m := m[keys[i] := false];
        assert keys[..i + 1] == keys[..i] + [keys[i]];
        i := i + 1;
      }
      assert keys[..i] == keys;
      m := m[state := true];
      forall t ensures t in m && (m[t] <==> t == state) {
        StatusOrderComplete(t);
      }
      assert m.Keys == SoleTrue(state).Keys by {
        forall t ensures t in m ==> t in SoleTrue(state) { StatusOrderComplete(t); }
      }
      statusMap := m;
      r := state;
    }

    /** Back to awaiting a job, with no properties, whatever the state was. */
    method Reset()
      modifies this
      ensures Valid()
      ensures Status() == AwaitingJob && testingProps.None?
    {
      var _ := SetStatus(AwaitingJob);
      testingProps := None;
    }

    /** A tester that is busy answers with its status and changes nothing; an idle one records
        the job's properties and reports itself initialised. */
    method InitTester(job: TestJob) returns (r: string)
      requires Valid()
      modifies this
      ensures Valid()
      ensures old(Status()) != AwaitingJob ==>
        r == Label(old(Status())) && statusMap == old(statusMap) && testingProps == old(testingProps)
      ensures old(Status()) == AwaitingJob ==>
        r == Label(TesterInitialised) && Status() == TesterInitialised && testingProps == Some(PropsOfJob(job))
    {
      if Status() != AwaitingJob {
        return Label(Status());
      }
      var _ := SetStatus(InitialisingTester);
      testingProps := Some(PropsOfJob(job));
      var s := SetStatus(TesterInitialised);
      SoleTrueInjective(Status(), TesterInitialised);
      r := Label(s);
    }

    /** Starts a cucumber run for the recorded properties: answers with the child's argument
        vector and marks the tests running. Without properties, or without a test session in
        them, nothing starts and nothing changes. The status is not consulted. */
    method StartCucs(timestamp: string, encode: WorldParameters -> string) returns (r: Result<seq<string>, StartError>)
      requires Valid()
      modifies this
      ensures Valid()
      ensures old(testingProps).None? ==> r == Failure(NotInitialised)
      ensures old(testingProps).Some? && old(testingProps).value.testSession.None? ==> r == Failure(NoTestSession)
      ensures r.Failure? ==> statusMap == old(statusMap) && testingProps == old(testingProps)
      ensures r.Success? <==> old(testingProps).Some? && old(testingProps).value.testSession.Some?
      ensures r.Success? ==> r.value == SpawnArgv(config.debug, CucumberArgs(config, old(testingProps), timestamp, encode))
      ensures r.Success? ==> Status() == TestsRunning && testingProps == old(testingProps)
    {
      if testingProps.None? {
        return Failure(NotInitialised);
      }
      if testingProps.value.testSession.None? {
        return Failure(NoTestSession);
      }
      var argv := SpawnArgv(config.debug, CucumberArgs(config, testingProps, timestamp, encode));
      var _ := SetStatus(TestsRunning);
      SoleTrueInjective(Status(), TestsRunning);
      r := Success(argv);
    }

    /** The child exited, with any code: back to awaiting a job. */
    method OnCucumberExit(code: Option<int>, signal: Option<string>)
      modifies this
      ensures Valid()
      ensures Status() == AwaitingJob && testingProps.None?
    {
      Reset();
    }

    /** The child could not be started: back to awaiting a job. */
    method OnCucumberError(err: string)
      modifies this
      ensures Valid()
      ensures Status() == AwaitingJob && testingProps.None?
    {
      Reset();
    }

    /** `close` only logs: the status and the properties stay as they are. */
    method OnCucumberClose(code: Option<int>)
      requires Valid()
      ensures Valid()
      ensures Status() == old(Status()) && testingProps == old(testingProps)
    {
    }

    /** The test plan: the arguments a cucumber command line is built with (no session), the
        active feature uris without repeats, and their texts joined; `features` holds the files
        that could be read. The tester's state is not touched. */
    method TestPlan(envelopes: seq<Envelope>, matches: (GherkinDocument, Pickle) -> bool, features: map<string, string>,
                    timestamp: string, encode: WorldParameters -> string)
      returns (argv: seq<string>, plan: Result<string, PlanError>)
      ensures argv == ["node"] + CucumberArgs(config, None, timestamp, encode)
      ensures argv[5] == ResultFormatArg(config.resultsDir, NoSessionLabel, timestamp)
      ensures var uris := Dedupe(MatchedUris(envelopes, None, matches));
        && (plan.Success? <==> forall u :: u in uris ==> u in features)
        && (plan.Success? ==> plan.value == PlanText(FeatureTexts(uris, features)))
        && (plan.Failure? ==> plan.error.uri in uris && plan.error.uri !in features)
    {
      argv := ["node"] + CucumberArgs(config, None, timestamp, encode);
      var matched := MatchingPickleUris(envelopes, matches);
      var uris := Dedupe(matched);
      var texts := ReadFeatures(uris, features);
      plan := if texts.Success? then Success(PlanText(texts.value)) else Failure(texts.error);
    }
  }
}
