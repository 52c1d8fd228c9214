/** The system under test as the scan steps see it: its validated connection properties,
    the numeric and enumeration constraints the property schema enforces, and the base URL
    built from protocol, host and port. */
module Sut {
  import opened Wrappers
  import opened Text

  /** `testSession.attributes`: both entries are optional in the job. */
  datatype Attributes = Attributes(tlsScannerSeverity: Option<string>, alertThreshold: Option<int>)

  /** A JSON:API resource object from the job's `included` list (`type` is renamed `resourceType`). */
  datatype ResourceObject = ResourceObject(resourceType: string, id: string, attributes: Attributes)

  /** The session properties handed to the steps: `{ protocol, ip, port, testSession }`. */
  datatype SessionProps = SessionProps(protocol: string, ip: string, port: nat, testSession: Option<ResourceObject>)

  const TlsScannerType := "tlsScanner"
  const Severities: set<string> := {"LOW", "MEDIUM", "HIGH", "CRITICAL"}
  const DefaultAlertThreshold: nat := 0
  const MaxAlertThreshold: nat := 1000
  const MaxPort: nat := 65535

  predicate IsAlphanumeric(s: string)
  {
    |s| > 0 && forall i :: 0 <= i < |s| ==> ('a' <= s[i] <= 'z' || 'A' <= s[i] <= 'Z' || '0' <= s[i] <= '9')
  }

  /** The numeric and enumeration constraints of the property schema. */
  predicate SutSchemaAccepts(p: SessionProps)
  {
    && p.protocol in {"https", "http"}
    && |p.ip| > 0
    && p.port <= MaxPort
    && (p.testSession.Some? ==>
          var ts := p.testSession.value;
          && ts.resourceType == TlsScannerType
          && IsAlphanumeric(ts.id)
          && (ts.attributes.tlsScannerSeverity.Some? ==> ts.attributes.tlsScannerSeverity.value in Severities)
          && (ts.attributes.alertThreshold.Some? ==>
                0 <= ts.attributes.alertThreshold.value <= MaxAlertThreshold))
  }

  /** The alert threshold after validation: the job's value, or the configured default. */
  function AlertThreshold(p: SessionProps): (t: nat)
    requires SutSchemaAccepts(p) && p.testSession.Some?
    ensures t <= MaxAlertThreshold
    ensures p.testSession.value.attributes.alertThreshold.None? ==> t == DefaultAlertThreshold
    ensures p.testSession.value.attributes.alertThreshold.Some? ==> t == p.testSession.value.attributes.alertThreshold.value
  {
    match p.testSession.value.attributes.alertThreshold
    case Some(t) => t
    case None => DefaultAlertThreshold
  }

  datatype ValidationError = SchemaViolation

  /** The schema's verdict: the properties when they are accepted, with the alert threshold
      filled in from the configured default when the job gives none. */
  function Validate(p: SessionProps): (r: Result<SessionProps, ValidationError>)
    ensures r.Success? <==> SutSchemaAccepts(p)
    ensures r.Success? ==> SutSchemaAccepts(r.value)
    ensures r.Success? ==> r.value.protocol == p.protocol && r.value.ip == p.ip && r.value.port == p.port
    ensures r.Success? ==> (r.value.testSession.Some? <==> p.testSession.Some?)
    ensures r.Success? && p.testSession.Some? ==>
      var ts, vs := p.testSession.value, r.value.testSession.value;
      && vs.resourceType == ts.resourceType && vs.id == ts.id
      && vs.attributes.tlsScannerSeverity == ts.attributes.tlsScannerSeverity
      && vs.attributes.alertThreshold == Some(AlertThreshold(p) as int)
  {
    if !SutSchemaAccepts(p) then Failure(SchemaViolation)
    else if p.testSession.None? then Success(p)
    else
      var ts := p.testSession.value;
      var attributes := ts.attributes.(alertThreshold := Some(AlertThreshold(p) as int));
      Success(p.(testSession := Some(ts.(attributes := attributes))))
  }

  /** Validating accepted properties again changes nothing, and the threshold is kept. */
  lemma ValidateIdempotent(p: SessionProps)
    requires Validate(p).Success?
    ensures Validate(Validate(p).value) == Validate(p)
    ensures p.testSession.Some? ==> AlertThreshold(Validate(p).value) == AlertThreshold(p)
  {
    var v := Validate(p).value;
    if p.testSession.Some? {
      assert v.testSession.value.attributes == v.testSession.value.attributes.(alertThreshold := Some(AlertThreshold(v) as int));
    }
  }

  /** `{ http: 80, https: 443 }[protocol]`. */
  function DefaultPort(protocol: string): Option<nat>
  {
    if protocol == "http" then Some(80)
    else if protocol == "https" then Some(443)
    else None
  }

  function Origin(p: SessionProps): string
  {
    p.protocol + "://" + p.ip
  }

  /** `protocol://ip`, followed by `:port` unless the port is the protocol's default. */
  function BaseUrl(p: SessionProps): (url: string)
    ensures StartsWith(url, Origin(p))
    ensures url == Origin(p) <==> DefaultPort(p.protocol) == Some(p.port)
  {
    Origin(p) + (if DefaultPort(p.protocol) == Some(p.port) then "" else ":" + NatToString(p.port))
  }

  /** Reads the port back out of a base URL built for the given protocol and host. */
  function PortOfBaseUrl(url: string, protocol: string, ip: string): Option<nat>
  {
    var origin := protocol + "://" + ip;
    if !StartsWith(url, origin) then None
    else
      var rest := url[|origin|..];
      if rest == "" then DefaultPort(protocol)
      else if rest[0] == ':' then Some(ParseNat(rest[1..]))
      else None
  }

  /** The port can always be recovered from the base URL, so elision loses nothing. */
  lemma BaseUrlRoundTrip(p: SessionProps)
    ensures PortOfBaseUrl(BaseUrl(p), p.protocol, p.ip) == Some(p.port)
  {
    var url := BaseUrl(p);
    var origin := Origin(p);
    assert url[..|origin|] == origin;
    if DefaultPort(p.protocol) != Some(p.port) {
      var rest := ":" + NatToString(p.port);
      assert url == origin + rest;
      assert url[|origin|..] == rest;
      assert rest[1..] == NatToString(p.port);
      ParseNatToString(p.port);
    } else {
      assert url[|origin|..] == "";
    }
  }

  /** Two sessions for the same protocol and host share a base URL only if they share a port. */
  lemma BaseUrlDeterminesPort(p: SessionProps, q: SessionProps)
    requires p.protocol == q.protocol && p.ip == q.ip
    requires BaseUrl(p) == BaseUrl(q)
    ensures p.port == q.port
  {
    BaseUrlRoundTrip(p);
    BaseUrlRoundTrip(q);
  }

  /** The default port of the OTHER protocol is kept: `https` on port 80 still names `:80`. */
  lemma CrossDefaultPortKept(ip: string)
    ensures BaseUrl(SessionProps("https", ip, 80, None)) == "https://" + ip + ":80"
    ensures BaseUrl(SessionProps("http", ip, 443, None)) == "http://" + ip + ":443"
  {
  }

  lemma BaseUrlExamples()
    ensures BaseUrl(SessionProps("https", "h", 443, None)) == "https://h"
    ensures BaseUrl(SessionProps("http", "h", 8, None)) == "http://h:8"
  {
  }

  /** The module-level property record: empty until `init` validates and stores the job's properties. */
  class SystemUnderTest {
    var properties: Option<SessionProps>

    constructor ()
      ensures properties.None?
    {
      properties := None;
    }

    /** Stores the validated properties; rejected properties raise and leave the record as it was. */
    method Init(sutProperties: SessionProps) returns (r: Result<(), ValidationError>)
      modifies this
      ensures r.Success? <==> SutSchemaAccepts(sutProperties)
      ensures r.Success? ==> properties == Some(Validate(sutProperties).value)
      ensures r.Failure? ==> properties == old(properties)
    {
      var v := Validate(sutProperties);
      if v.Failure? {
        return Failure(v.error);
      }
      properties := Some(v.value);
      r := Success(());
    }
  }
}
