/**
 * Health verdicts of the supervisor: the HTTP, TCP and process probes and
 * the dispatch over the manifest's health type. The network is not
 * modelled: what a probe observes is given by an oracle function.
 */
module Health {
  import opened Wrappers
  import opened Strings
  import opened Manifest

  datatype HealthStatus = Healthy | Unhealthy | Stopped | Unknown

  /** The health dictionary: `status`, and the optional `status_code`,
      `error` and `last_check` keys. */
  datatype HealthResult = HealthResult(
    status: HealthStatus,
    statusCode: Option<int>,
    error: Option<string>,
    lastCheck: Option<string>)

  function Bare(status: HealthStatus): HealthResult {
    HealthResult(status, None, None, None)
  }

  /** The health recorded at registration: `{"status": "unknown"}`. */
  const InitialHealth := Bare(Unknown)

  /** What an HTTP GET observes: the final response's status code and reason
      phrase, a connection-level `URLError` with its reason, or another exception. */
  datatype HttpOutcome =
    | Responded(code: int, reason: string)
    | UrlFailure(reason: string)
    | OtherFailure(message: string)

  /** What a TCP connect observes: the `connect_ex` result, or an exception. */
  datatype TcpOutcome = ConnectResult(code: int) | TcpFailure(message: string)

  type HttpProbe = (string, int) -> HttpOutcome   // (url, timeout) -> outcome
  type TcpProbe = (int, int) -> TcpOutcome        // (port, timeout) -> outcome

  // ------------------------------------------------------------ configuration

  function ProbePort(c: HealthConfig): int { c.port.GetOr(8000) }
  function ProbeTimeout(c: HealthConfig): int { c.timeout.GetOr(5) }
  function Expected(c: HealthConfig): int { c.expectedStatus.GetOr(200) }

  /** The URL the HTTP check requests. */
  function HttpUrl(c: HealthConfig): (url: string)
    ensures StartsWith(url, "http://localhost:")
    ensures EndsWith(url, c.endpoint.GetOr("/health"))
  {
    "http://localhost:" + IntToString(ProbePort(c)) + c.endpoint.GetOr("/health")
  }

  /** With no keys set the HTTP check requests `http://localhost:8000/health`. */
  lemma DefaultHttpUrl()
    ensures HttpUrl(HealthConfig(None, None, None, None, None)) == "http://localhost:8000/health"
  {
    DefaultPortText();
  }

  lemma DefaultPortText()
    ensures IntToString(8000) == "8000"
  {
    assert Digits(8) == "8";
    assert Digits(80) == Digits(8) + ['0'];
    assert Digits(800) == Digits(80) + ['0'];
    assert Digits(8000) == Digits(800) + ['0'];
  }

  // ------------------------------------------------------------------ verdicts

  /** The HTTP verdict on a response that reached the comparison: healthy
      exactly when the status code is the expected one. */
  function HttpVerdict(expected: int, o: HttpOutcome): (r: HealthResult)
    ensures r.status == Healthy <==> o.Responded? && o.code == expected
    ensures r.status == Healthy || r.status == Unhealthy
    ensures r.status == Healthy ==> r.error.None?
    ensures r.status == Unhealthy ==> r.error.Some?
    ensures r.statusCode.Some? <==> o.Responded?
    ensures o.Responded? ==> r.statusCode == Some(o.code)
  {
    match o
    case Responded(code, _) =>
      if code == expected then HealthResult(Healthy, Some(code), None, None)
      else HealthResult(Unhealthy, Some(code), Some("Expected " + IntToString(expected) + ", got " + IntToString(code)), None)
    case UrlFailure(reason) => HealthResult(Unhealthy, None, Some(reason), None)
    case OtherFailure(message) => HealthResult(Unhealthy, None, Some(message), None)
  }

  /** The HTTP check as the code runs it under `urllib`: `urlopen` raises
      `HTTPError` (a `URLError`) for every final status outside 200-299, so
      such a response never reaches the comparison with the expected status. */
  function HttpVerdictAsWritten(expected: int, o: HttpOutcome): (r: HealthResult)
    ensures r.status == Healthy <==> o.Responded? && 200 <= o.code < 300 && o.code == expected
    ensures r.status == Healthy || r.status == Unhealthy
  {
    match o
    case Responded(code, reason) =>
      if 200 <= code < 300 then HttpVerdict(expected, o)
      else HttpVerdict(expected, UrlFailure(reason))
    case _ => HttpVerdict(expected, o)
  }

  /** With an expected status outside 200-299 (a check that expects, say, 404),
      the check as written is unhealthy for every outcome, including a response
      carrying exactly the expected status. */
  lemma AsWrittenNeverHealthy(expected: int, o: HttpOutcome)
    requires !(200 <= expected < 300)
    ensures HttpVerdictAsWritten(expected, o).status == Unhealthy
    ensures o == Responded(expected, "Not Found") ==> HttpVerdict(expected, o).status == Healthy
  {
  }

  /** The two verdicts agree whenever the expected status is a 2xx code. */
  lemma AsWrittenAgreesOn2xx(expected: int, o: HttpOutcome)
    requires 200 <= expected < 300
    ensures HttpVerdictAsWritten(expected, o).status == HttpVerdict(expected, o).status
  {
  }

  /** `check_health_http` as written: GET the configured URL and judge the
      response, which reaches the comparison only for a 2xx status. */
  function CheckHttp(c: HealthConfig, http: HttpProbe): (r: HealthResult)
    ensures var o := http(HttpUrl(c), ProbeTimeout(c));
      r.status == Healthy <==> o.Responded? && 200 <= o.code < 300 && o.code == Expected(c)
    ensures r.status == Healthy || r.status == Unhealthy
    ensures var o := http(HttpUrl(c), ProbeTimeout(c));
      o.Responded? && 200 <= o.code < 300 ==> r.statusCode == Some(o.code)
    ensures var o := http(HttpUrl(c), ProbeTimeout(c));
      !(o.Responded? && 200 <= o.code < 300) ==> r.statusCode.None? && r.error.Some?
  {
    HttpVerdictAsWritten(Expected(c), http(HttpUrl(c), ProbeTimeout(c)))
  }

  /** The HTTP check with the corrected verdict: healthy exactly when the
      configured URL answers with the expected status, whatever that is. */
  function CheckHttpIntended(c: HealthConfig, http: HttpProbe): (r: HealthResult)
    ensures var o := http(HttpUrl(c), ProbeTimeout(c));
      r.status == Healthy <==> o.Responded? && o.code == Expected(c)
    ensures var o := http(HttpUrl(c), ProbeTimeout(c));
      r.statusCode.Some? <==> o.Responded?
  {
    HttpVerdict(Expected(c), http(HttpUrl(c), ProbeTimeout(c)))
  }

  /** A check configured with `expected_status` 404 is never healthy as
      written, while the corrected check is healthy when the server answers 404. */
  lemma CheckHttpExpecting404(c: HealthConfig, http: HttpProbe)
    requires Expected(c) == 404
    ensures CheckHttp(c, http).status == Unhealthy
    ensures var o := http(HttpUrl(c), ProbeTimeout(c));
      o.Responded? && o.code == 404 ==> CheckHttpIntended(c, http).status == Healthy
  {
  }

  /** `check_health_tcp`: healthy exactly when `connect_ex` returns 0. */
  function CheckTcp(c: HealthConfig, tcp: TcpProbe): (r: HealthResult)
    ensures r.status == Healthy <==> tcp(ProbePort(c), ProbeTimeout(c)) == ConnectResult(0)
    ensures r.status == Healthy || r.status == Unhealthy
    ensures r.statusCode.None?
  {
    match tcp(ProbePort(c), ProbeTimeout(c))
    case ConnectResult(code) =>
      if code == 0 then Bare(Healthy) else HealthResult(Unhealthy, None, Some("Connection refused"), None)
    case TcpFailure(message) => HealthResult(Unhealthy, None, Some(message), None)
  }

  /** `check_health_process`: healthy exactly when the process is alive. */
  function CheckProcess(running: bool): (r: HealthResult)
    ensures r.status == Healthy <==> running
    ensures r.status == Healthy || r.status == Unhealthy
  {
    if running then Bare(Healthy) else HealthResult(Unhealthy, None, Some("Process not running"), None)
  }

  /** The manifest's health type, "process" when absent. */
  function HealthKind(m: AppManifest): string {
    if m.health.None? then "process" else m.health.value.kind.GetOr("process")
  }

  function HealthConfigOf(m: AppManifest): (c: HealthConfig)
    ensures m.health.Some? ==> c == m.health.value
    ensures m.health.None? ==> ProbePort(c) == 8000 && ProbeTimeout(c) == 5 && Expected(c) == 200
                               && HttpUrl(c) == "http://localhost:8000/health"
  {
    DefaultHttpUrl();
    m.health.GetOr(HealthConfig(None, None, None, None, None))
  }

  /**
   * `check_app_health` for an app whose manifest is `m` (`None`: not
   * registered) and whose liveness is `running`. In this sequential model the
   * process check sees the same liveness as the guard before it.
   */
  function CheckAppHealth(m: Option<AppManifest>, running: bool, http: HttpProbe, tcp: TcpProbe): (r: HealthResult)
    ensures r.status == Unknown <==> m.None?
    ensures r.status == Stopped <==> m.Some? && !running
    ensures m.None? ==> r.error == Some("App not found")
    ensures r.status == Healthy ==> m.Some? && running
    ensures m.Some? && running && HealthKind(m.value) == "http" ==> r == CheckHttp(HealthConfigOf(m.value), http)
    ensures m.Some? && running && HealthKind(m.value) == "tcp" ==> r == CheckTcp(HealthConfigOf(m.value), tcp)
    ensures m.Some? && running && HealthKind(m.value) != "http" && HealthKind(m.value) != "tcp" ==> r == Bare(Healthy)
    ensures r.lastCheck.None?
  {
    if m.None? then HealthResult(Unknown, None, Some("App not found"), None)
    else if !running then Bare(Stopped)
    else
      var kind := HealthKind(m.value);
      var c := HealthConfigOf(m.value);
      if kind == "http" then CheckHttp(c, http)
      else if kind == "tcp" then CheckTcp(c, tcp)
      else CheckProcess(running)
  }

  /** A `script` health type (or any other unknown type) is judged by the
      process check, which never runs the declared command. */
  lemma ScriptKindIsProcessCheck(m: AppManifest, running: bool, http: HttpProbe, tcp: TcpProbe)
    requires HealthKind(m) == "script"
    ensures CheckAppHealth(Some(m), running, http, tcp).status == (if running then Healthy else Stopped)
  {
  }

  /** The result stored by the monitor: the verdict plus `last_check`. */
  function Stamped(h: HealthResult, when: string): (r: HealthResult)
    ensures r.status == h.status && r.statusCode == h.statusCode && r.error == h.error
    ensures r.lastCheck == Some(when)
  {
    h.(lastCheck := Some(when))
  }
}
