/**
 * The supervisor itself: the `apps` registry it fills at start-up, the
 * lifecycle operations it runs on the host, one pass of the health monitor
 * and the answer of the socket API to one request. Everything runs
 * sequentially; the host is the abstract operating system of module Host.
 */
module Supervisor {
  import opened Wrappers
  import opened Manifest
  import opened Health
  import opened Registry
  import opened Host
  import opened Lifecycle
  import opened Status
  import opened Api
  import opened Strings

  // ------------------------------------------------------------ monitor pass

  /**
   * The record of one app after the monitor has visited it: the fresh health
   * result stamped with the check time; a start time recorded when the app
   * runs and has none (a start time of 0 counts as none), kept when it has
   * one, and cleared when the app is not running.
   */
  function NextRecord(rec: AppRecord, running: bool, health: HealthResult, now: int, nowIso: string): (r: AppRecord)
    ensures r.manifest == rec.manifest
    ensures r.lastHealth.status == health.status && r.lastHealth.error == health.error
    ensures r.lastHealth.statusCode == health.statusCode
    ensures r.lastHealth.lastCheck == Some(nowIso)
    ensures running ==> (HasStartTime(r) <==> HasStartTime(rec) || now != 0)
    ensures running && HasStartTime(rec) ==> r.startTime == rec.startTime
    ensures running && !HasStartTime(rec) ==> r.startTime == Some(now)
    ensures !running ==> r.startTime.None?
  {
    var start := if !running then None else if HasStartTime(rec) then rec.startTime else Some(now);
    AppRecord(rec.manifest, Stamped(health, nowIso), start)
  }

  /** The monitor's visit of the registered app `name` on host `s`. */
  function Visit(rec: AppRecord, s: HostState, name: string, now: int, nowIso: string, http: HttpProbe, tcp: TcpProbe): (r: AppRecord)
    ensures r.manifest == rec.manifest
    ensures r.lastHealth.lastCheck == Some(nowIso)
    ensures r.lastHealth.status == Stopped <==> !Running(s, name)
    ensures r.lastHealth.status != Unknown
    ensures Running(s, name) && HasStartTime(rec) ==> r.startTime == rec.startTime
    ensures !Running(s, name) ==> r.startTime.None?
  {
    var running := Running(s, name);
    NextRecord(rec, running, CheckAppHealth(Some(rec.manifest), running, http, tcp), now, nowIso)
  }

  /** The registry after one complete pass of the monitor over every app. */
  function Pass(records: map<string, AppRecord>, s: HostState, now: int, nowIso: string, http: HttpProbe, tcp: TcpProbe): (r: map<string, AppRecord>)
    ensures r.Keys == records.Keys
  {
    map n | n in records :: Visit(records[n], s, n, now, nowIso, http, tcp)
  }

  /** The registry after the monitor has visited the apps `ns` in order,
      each visit reading the record as the previous visits left it. */
  function PassOver(records: map<string, AppRecord>, ns: seq<string>, s: HostState, now: int, nowIso: string,
                    http: HttpProbe, tcp: TcpProbe): (r: map<string, AppRecord>)
    requires forall k :: 0 <= k < |ns| ==> ns[k] in records
    ensures r.Keys == records.Keys
  {
    if ns == [] then records
    else
      var m := PassOver(records, ns[..|ns| - 1], s, now, nowIso, http, tcp);
      var last := ns[|ns| - 1];
      m[last := Visit(m[last], s, last, now, nowIso, http, tcp)]
  }

  /** One more name visited: the fold over a longer prefix. */
  lemma PassOverStep(records: map<string, AppRecord>, ns: seq<string>, i: nat, s: HostState, now: int,
                     nowIso: string, http: HttpProbe, tcp: TcpProbe)
    requires i < |ns| && forall k :: 0 <= k < |ns| ==> ns[k] in records
    ensures var m := PassOver(records, ns[..i], s, now, nowIso, http, tcp);
      PassOver(records, ns[..i + 1], s, now, nowIso, http, tcp) == m[ns[i] := Visit(m[ns[i]], s, ns[i], now, nowIso, http, tcp)]
  {
    assert ns[..i + 1][..i] == ns[..i];
  }

  lemma SameKeysWellFormed(a: Apps, records: map<string, AppRecord>)
    requires WellFormed(a) && records.Keys == a.records.Keys
    ensures WellFormed(Apps(a.names, records))
  {
    assert forall n :: n in records <==> n in a.records;
  }

  /** Visiting distinct names in order visits each of them once, from its
      record before the pass, and leaves the others alone. */
  lemma {:induction false} PassOverVisitsOnce(records: map<string, AppRecord>, ns: seq<string>, s: HostState, now: int,
                                              nowIso: string, http: HttpProbe, tcp: TcpProbe, n: string)
    requires forall k :: 0 <= k < |ns| ==> ns[k] in records
    requires forall i, j :: 0 <= i < j < |ns| ==> ns[i] != ns[j]
    requires n in records
    ensures PassOver(records, ns, s, now, nowIso, http, tcp)[n]
            == if n in ns then Visit(records[n], s, n, now, nowIso, http, tcp) else records[n]
  {
    if ns != [] {
      var init := ns[..|ns| - 1];
      var last := ns[|ns| - 1];
      PassOverVisitsOnce(records, init, s, now, nowIso, http, tcp, n);
      if n == last {
        PassOverVisitsOnce(records, init, s, now, nowIso, http, tcp, last);
        assert last !in init;
      }
      assert n in ns <==> n in init || n == last by {
        assert ns == init + [last];
      }
    }
  }

  /** Walking every registered name in registration order is the whole pass. */
  lemma PassOverAll(a: Apps, s: HostState, now: int, nowIso: string, http: HttpProbe, tcp: TcpProbe)
    requires WellFormed(a)
    ensures PassOver(a.records, a.names, s, now, nowIso, http, tcp) == Pass(a.records, s, now, nowIso, http, tcp)
  {
    forall n | n in a.records
      ensures PassOver(a.records, a.names, s, now, nowIso, http, tcp)[n] == Pass(a.records, s, now, nowIso, http, tcp)[n]
    {
      PassOverVisitsOnce(a.records, a.names, s, now, nowIso, http, tcp, n);
    }
  }

  /**
   * After a pass every registered app carries a health result stamped with
   * the time of the check, which is never `unknown`: it is `stopped` exactly
   * when the app is not running. Its manifest is untouched.
   */
  lemma PassStampsEveryApp(records: map<string, AppRecord>, s: HostState, now: int, nowIso: string,
                           http: HttpProbe, tcp: TcpProbe, name: string)
    requires name in records
    ensures name in Pass(records, s, now, nowIso, http, tcp)
    ensures var rec := Pass(records, s, now, nowIso, http, tcp)[name];
      && rec.lastHealth.lastCheck == Some(nowIso)
      && rec.lastHealth.status != Unknown
      && (rec.lastHealth.status == Stopped <==> !Running(s, name))
      && rec.manifest == records[name].manifest
  {
  }

  /**
   * The start time of an app that stays up is the time of the first pass
   * that saw it running: a second pass keeps it, and the status view then
   * reports the time elapsed since that pass.
   */
  lemma {:induction false} StartTimeSurvivesPasses(records: map<string, AppRecord>, s: HostState, t1: int, t2: int,
                                                   iso1: string, iso2: string, http: HttpProbe, tcp: TcpProbe, name: string)
    requires name in records && Running(s, name) && !HasStartTime(records[name]) && t1 != 0
    ensures var after := Pass(Pass(records, s, t1, iso1, http, tcp), s, t2, iso2, http, tcp);
      && name in after
      && after[name].startTime == Some(t1)
      && View(after, name, PidOf(s, name), t2).uptimeSeconds == t2 - t1
  {
    var once := Pass(records, s, t1, iso1, http, tcp);
    assert once[name].startTime == Some(t1);
    assert HasStartTime(once[name]);
    var after := Pass(once, s, t2, iso2, http, tcp);
    assert after[name] == Visit(once[name], s, name, t2, iso2, http, tcp);
  }

  /** A pass that finds the app down forgets its start time, so its uptime
      restarts from the pass that next sees it running. */
  lemma StoppedAppLosesStartTime(records: map<string, AppRecord>, s: HostState, now: int, nowIso: string,
                                 http: HttpProbe, tcp: TcpProbe, name: string)
    requires name in records && !Running(s, name)
    ensures !HasStartTime(Pass(records, s, now, nowIso, http, tcp)[name])
    ensures View(Pass(records, s, now, nowIso, http, tcp), name, PidOf(s, name), now).uptimeHuman == "N/A"
  {
    assert Pass(records, s, now, nowIso, http, tcp)[name] == Visit(records[name], s, name, now, nowIso, http, tcp);
  }

  // -------------------------------------------------------------- API answer

  /** The JSON body the handler sends. */
  datatype Body =
    | AppList(apps: seq<StatusView>)
    | HealthBody(health: HealthResult)
    | StatusBody(status: StatusView)
    | ActionBody(success: bool, status: StatusView)
    | NotFoundBody

  /** What goes back on the connection: nothing at all (the handler raised),
      an empty response (no request line, or a command other than GET and
      POST), or a JSON document with its HTTP status code. */
  datatype Reply = NoReply | EmptyReply | Json(code: int, body: Body)

  /** The `/apps` listing: the status of every app, in registration order. */
  function Listing(a: Apps, s: HostState, now: int): (r: seq<StatusView>)
    requires WellFormed(a)
    ensures |r| == |a.names|
    ensures forall i :: 0 <= i < |a.names| ==> r[i].AppStatus? && r[i].name == a.names[i]
  {
    seq(|a.names|, i requires 0 <= i < |a.names| => View(a.records, a.names[i], PidOf(s, a.names[i]), now))
  }

  /** The manifest of `name` when registered. */
  function ManifestOf(a: Apps, name: string): (r: Option<AppManifest>)
    ensures r.Some? <==> name in a.records
  {
    if name in a.records then Some(a.records[name].manifest) else None
  }

  /** A lifecycle operation's reply: its flag and the app's status afterwards. */
  function ActionReply(a: Apps, r: (bool, HostState), name: string, now: int): (reply: Reply)
    ensures reply.Json? && reply.code == 200 && reply.body.ActionBody?
    ensures reply.body.success == r.0
    ensures reply.body.status == View(a.records, name, PidOf(r.1, name), now)
  {
    Json(200, ActionBody(r.0, View(a.records, name, PidOf(r.1, name), now)))
  }

  /** The handler's answer to a routed action, and the host afterwards. */
  function Dispatch(a: Apps, s: HostState, sc: Scripts, action: Action, now: int, http: HttpProbe, tcp: TcpProbe): (r: (Reply, HostState))
    requires WellFormed(a)
    ensures !(action.StartOf? || action.StopOf? || action.RestartOf?) ==> r.1 == s
    ensures action == NotFound <==> r.0 == Json(404, NotFoundBody)
    ensures action == Fails <==> r.0 == NoReply
    ensures action == Ignored <==> r.0 == EmptyReply
  {
    match action
    case ListApps => (Json(200, AppList(Listing(a, s, now))), s)
    case AppHealth(name) => (Json(200, HealthBody(CheckAppHealth(ManifestOf(a, name), Running(s, name), http, tcp))), s)
    case AppStatusOf(name) => (Json(200, StatusBody(View(a.records, name, PidOf(s, name), now))), s)
    case StartOf(name) => var r := Start(s, sc, name); (ActionReply(a, r, name, now), r.1)
    case StopOf(name) => var r := Stop(s, sc, name); (ActionReply(a, r, name, now), r.1)
    case RestartOf(name) => var r := Restart(s, sc, name); (ActionReply(a, r, name, now), r.1)
    case NotFound => (Json(404, NotFoundBody), s)
    case Fails => (NoReply, s)
    case Ignored => (EmptyReply, s)
  }

  /** The answer to the bytes received on one connection: nothing for no
      bytes, an empty response without a request line, otherwise the answer
      of the action the handler's routing picks. */
  function Respond(a: Apps, s: HostState, sc: Scripts, data: string, now: int, http: HttpProbe, tcp: TcpProbe): (r: (Reply, HostState))
    requires WellFormed(a)
    ensures data == [] ==> r == (NoReply, s)
    ensures r.0 == EmptyReply <==>
              data != [] && (ParseRequestLine(data).None?
                             || (ParseRequestLine(data).value.command != "GET" && ParseRequestLine(data).value.command != "POST"))
    ensures r.1 != s ==> data != [] && ParseRequestLine(data).Some? && ParseRequestLine(data).value.command == "POST"
  {
    if data == [] then (NoReply, s)
    else match ParseRequestLine(data)
      case None => (EmptyReply, s)
      case Some(req) => Dispatch(a, s, sc, Route(req), now, http, tcp)
  }

  /** The same answer with the corrected routing, which reads the action from
      the part of the path after the app name. */
  function RespondIntended(a: Apps, s: HostState, sc: Scripts, data: string, now: int, http: HttpProbe, tcp: TcpProbe): (r: (Reply, HostState))
    requires WellFormed(a)
    ensures r.0 == NoReply <==> data == []
    ensures r.0 == EmptyReply <==>
              data != [] && (ParseRequestLine(data).None?
                             || (ParseRequestLine(data).value.command != "GET" && ParseRequestLine(data).value.command != "POST"))
    ensures r.1 != s ==> data != [] && ParseRequestLine(data).Some? && ParseRequestLine(data).value.command == "POST"
  {
    if data == [] then (NoReply, s)
    else match ParseRequestLine(data)
      case None => (EmptyReply, s)
      case Some(req) => Dispatch(a, s, sc, RouteIntended(req), now, http, tcp)
  }

  /** The bytes the management web app sends to stop `name`. */
  function StopRequest(name: string, headers: string): string {
    "POST" + " " + ("/apps/" + name + "/stop") + " HTTP/1.1\r\n" + headers
  }

  /** A stop request parses back to its command and path. The handler routes
      it to the stop of `name` unless the name begins with "start", when it
      starts the app instead; the corrected routing always stops it. */
  lemma ParseStopRequest(name: string, headers: string)
    requires PlainName(name) && ' ' !in name && '\r' !in name
    ensures StopRequest(name, headers) != []
    ensures ParseRequestLine(StopRequest(name, headers)) == Some(Request("POST", "/apps/" + name + "/stop"))
    ensures !StartsWith(name, "start") ==> Route(Request("POST", "/apps/" + name + "/stop")) == StopOf(name)
    ensures StartsWith(name, "start") ==> Route(Request("POST", "/apps/" + name + "/stop")) == StartOf(name)
    ensures RouteIntended(Request("POST", "/apps/" + name + "/stop")) == StopOf(name)
  {
    var path := "/apps/" + name + "/stop";
    assert ' ' !in path && '\r' !in path;
    RequestLineRoundTrip("POST", path, headers);
    PostIntendedByName(name);
    if StartsWith(name, "start") {
      PostAsWrittenMisroutes(name);
    } else {
      PostStopByName(name);
    }
  }

  /** The handler stops an app whose name does not begin with "start" when
      asked to, and reports the flag of the stop with the app's status
      afterwards; the host is left as the stop leaves it. */
  lemma StopRequestStops(a: Apps, s: HostState, sc: Scripts, name: string, headers: string, now: int,
                         http: HttpProbe, tcp: TcpProbe)
    requires WellFormed(a) && PlainName(name) && ' ' !in name && '\r' !in name && !StartsWith(name, "start")
    ensures var stop := Stop(s, sc, name);
      Respond(a, s, sc, StopRequest(name, headers), now, http, tcp)
        == (Json(200, ActionBody(stop.0, View(a.records, name, PidOf(stop.1, name), now))), stop.1)
  {
    ParseStopRequest(name, headers);
  }

  /** Asked to stop an app whose name begins with "start" (say "start-db"),
      the handler starts it instead. */
  lemma StopRequestStartsStarter(a: Apps, s: HostState, sc: Scripts, name: string, headers: string, now: int,
                                 http: HttpProbe, tcp: TcpProbe)
    requires WellFormed(a) && PlainName(name) && ' ' !in name && '\r' !in name && StartsWith(name, "start")
    ensures var start := Start(s, sc, name);
      Respond(a, s, sc, StopRequest(name, headers), now, http, tcp)
        == (Json(200, ActionBody(start.0, View(a.records, name, PidOf(start.1, name), now))), start.1)
  {
    ParseStopRequest(name, headers);
  }

  /** With the corrected routing a stop request stops the app, whatever its name. */
  lemma StopRequestStopsIntended(a: Apps, s: HostState, sc: Scripts, name: string, headers: string, now: int,
                                 http: HttpProbe, tcp: TcpProbe)
    requires WellFormed(a) && PlainName(name) && ' ' !in name && '\r' !in name
    ensures var stop := Stop(s, sc, name);
      RespondIntended(a, s, sc, StopRequest(name, headers), now, http, tcp)
        == (Json(200, ActionBody(stop.0, View(a.records, name, PidOf(stop.1, name), now))), stop.1)
  {
    ParseStopRequest(name, headers);
  }

  /** Asking for the health of an app that is not registered answers
      `unknown` and touches nothing. */
  lemma HealthOfUnknownApp(a: Apps, s: HostState, sc: Scripts, name: string, now: int, http: HttpProbe, tcp: TcpProbe)
    requires WellFormed(a) && name !in a.records
    ensures Dispatch(a, s, sc, AppHealth(name), now, http, tcp).0.body.health.status == Unknown
    ensures Dispatch(a, s, sc, AppHealth(name), now, http, tcp).1 == s
  {
  }

  // -------------------------------------------------------------- the class

  class Supervisor {
    const host: Host
    var names: seq<string>
    var apps: map<string, AppRecord>

    function Registered(): Apps
      reads this
    {
      Apps(names, apps)
    }

    /** The registry is well formed and no SIGTERM is pending between operations. */
    ghost predicate Valid()
      reads this, host
    {
      WellFormed(Registered()) && host.terminating == {}
    }

    /** The registration loop of `main` over the global manifest's entries,
        with the per-app manifest files given as a map. */
    constructor(host: Host, entries: seq<GlobalEntry>, files: map<string, AppManifest>)
      requires host.terminating == {}
      ensures this.host == host && Valid()
      ensures Registered() == RegisterAll(entries, files)
    {
      var ns: seq<string> := [];
      var recs: map<string, AppRecord> := map[];
      var i := 0;
      while i < |entries|
        invariant 0 <= i <= |entries|
        invariant Apps(ns, recs) == RegisterAll(entries[..i], files)
      {
        var e := entries[i];
        var name := EntryName(e);
        if name != "" {
          var m := Merge(LoadAppManifest(files, name), EntryPort(e), EntryType(e));
          if name !in recs {
            ns := ns + [name];
          }
          recs := recs[name := Fresh(m)];
        }
        assert entries[..i + 1][..i] == entries[..i];
        i := i + 1;
      }
      assert entries[..|entries|] == entries;
      this.host := host;
      names, apps := ns, recs;
    }

    /** `start_app`. */
    method StartApp(app: string) returns (ok: bool)
      requires Valid()
      modifies host
      ensures Valid()
      ensures (ok, host.Snapshot()) == Start(old(host.Snapshot()), host.scripts, app)
    {
      if host.IsRunning(app) {
        return true;
      }
      var script := FindScript(host.scripts.startup, app);
      if script.None? {
        return false;
      }
      var outcome := host.Run(script.value, app);
      ok := outcome == Exited(0);
    }

    /** The PID fallback of `stop_app`: SIGTERM, the wait, SIGKILL if still running. */
    method StopByPidMethod(app: string) returns (ok: bool)
      modifies host
      ensures (ok, host.Snapshot()) == StopByPid(old(host.Snapshot()), app)
    {
      var pid := host.GetPid(app);
      if pid.None? || pid.value == 0 {
        return true;
      }
      var termed := host.Signal(pid.value, SIGTERM);
      if !termed {
        return false;
      }
      host.Sleep();
      if host.IsRunning(app) {
        ok := host.Signal(pid.value, SIGKILL);
      } else {
        ok := true;
      }
    }

    /** `stop_app`. */
    method StopApp(app: string) returns (ok: bool)
      requires Valid()
      modifies host
      ensures Valid()
      ensures (ok, host.Snapshot()) == Stop(old(host.Snapshot()), host.scripts, app)
    {
      StopSettles(host.Snapshot(), host.scripts, app);
      if !host.IsRunning(app) {
        return true;
      }
      var script := ShutdownScript(host.scripts, app);
      if script.Some? {
        var outcome := host.Run(script.value, app);
        if outcome.Exited? {
          return true;
        }
      }
      ok := StopByPidMethod(app);
    }

    /** `restart_app`: the stop's flag is dropped. */
    method RestartApp(app: string) returns (ok: bool)
      requires Valid()
      modifies host
      ensures Valid()
      ensures (ok, host.Snapshot()) == Restart(old(host.Snapshot()), host.scripts, app)
    {
      var _ := StopApp(app);
      host.Sleep();
      ok := StartApp(app);
    }

    /** `get_app_status` at time `now`. */
    function StatusOf(name: string, now: int): (r: StatusView)
      reads this, host
      ensures r == View(apps, name, PidOf(host.Snapshot(), name), now)
    {
      View(apps, name, host.GetPid(name), now)
    }

    /** The body of the monitor loop for one app: check its health, stamp the
        result, and keep, set or clear its start time. */
    method VisitRecord(rec: AppRecord, name: string, now: int, nowIso: string, http: HttpProbe, tcp: TcpProbe)
      returns (next: AppRecord)
      ensures next == Visit(rec, host.Snapshot(), name, now, nowIso, http, tcp)
    {
      var running := host.IsRunning(name);
      var health := CheckAppHealth(Some(rec.manifest), running, http, tcp);
      var start := rec.startTime;
      if running && !HasStartTime(rec) {
        start := Some(now);
      } else if !running {
        start := None;
      }
      next := AppRecord(rec.manifest, Stamped(health, nowIso), start);
    }

    /** One pass of `health_monitor_loop` over every registered app, at time
        `now` (`nowIso` as the check's timestamp), with the probes' answers. */
    method MonitorPass(now: int, nowIso: string, http: HttpProbe, tcp: TcpProbe)
      requires Valid()
      modifies this
      ensures Valid() && names == old(names)
      ensures apps == Pass(old(apps), host.Snapshot(), now, nowIso, http, tcp)
    {
      var i := 0;
      while i < |names|
        invariant 0 <= i <= |names| && names == old(names)
        invariant apps == PassOver(old(apps), names[..i], host.Snapshot(), now, nowIso, http, tcp)
        invariant apps.Keys == old(apps).Keys
      {
        var name := names[i];
        var next := VisitRecord(apps[name], name, now, nowIso, http, tcp);
        PassOverStep(old(apps), names, i, host.Snapshot(), now, nowIso, http, tcp);
        apps := apps[name := next];
        i := i + 1;
      }
      assert names[..|names|] == names;
      PassOverAll(old(Registered()), host.Snapshot(), now, nowIso, http, tcp);
      SameKeysWellFormed(old(Registered()), apps);
    }

    /** The handler's answer to a routed action. */
    method Perform(action: Action, now: int, http: HttpProbe, tcp: TcpProbe) returns (reply: Reply)
      requires Valid()
      modifies host
      ensures Valid()
      ensures (reply, host.Snapshot()) == Dispatch(Registered(), old(host.Snapshot()), host.scripts, action, now, http, tcp)
    {
      match action {
        case StartOf(name) =>
          var ok := StartApp(name);
          reply := Json(200, ActionBody(ok, StatusOf(name, now)));
        case StopOf(name) =>
          var ok := StopApp(name);
          reply := Json(200, ActionBody(ok, StatusOf(name, now)));
        case RestartOf(name) =>
          var ok := RestartApp(name);
          reply := Json(200, ActionBody(ok, StatusOf(name, now)));
        case _ =>
          reply := Dispatch(Registered(), host.Snapshot(), host.scripts, action, now, http, tcp).0;
      }
    }

    /** The handler's answer to the bytes of one request, routed as `do_GET`
        and `do_POST` route it. */
    method HandleRequest(data: string, now: int, http: HttpProbe, tcp: TcpProbe) returns (reply: Reply)
      requires Valid()
      modifies host
      ensures Valid()
      ensures (reply, host.Snapshot()) == Respond(Registered(), old(host.Snapshot()), host.scripts, data, now, http, tcp)
    {
      if data == [] {
        return NoReply;
      }
      var req := ParseRequestLine(data);
      if req.None? {
        return EmptyReply;
      }
      reply := Perform(Route(req.value), now, http, tcp);
    }
  }
}
