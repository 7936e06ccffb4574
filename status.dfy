/**
 * The status view of one app (`get_app_status`): the manifest fields with
 * their defaults, running/stopped from the PID, and the uptime split into
 * hours, minutes and seconds and written out.
 */
module Status {
  import opened Wrappers
  import opened Strings
  import opened Manifest
  import opened Health
  import opened Registry

  /** Python's `divmod(u, 3600)` then `divmod(rem, 60)`, which round toward
      minus infinity. */
  function SplitUptime(u: int): (r: (int, int, int))
    ensures r.0 * 3600 + r.1 * 60 + r.2 == u
    ensures 0 <= r.1 < 60 && 0 <= r.2 < 60
    ensures u >= 0 ==> r.0 >= 0
  {
    var h := u / 3600;
    var rem := u % 3600;
    (h, rem / 60, rem % 60)
  }

  /** The human uptime: "Hh Mm" with at least one hour, "Mm Ss" with at
      least one minute, and "Ss" otherwise. */
  function UptimeText(u: int): (text: string)
    ensures |text| >= 2
    ensures text[|text| - 1] == (if SplitUptime(u).0 > 0 then 'm' else 's')
    ensures SplitUptime(u).0 > 0 ==> StartsWith(text, IntToString(SplitUptime(u).0) + "h ")
  {
    var (h, m, sec) := SplitUptime(u);
    if h > 0 then IntToString(h) + "h " + IntToString(m) + "m"
    else if m > 0 then IntToString(m) + "m " + IntToString(sec) + "s"
    else IntToString(sec) + "s"
  }

  /** The text by range of the uptime, in whole hours, minutes and seconds. */
  lemma UptimeTextByRange(u: int)
    ensures u >= 3600 ==> UptimeText(u) == IntToString(u / 3600) + "h " + IntToString(u % 3600 / 60) + "m"
    ensures 60 <= u < 3600 ==> UptimeText(u) == IntToString(u / 60) + "m " + IntToString(u % 60) + "s"
    ensures 0 <= u < 60 ==> UptimeText(u) == IntToString(u) + "s"
  {
  }

  /** A start time in the past is a clock that went backwards; Python's
      rounding toward minus infinity then reads -1 s as "59m 59s". */
  lemma NegativeUptimeText()
    ensures SplitUptime(-1) == (-1, 59, 59)
  {
  }

  /** Python truthiness of `start_time`: set and non-zero. */
  predicate HasStartTime(rec: AppRecord) {
    rec.startTime.Some? && rec.startTime.value != 0
  }

  datatype StatusView =
    | AppNotFound
    | AppStatus(
        name: string,
        version: string,
        description: string,
        appType: string,
        port: int,
        running: bool,
        pid: Option<int>,
        health: HealthResult,
        uptimeSeconds: int,
        uptimeHuman: string)

  /**
   * `get_app_status` for `name`, given the PID `get_pid` found and the
   * current time in whole seconds.
   */
  function View(records: map<string, AppRecord>, name: string, pid: Option<int>, now: int): (r: StatusView)
    ensures r.AppNotFound? <==> name !in records
    ensures r.AppStatus? ==> r.name == name && r.pid == pid && (r.running <==> pid.Some?)
    ensures r.AppStatus? && !(pid.Some? && HasStartTime(records[name])) ==>
              r.uptimeSeconds == 0 && r.uptimeHuman == "N/A"
    ensures r.AppStatus? && pid.Some? && HasStartTime(records[name]) ==>
              r.uptimeSeconds == now - records[name].startTime.value
              && r.uptimeHuman == UptimeText(r.uptimeSeconds)
    ensures r.AppStatus? ==> r.health == records[name].lastHealth
    ensures r.AppStatus? ==>
              var m := records[name].manifest;
              r.version == m.version.GetOr("unknown") && r.description == m.description.GetOr("")
              && r.appType == m.appType.GetOr("service") && r.port == m.port.GetOr(0)
  {
    if name !in records then AppNotFound
    else
      var rec := records[name];
      var m := rec.manifest;
      var up := if pid.Some? && HasStartTime(rec) then now - rec.startTime.value else 0;
      var human := if pid.Some? && HasStartTime(rec) then UptimeText(up) else "N/A";
      AppStatus(name, m.version.GetOr("unknown"), m.description.GetOr(""), m.appType.GetOr("service"),
                m.port.GetOr(0), pid.Some?, pid, rec.lastHealth, up, human)
  }
}
