# App manager and system management web app — a Dafny model

This project models the two services that run an appliance's applications.

The **app manager** (`rootfs/opt/app-manager/app-manager.py`) covers:
- registering the apps of the global manifest, merged with each app's own manifest;
- finding an app's process through its pid file;
- starting, stopping and restarting an app through its startup and shutdown scripts and signals;
- checking an app's health over HTTP, TCP or its process;
- reporting an app's status and uptime;
- refreshing every app's record once per monitor pass;
- answering requests on its Unix socket: parsing the request line and routing it.

The **system management web app** (`rootfs/opt/system-mgmt/app.py`) covers:
- the short-lived WebSocket token store;
- the log viewer: sources, the kernel log, search filtering and the last-N cut;
- reading the image version file;
- the port cache and the forwarding decision of the app proxy;
- password-change validation and the `chpasswd` input;
- session expiry;
- the `/etc/shadow` lookup.

How the model is built:
- **Pure logic** is functions on datatypes.
- **State changed in place** lives in classes with `modifies` clauses:
  - the operating system as the app manager sees it (`Host.Host`);
  - the registered apps (`Supervisor.Supervisor`);
  - the token store (`Tokens.TokenStore`);
  - the proxy's port cache (`Proxy.PortCache`).
- **Each class method** is proved equal to a function on a snapshot of its state. The lemmas are stated about those functions.
- **Loops.** Where the source loops, the model has a method with a `while` loop proved against its specification function:
  - the registration loop;
  - one monitor pass;
  - the version file reader.
- **Values from outside** are parameters of the model:
  - times, as whole seconds;
  - the results of HTTP and TCP probes;
  - the scripts' effects;
  - `crypt`, the token digest and its random part;
  - `chpasswd` and `dmesg` runs;
  - the contents of files and directory listings.
- **Python semantics** are written out in `strings.dfy`:
  - `str.split`, `str.strip`, `str.partition`-like `split(sep, 1)`;
  - ASCII `lower` and `title`;
  - `int()` of a stripped pid file, for an ASCII sign and digits;
  - floor `divmod`.

Where the code departs from the services' design description, the model follows the code:
- an unknown app's status is a 200 answer carrying an error, not a "not found" error;
- start, stop and restart do not check that the app is registered;
- requests are neither serialised nor rejected as busy, because there is no lock.

Edge cases the model makes explicit:
- A log request for 0 or fewer lines returns every match. The 1000-line cap only limits positive counts (`Logs.ApiLogBounds`).
- A WebSocket token whose expiry equals the current time is still accepted by validation, but the purge of a concurrent issue drops it (`Tokens.ExpiryInstant`).
- The login guard clears an expired session. The session check only reports it (`Auth.GuardClearsCheckDoesNot`).
- A manifest holding a bare-name entry cannot be read for ports, so the proxy falls back to the app manager's listing (`Proxy.StringEntryFallsBack`).
- An app log source named with an absolute path escapes the log directory, because `os.path.join` discards the directory (`Logs.AppSourcePath`). This holds for `read_log_file` itself. The `/api/logs/<source_id>` route (app.py:987) cannot deliver such an id, because Flask's default path converter never matches a '/'.

Modules:
- app manager: `Manifest`, `Registry`, `Host`, `Health`, `Lifecycle`, `Status`, `Api`, `Supervisor`;
- web app: `Tokens`, `Logs`, `Version`, `Proxy`, `Auth`.
- `Strings` and `Wrappers` are shared helpers.

## Model

| member | source | states |
|---|---|---|
| Manifest.Merge | rootfs/opt/app-manager/app-manager.py:644-649 | The global port fills in the app manifest's port only when that port is missing or 0. The global type fills in only a missing or empty type. Every other field is kept. |
| Manifest.LoadAppManifest | rootfs/opt/app-manager/app-manager.py:91-104 | A missing manifest reads as the empty one. A present one is returned as stored. |
| Registry.RegisterEntry | rootfs/opt/app-manager/app-manager.py:629-654 | An entry with an empty name changes nothing. Otherwise its record replaces any earlier one under that name. The list of names only grows, keeping its prefix, and stays free of duplicates. |
| Registry.RegisterAll | rootfs/opt/app-manager/app-manager.py:629-654 | Registering all entries yields a well-formed app table: names unique, in first-seen order, with exactly the record keys. |
| Registry.RegisteredOrder | rootfs/opt/app-manager/app-manager.py:629-654 | The registered names are the non-empty entry names, each once, ordered by first occurrence: `FirstSeen` of the entry names, a reference built on names alone. A repeated name keeps its first place. |
| Registry.RegisteredNames | rootfs/opt/app-manager/app-manager.py:629-654 | An app is registered if and only if some entry carries its name and the name is not empty. |
| Registry.LastIndex | rootfs/opt/app-manager/app-manager.py:629-654 | Returns the index of the last entry with the name, or -1 exactly when no entry has it. |
| Registry.RegisteredRecord | rootfs/opt/app-manager/app-manager.py:640-654 | A registered app's record is built from the last entry naming it: later entries win. |
| Registry.RegisteredFresh | rootfs/opt/app-manager/app-manager.py:650-654 | A newly registered app has health "unknown" and no start time. |
| Registry.StringAndObjectEntriesAgree | rootfs/opt/app-manager/app-manager.py:630-638 | A bare-name entry registers the same record as an object entry with port 0 and type "service". |
| Supervisor.Supervisor.constructor | rootfs/opt/app-manager/app-manager.py:629-654 | The registration loop of `main` leaves exactly the table `RegisterAll` describes. |
| Host.PidOf | rootfs/opt/app-manager/app-manager.py:130-146 | Gives a pid exactly when the pid file exists, its stripped text parses as an integer, and that process is alive. The pid is that integer. |
| Host.PidFileRoundTrip | rootfs/opt/app-manager/app-manager.py:130-146 | A pid file holding `<pid>\n` reads back as that pid while the process lives, and as none once it has gone. |
| Strings.ParseInt | rootfs/opt/app-manager/app-manager.py:139 | A number needs at least one digit, and a negative one begins with '-'. Any non-digit other than a leading sign makes the text unparsable. |
| Host.FirstMatch | rootfs/opt/app-manager/app-manager.py:220-223 | Returns the first script in glob order whose name ends in `-<app>.sh`. No earlier script matches. |
| Host.FindScript | rootfs/opt/app-manager/app-manager.py:220-223 | Returns the script the loop runs, which is the first match. Returns none exactly when no script matches. |
| Host.RunScript | rootfs/opt/app-manager/app-manager.py:228-243 | Running a script records it and returns its outcome. It changes no other app's pid file and sends no signal. |
| Host.Kill | rootfs/opt/app-manager/app-manager.py:264-278 | `os.kill` succeeds exactly for a live process. SIGKILL ends the process. SIGTERM marks it as terminating. Pid files are untouched. |
| Host.Wait | rootfs/opt/app-manager/app-manager.py:268-270 | Sleeping lets every terminating process that honours SIGTERM exit. |
| Host.Host.GetPid | rootfs/opt/app-manager/app-manager.py:130-146 | `get_pid` on the current host state is `PidOf`, so any pid it gives is alive. |
| Host.Host.IsRunning | rootfs/opt/app-manager/app-manager.py:148-150 | True exactly when `get_pid` gives a pid. |
| Host.Host.Run | rootfs/opt/app-manager/app-manager.py:228-243 | The new host state and outcome are those of `RunScript`. |
| Host.Host.Signal | rootfs/opt/app-manager/app-manager.py:264-278 | The new host state and result are those of `Kill`. |
| Host.Host.Sleep | rootfs/opt/app-manager/app-manager.py:268-270 | The new host state is that of `Wait`. |
| Host.Host.constructor | rootfs/opt/app-manager/app-manager.py:130-150 | The host starts in the given state. |
| Lifecycle.Start | rootfs/opt/app-manager/app-manager.py:213-243 | An app that is already running counts as started and nothing changes. Without a startup script the start fails and nothing changes. Otherwise the first matching script runs: the host afterwards is the one the script leaves, and the start succeeds exactly when it exits with 0. No signal is sent. |
| Lifecycle.Stop | rootfs/opt/app-manager/app-manager.py:246-278 | An app that is not running gives success and no change. A running app without a shutdown script is stopped by pid. With a script, the script runs; if it exits, the answer is success and no signal is sent. If running it raises (a timeout, say), the error is swallowed and the stop falls back to the pid, read from the host the script left. A failure is only ever reported for an app that was running. |
| Lifecycle.StopByPid | rootfs/opt/app-manager/app-manager.py:264-278 | A missing or zero pid changes nothing and gives success. Otherwise SIGTERM goes to that pid first, and pid files and scripts run are untouched. |
| Lifecycle.Restart | rootfs/opt/app-manager/app-manager.py:281-285 | A restart succeeds exactly when, after the stop and the wait, the app is already running, or a startup script exists and exits with 0. |
| Lifecycle.StopWhenStopped | rootfs/opt/app-manager/app-manager.py:246-250 | Stopping an app that is not running succeeds and changes nothing. |
| Lifecycle.StopByScript | rootfs/opt/app-manager/app-manager.py:252-260 | A running app with a shutdown script that exits is stopped by that script alone: it runs, no signal is sent, and the stop reports success. |
| Lifecycle.StopByPidSignals | rootfs/opt/app-manager/app-manager.py:264-278 | The pid fallback always reports success and keeps the pid files. SIGTERM comes first, SIGKILL only for a process that ignores SIGTERM, and afterwards the process is gone. Nothing happens without a pid (or with pid 0). |
| Lifecycle.StopKeepsPidFiles | rootfs/opt/app-manager/app-manager.py:264-278 | Without a shutdown script, stop succeeds and leaves the pid files as they were. |
| Lifecycle.StopSettles | rootfs/opt/app-manager/app-manager.py:246-278 | After a stop, no signalled process is left waiting to exit, so a further sleep changes nothing. |
| Lifecycle.RestartWhileStillRunning | rootfs/opt/app-manager/app-manager.py:281-285 | If the app still runs after the stop, restart reports success without running a startup script. |
| Lifecycle.RestartAfterStop | rootfs/opt/app-manager/app-manager.py:281-285 | Once the stop has ended the app, restart succeeds exactly when a startup script exists and exits with 0. |
| Supervisor.Supervisor.StartApp | rootfs/opt/app-manager/app-manager.py:213-243 | Result and new host state are `Start`'s. |
| Supervisor.Supervisor.StopByPidMethod | rootfs/opt/app-manager/app-manager.py:264-278 | SIGTERM, the two-second sleep, then SIGKILL if the app still runs. Result and new host state are those of the pid fallback of `Stop`. |
| Supervisor.Supervisor.StopApp | rootfs/opt/app-manager/app-manager.py:246-278 | Result and new host state are `Stop`'s. |
| Supervisor.Supervisor.RestartApp | rootfs/opt/app-manager/app-manager.py:281-285 | Result and new host state are `Restart`'s. |
| Health.HttpUrl | rootfs/opt/app-manager/app-manager.py:293-298 | The probed URL starts with `http://localhost:` and ends with the configured endpoint, `/health` by default. |
| Health.DefaultHttpUrl | rootfs/opt/app-manager/app-manager.py:293-298 | With nothing configured the URL is `http://localhost:8000/health`. |
| Health.HttpVerdict | rootfs/opt/app-manager/app-manager.py:296-324 | Healthy exactly when the server answers with the expected status, otherwise unhealthy with an error. The status code is reported whenever there was an answer. This is the intended behaviour, including non-2xx answers. |
| Health.HttpVerdictAsWritten | rootfs/opt/app-manager/app-manager.py:296-324 | The code as written is healthy only for a 2xx answer equal to the expected status, because `urlopen` raises on every other status. |
| Health.AsWrittenNeverHealthy | rootfs/opt/app-manager/app-manager.py:296-324 | With an expected status outside 2xx the written check is never healthy. The intended check is healthy for that answer. |
| Health.AsWrittenAgreesOn2xx | rootfs/opt/app-manager/app-manager.py:296-324 | For an expected 2xx status both versions agree. |
| Health.CheckHttp | rootfs/opt/app-manager/app-manager.py:286-323 | As written: healthy exactly when the configured URL answers, within the timeout, with a 2xx status equal to the expected one (200 by default). A 2xx answer reports its status code. Any other outcome is unhealthy with an error and no status code. |
| Health.CheckHttpIntended | rootfs/opt/app-manager/app-manager.py:299-317 | The corrected check: healthy exactly when the configured URL answers with the expected status, whatever it is. The status code is reported whenever there was an answer. |
| Health.CheckHttpExpecting404 | rootfs/opt/app-manager/app-manager.py:294-323 | With `expected_status` 404 the check as written is never healthy, while the corrected check is healthy when the server answers 404. |
| Health.CheckTcp | rootfs/opt/app-manager/app-manager.py:326-350 | Healthy exactly when the connect on the configured port (8000 by default) returns 0. Never reports a status code. |
| Health.CheckProcess | rootfs/opt/app-manager/app-manager.py:352-358 | Healthy exactly when the process runs, otherwise unhealthy. |
| Health.CheckAppHealth | rootfs/opt/app-manager/app-manager.py:360-378 | Unknown, with "App not found", exactly for an unregistered app. Stopped exactly for a registered app that is not running. Otherwise the as-written HTTP check or the TCP check as configured, and healthy for any other type. |
| Health.HealthConfigOf | rootfs/opt/app-manager/app-manager.py:366-367 | An app's own health settings are used as they are. Without them the check defaults to port 8000, a 5-second timeout, expected status 200 and `http://localhost:8000/health`. |
| Health.ScriptKindIsProcessCheck | rootfs/opt/app-manager/app-manager.py:366-378 | A `script` health type reports healthy while running and stopped otherwise. |
| Health.Stamped | rootfs/opt/app-manager/app-manager.py:431-433 | Stamping keeps the verdict and records the check time. |
| Status.SplitUptime | rootfs/opt/app-manager/app-manager.py:396-398 | Hours, minutes and seconds recombine to the uptime. Minutes and seconds lie in 0..59 (floor `divmod`). |
| Status.UptimeText | rootfs/opt/app-manager/app-manager.py:396-404 | The text ends in `m` exactly when there is at least one whole hour, and in `s` otherwise. With hours it starts with the hour count and `h `. |
| Status.UptimeTextByRange | rootfs/opt/app-manager/app-manager.py:396-404 | From an hour up: `<h>h <m>m`. From a minute: `<m>m <s>s`. Below a minute: `<s>s`. |
| Status.NegativeUptimeText | rootfs/opt/app-manager/app-manager.py:396-398 | A negative uptime (clock moved back) splits as floor `divmod` does, e.g. -1 gives -1 h 59 m 59 s. |
| Status.View | rootfs/opt/app-manager/app-manager.py:381-419 | Not found exactly for an unregistered app. Otherwise: running exactly when there is a pid; uptime measured from the start time only while running with a start time, else 0 and "N/A"; the last health; and the manifest fields with their defaults. |
| Supervisor.Supervisor.StatusOf | rootfs/opt/app-manager/app-manager.py:381-419 | `get_app_status` on the current state is `View` with the pid from the pid file. |
| Supervisor.NextRecord | rootfs/opt/app-manager/app-manager.py:429-439 | The new record keeps the manifest and takes the checked health (status, status code and error), stamped with the time. A running app keeps its start time, or gets the current time when it had none. A stopped app loses its start time. |
| Supervisor.Visit | rootfs/opt/app-manager/app-manager.py:427-439 | One visit keeps the manifest and stamps `last_check` with the current time. The status is stopped exactly when the app is not running, and is never unknown. A running app keeps its start time; a stopped one loses it. |
| Supervisor.Pass | rootfs/opt/app-manager/app-manager.py:427-439 | One pass keeps exactly the registered apps. |
| Supervisor.PassOver | rootfs/opt/app-manager/app-manager.py:427-439 | Visiting apps in order keeps the keys of the table. |
| Supervisor.PassOverVisitsOnce | rootfs/opt/app-manager/app-manager.py:427-439 | After visiting distinct names, each visited app holds its visit's record and every other app is unchanged. |
| Supervisor.PassOverAll | rootfs/opt/app-manager/app-manager.py:427-439 | Visiting every registered name in order is the whole-table pass. |
| Supervisor.PassStampsEveryApp | rootfs/opt/app-manager/app-manager.py:427-439 | After a pass every app carries a check time. Its status is never "unknown", and it is "stopped" exactly when the app is not running. |
| Supervisor.StartTimeSurvivesPasses | rootfs/opt/app-manager/app-manager.py:427-439 | A running app first seen at time t1 keeps start time t1 through later passes. Its uptime at t2 is t2 - t1. |
| Supervisor.StoppedAppLosesStartTime | rootfs/opt/app-manager/app-manager.py:436-439 | A pass over a stopped app clears its start time, so its uptime reads "N/A". |
| Supervisor.Supervisor.VisitRecord | rootfs/opt/app-manager/app-manager.py:427-439 | One iteration of the monitor loop computes the record `Visit` describes. |
| Supervisor.Supervisor.MonitorPass | rootfs/opt/app-manager/app-manager.py:427-439 | The monitor loop over the app names leaves the table of one `Pass` and keeps the names. |
| Api.FirstLine | rootfs/opt/app-manager/app-manager.py:567 | The first line is a prefix of the data and holds no CRLF. When the data holds a CRLF, the first line ends right before one, which is the first. Otherwise it is all of the data. |
| Api.ParseRequestLine | rootfs/opt/app-manager/app-manager.py:567-573 | A parsed command and path contain no space. |
| Api.RequestLineRoundTrip | rootfs/opt/app-manager/app-manager.py:567-573 | `<command> <path> HTTP/1.1\r\n<headers>` parses back to that command and path. |
| Api.AppsPathParts | rootfs/opt/app-manager/app-manager.py:470-497 | A path under `/apps/` splits into at least three parts, the second being `apps`, so `split('/')[2]` is defined. |
| Api.GetAsWrittenMisroutes | rootfs/opt/app-manager/app-manager.py:470-478 | As written, `GET /apps/<name>` for a name beginning `health` is routed to the health check instead of the status. |
| Api.PostAsWrittenMisroutes | rootfs/opt/app-manager/app-manager.py:486-497 | As written, `POST /apps/<name>/stop` for a name beginning `start` starts the app. |
| Api.PostStartByName | rootfs/opt/app-manager/app-manager.py:486-488 | As written, `POST /apps/<name>/start` starts `<name>` for every name without `/` or `?`. |
| Api.StopPathHasNoStart | rootfs/opt/app-manager/app-manager.py:486-491 | The stop path of a name not beginning with "start" contains no `/start`, so the start test does not fire. |
| Api.PostStopByName | rootfs/opt/app-manager/app-manager.py:486-491 | As written, `POST /apps/<name>/stop` stops `<name>` when the name does not begin with "start". |
| Api.GetIntendedByName | rootfs/opt/app-manager/app-manager.py:462-481 | With routing on the path's parts, `GET /apps/<name>` is the status and `GET /apps/<name>/health` is the health of that app, for every plain name. |
| Api.PostIntendedByName | rootfs/opt/app-manager/app-manager.py:483-502 | With routing on the path's parts, the start, stop and restart paths perform that action on the named app, for every plain name. |
| Api.FirstLineBeforeCrlf | rootfs/opt/app-manager/app-manager.py:567 | For any line without a CRLF, including lines with a lone '\r', the first line of that line, a CRLF and any rest is exactly that line. |
| Api.RouteGet | rootfs/opt/app-manager/app-manager.py:462-481 | `/apps` lists every app. A path neither `/apps` nor under `/apps/` is 404. Under `/apps/`, a path containing `/health` anywhere asks for health, and any other asks for status; the name is the third '/'-separated part of the path without its query. |
| Api.RoutePost | rootfs/opt/app-manager/app-manager.py:483-502 | A path containing none of `/start`, `/stop` and `/restart` is 404. `/start` is tested first, then `/stop`, then `/restart`, on the full path. The name is the third '/'-separated part; a path with fewer parts raises. POST never lists, reports health or reports status. |
| Api.Route | rootfs/opt/app-manager/app-manager.py:562-576 | A request is ignored exactly when its command is neither GET nor POST. GET gives only the GET actions and POST only the POST actions. |
| Api.RouteGetIntended | rootfs/opt/app-manager/app-manager.py:462-481 | The corrected GET routing: health exactly when the fourth part is `health`, status otherwise, both under `/apps/`. |
| Api.RoutePostIntended | rootfs/opt/app-manager/app-manager.py:483-502 | The corrected POST routing: start, stop or restart exactly when the path is `/apps/<name>/<action>` with that action; anything else is 404. It never raises and never gives a GET action. |
| Api.RouteIntended | rootfs/opt/app-manager/app-manager.py:562-576 | With corrected routing, no request raises. A request is ignored exactly when its command is neither GET nor POST. |
| Supervisor.Listing | rootfs/opt/app-manager/app-manager.py:465-468 | `GET /apps` lists one status per registered app, in registration order. |
| Supervisor.ManifestOf | rootfs/opt/app-manager/app-manager.py:360-364 | A manifest is found exactly for a registered app. |
| Supervisor.Dispatch | rootfs/opt/app-manager/app-manager.py:462-502 | Only start, stop and restart change the host. An unknown route answers 404 "Not found". A path with too few '/'-separated parts makes the handler raise, so nothing is sent back. A method other than GET and POST gets an empty response. |
| Supervisor.ParseStopRequest | rootfs/opt/app-manager/app-manager.py:483-497 | A stop request's bytes parse back to `POST` and its path. As written, the path routes to stopping the app unless its name begins with "start", when it routes to starting it. The corrected routing always stops it. |
| Supervisor.StopRequestStops | rootfs/opt/app-manager/app-manager.py:539-581 | For an app whose name does not begin with "start", the handler answers a stop request with 200, the stop's result and the app's status afterwards. The host is left as `Stop` leaves it. |
| Supervisor.StopRequestStartsStarter | rootfs/opt/app-manager/app-manager.py:483-497 | Asked to stop an app whose name begins with "start", the handler starts it: the answer and the host are those of `Start`. |
| Supervisor.StopRequestStopsIntended | rootfs/opt/app-manager/app-manager.py:539-581 | With the corrected routing, a stop request stops the app whatever its name. |
| Supervisor.HealthOfUnknownApp | rootfs/opt/app-manager/app-manager.py:360-364 | The health of an unregistered app is "unknown" and the host is unchanged. |
| Supervisor.Supervisor.Perform | rootfs/opt/app-manager/app-manager.py:462-502 | Reply and new host state are `Dispatch`'s. The app table stays well-formed. |
| Supervisor.Supervisor.HandleRequest | rootfs/opt/app-manager/app-manager.py:539-581 | Reply and new host state are those of `Respond`, which routes the request line as `do_GET` and `do_POST` do, substring tests included. |
| Supervisor.Respond | rootfs/opt/app-manager/app-manager.py:539-581 | Empty data gets no reply and changes nothing. An unparsable request line, or a command other than GET and POST, gets an empty response. Only a parsed POST can change the state. |
| Supervisor.RespondIntended | rootfs/opt/app-manager/app-manager.py:539-581 | With corrected routing, a reply is withheld exactly when no data arrived. The other clauses are those of `Respond`. |
| Supervisor.ActionReply | rootfs/opt/app-manager/app-manager.py:490-502 | A start, stop or restart answers 200 with the action's success flag and the app's status, read after the action. |
| Tokens.TokenFor | rootfs/opt/system-mgmt/app.py:830-831 | The token is the first 32 characters, at most, of the digest of `<user>:<login time>:<random>`. |
| Tokens.Purge | rootfs/opt/system-mgmt/app.py:838-839 | Keeps exactly the entries that expire strictly after now, unchanged. |
| Tokens.Issue | rootfs/opt/system-mgmt/app.py:834-846 | The new token is stored for its user with expiry now+60. Every other entry is kept exactly when it expires after now. The store exists afterwards. |
| Tokens.Validate | rootfs/opt/system-mgmt/app.py:864-889 | Accepted, with the stored user, exactly when the token is present and expires no earlier than now. Each rejection reason is returned for its case. A found token is removed whatever the answer. |
| Tokens.ValidateTwiceFails | rootfs/opt/system-mgmt/app.py:873-884 | A token is one-time: validating it again answers "invalid token". |
| Tokens.IssuedTokenLifetime | rootfs/opt/system-mgmt/app.py:842-877 | An issued token is accepted for its user up to 60 seconds later, and rejected as "expired" after that. |
| Tokens.IssueKeepsOthers | rootfs/opt/system-mgmt/app.py:838-846 | Issuing a token leaves every other unexpired token valid. |
| Tokens.ExpiryInstant | rootfs/opt/system-mgmt/app.py:839-877 | At the very instant of expiry, validation still accepts the token while the purge of an issue drops it. |
| Tokens.TokenStore.constructor | rootfs/opt/system-mgmt/app.py:834-835 | The store starts out not created and empty. |
| Tokens.TokenStore.IssueToken | rootfs/opt/system-mgmt/app.py:834-846 | The new store is `Issue`'s. |
| Tokens.TokenStore.ValidateToken | rootfs/opt/system-mgmt/app.py:864-889 | The answer and new store are `Validate`'s. |
| Logs.StaticById | rootfs/opt/system-mgmt/app.py:644-647 | Finds a configured source exactly when one has that id. |
| Logs.ResolveSource | rootfs/opt/system-mgmt/app.py:637-649 | `app:<name>` is `<name>.log` joined to the app log directory, under the app's display name. A static id gives its file and name. Any other id is unknown. |
| Logs.AppSourcePath | rootfs/opt/system-mgmt/app.py:638-639 | A relative app name stays in `/var/log/app`. An absolute one replaces the directory, as `os.path.join` does inside `read_log_file`. The `/api/logs/<source_id>` route cannot pass a name holding '/'. |
| Logs.SupervisorLogName | rootfs/opt/system-mgmt/app.py:640-643 | The supervisor's log is named "App Manager Log". |
| Logs.OutputLines | rootfs/opt/system-mgmt/app.py:661-670 | Command output lines joined with newlines give back the stripped output. There is always at least one line. |
| Logs.EmptyOutputIsOneLine | rootfs/opt/system-mgmt/app.py:661-670 | Blank output yields one empty line. |
| Logs.DmesgLines | rootfs/opt/system-mgmt/app.py:653-670 | A failed start or a timeout of `dmesg -T` ends the read with its error ("Timeout reading log" for the timeout). A successful `dmesg -T` gives its lines. Otherwise plain `dmesg` decides in the same way, and an error exit of both gives no lines. |
| Logs.TrimLines | rootfs/opt/system-mgmt/app.py:677-678 | Keeps every line, with its trailing newlines removed. |
| Logs.Matching | rootfs/opt/system-mgmt/app.py:681-683 | Keeps exactly the lines that contain the term, ignoring case. |
| Logs.MatchingAppend | rootfs/opt/system-mgmt/app.py:681-683 | Filtering keeps log order: filtering a concatenation filters each part. |
| Logs.Tail | rootfs/opt/system-mgmt/app.py:688-689 | The result is a suffix of the lines: the last n for a positive n, otherwise all of them. |
| Logs.FilterTail | rootfs/opt/system-mgmt/app.py:681-689 | The total counts all matches. The kept lines are the last n of them. |
| Logs.Report | rootfs/opt/system-mgmt/app.py:681-697 | Reports the filtered total and the kept tail. The returned count is min(total, n) for a positive n and the total otherwise. |
| Logs.ReadLog | rootfs/opt/system-mgmt/app.py:620-704 | An unknown id gives "Unknown log source". The kernel log gives the `dmesg` error or the report of its lines. A file source gives "Log file not found", "Permission denied" or the read error, or the report of its lines with newlines trimmed. A report holds the filtered total and the last n matches. |
| Logs.ReadFile | rootfs/opt/system-mgmt/app.py:674-697 | For a file source: a missing file gives "Log file not found: <path>", the other read errors their messages, and readable lines are trimmed, filtered and cut as `Report` states. |
| Logs.ReadKernel | rootfs/opt/system-mgmt/app.py:653-697 | For the kernel log: a `dmesg` error is the answer, otherwise the lines are filtered and cut as `Report` states. |
| Logs.ApiLogBounds | rootfs/opt/system-mgmt/app.py:989-999 | The log endpoint returns at most min(n, 1000) lines for a positive count, and every match for a count of 0 or less. |
| Logs.AppLogs | rootfs/opt/system-mgmt/app.py:1166-1208 | A missing file gives "Log file not found: <path>", the other read errors their messages. Otherwise the total counts the matching trimmed lines and the lines are the last min(n, 1000) of them, for the named app. |
| Logs.AppLogsAgree | rootfs/opt/system-mgmt/app.py:1166-1208 | `/api/apps/<app>/logs` and the source `app:<app>` return the same lines, total and count, and fail with the same error. |
| Logs.SearchKeepsMatches | rootfs/opt/system-mgmt/app.py:681-689 | With a search term, a line is kept exactly when it contains the term ignoring case. With no positive count, every match is kept. |
| Logs.Filter | rootfs/opt/system-mgmt/app.py:680-683 | No search, or an empty one, keeps every line. Otherwise a line is kept if and only if it matches, case-insensitively. The result is never longer. |
| Logs.ApiLogContent | rootfs/opt/system-mgmt/app.py:989-999 | An unknown id gives the error message. Lines returned never exceed the request nor 1000. A zero or negative request returns every matching line, because the cut applies only to a positive count. |
| Logs.StaticEntries | rootfs/opt/system-mgmt/app.py:585-595 | One entry per static source, in configured order, with its id, name and description. It is available exactly when the source has no path (the kernel log) or its path exists. |
| Logs.AppEntries | rootfs/opt/system-mgmt/app.py:598-615 | Exactly one entry per `.log` file of the listing, in listing order (`LogFiles`). The entry for file f is `AppEntryFor(f)`: id `app:` + f without `.log`, the friendly name, the description, and available. |
| Logs.LogFiles | rootfs/opt/system-mgmt/app.py:599-600 | A name is kept if and only if it is in the listing and ends in `.log`. Every kept name ends in `.log`, and there are never more than were listed. |
| Logs.LogFilesAppend | rootfs/opt/system-mgmt/app.py:599-600 | Keeping the `.log` files commutes with concatenating listings, so listing order is preserved. |
| Logs.AppEntryFor | rootfs/opt/system-mgmt/app.py:601-613 | The id is `app:` followed by the file name without its `.log` suffix. The name is `AppLogName` and the description is `AppLogDescription` of that app name; `app-manager` gets its fixed name and description. The entry is available. |
| Logs.LogSources | rootfs/opt/system-mgmt/app.py:580-617 | The static entries come first. App entries follow exactly when the app log directory exists, one per `.log` file. |
| Logs.StaticResolves | rootfs/opt/system-mgmt/app.py:644-647 | Each static source resolves to its own file and name. |
| Logs.AppEntriesResolve | rootfs/opt/system-mgmt/app.py:598-615 | Each listed app log resolves under the same display name. |
| Logs.ListedSourcesResolve | rootfs/opt/system-mgmt/app.py:580-649 | Every listed source can be read back by its id, under the same name. |
| Version.Setting | rootfs/opt/system-mgmt/app.py:334-337 | A line sets something exactly when its stripped text contains '='. The key, lower-cased, is the text before the first '=' and the value is the rest. |
| Version.Assign | rootfs/opt/system-mgmt/app.py:337-347 | A recognised key sets only its own field. An unknown key changes nothing. |
| Version.Apply | rootfs/opt/system-mgmt/app.py:333-347 | One line sets the field its key names and leaves the others. |
| Version.FieldIsLastValue | rootfs/opt/system-mgmt/app.py:320-351 | Each field holds the value of the last line that sets it, or its starting value: later lines win. |
| Version.ParseFields | rootfs/opt/system-mgmt/app.py:320-351 | Each field is the last setting or "unknown". A read error keeps what was read before it and records the message. |
| Version.ReadVersionInfo | rootfs/opt/system-mgmt/app.py:320-351 | The reading loop yields `Parse` of the file. |
| Version.ApplyAll | rootfs/opt/system-mgmt/app.py:333-347 | Applying lines never sets or clears the error. |
| Version.Parse | rootfs/opt/system-mgmt/app.py:320-351 | A missing file gives the defaults. An error is reported exactly when reading failed, and then it carries the message. |
| Proxy.MapOfKeys | rootfs/opt/system-mgmt/app.py:181 | The dict comprehension has exactly the listed names as keys. |
| Proxy.MapOfLastWins | rootfs/opt/system-mgmt/app.py:181 | The last entry with a name gives its port. |
| Proxy.ManifestPorts | rootfs/opt/system-mgmt/app.py:176-185 | The manifest yields ports exactly when every entry is an object with a name and a port. The keys are those names, and each maps to the port of its last entry. |
| Proxy.ListedPorts | rootfs/opt/system-mgmt/app.py:187-191 | The API listing yields exactly the listed names. A name's port is that of its last entry, or 0 when the entry has none (`app.get('port', 0)`). |
| Proxy.Lookup | rootfs/opt/system-mgmt/app.py:159-192 | A non-empty cache younger than 60 s is reused. Otherwise the manifest's ports, or the API's when the manifest cannot be used, are cached with the current time. A listing without apps gives none and keeps the cache. |
| Proxy.ReusedWithinTtl | rootfs/opt/system-mgmt/app.py:171-173 | Non-empty ports fetched at some time are served unchanged for 60 s, whatever the sources say then. |
| Proxy.EmptyCacheReloads | rootfs/opt/system-mgmt/app.py:171-185 | An empty cache is never reused: the manifest is read again. |
| Proxy.StringEntryFallsBack | rootfs/opt/system-mgmt/app.py:176-191 | A manifest with a bare-name entry makes the proxy use the API's listing. |
| Proxy.Decide | rootfs/opt/system-mgmt/app.py:208-226 | An app that is not listed gives 404. Port 0 gives 500. Otherwise the request is forwarded to `http://127.0.0.1:<port><path>`, with the port written in decimal. |
| Proxy.ForwardTarget | rootfs/opt/system-mgmt/app.py:226 | The forwarded URL's port reads back as the app's port. |
| Proxy.ForwardPath | rootfs/opt/system-mgmt/app.py:1224-1229 | The forwarded path always starts with '/'. |
| Proxy.ForwardPathRoundTrip | rootfs/opt/system-mgmt/app.py:1224-1229 | The query string is appended after '?' only when present, and splits back off intact. |
| Proxy.ManifestAppForwarded | rootfs/opt/system-mgmt/app.py:159-226 | An app in a stale cache's manifest with a non-zero port is forwarded to that port. |
| Proxy.ListedAppForwarded | rootfs/opt/system-mgmt/app.py:159-226 | With a stale cache and no usable manifest, an app from the API listing is forwarded to its last listed port when that is not 0. A port of 0 or a missing port gives 500 "No port configured". |
| Proxy.PortCache.constructor | rootfs/opt/system-mgmt/app.py:97-99 | The cache starts empty at time 0. |
| Proxy.PortCache.GetAppPorts | rootfs/opt/system-mgmt/app.py:159-192 | The answer and new cache are `Lookup`'s. |
| Proxy.PortCache.ProxyRequest | rootfs/opt/system-mgmt/app.py:195-226 | The decision is `Decide` on `Lookup`'s ports, and the cache is updated as `Lookup` says. |
| Auth.FieldTable | rootfs/opt/system-mgmt/app.py:281-282 | Each line's fields are its stripped text split at ':'. |
| Auth.FirstEntry | rootfs/opt/system-mgmt/app.py:281-283 | Returns the first line naming the user with at least two fields. Returns none exactly when no line does. |
| Auth.VerifyShadow | rootfs/opt/system-mgmt/app.py:274-297 | An unreadable file never verifies. A verified user has a line naming them with an unlocked hash that `crypt` of the password reproduces. A user with no line never verifies. |
| Auth.LockedOrAbsentRejects | rootfs/opt/system-mgmt/app.py:279-297 | A missing user, or a locked or empty hash on the user's first line, is rejected. |
| Auth.ShadowLineFields | rootfs/opt/system-mgmt/app.py:282-284 | A `user:hash:...` line yields that user and hash. |
| Auth.VerifyByOwnLine | rootfs/opt/system-mgmt/app.py:279-297 | When the user's line is the first naming them, the password is accepted exactly when the hash is not locked and `crypt` reproduces it. |
| Auth.AfterChpasswd | rootfs/opt/system-mgmt/app.py:1086-1119 | Answers 200 exactly when `chpasswd` exits with 0. The input is recorded. |
| Auth.FormRejection | rootfs/opt/system-mgmt/app.py:1060-1077 | The form passes exactly when all fields are filled, the two new passwords match, and it is at least 4 characters long. Otherwise it gets 400 and `chpasswd` is not run. |
| Auth.ChangePasswordAsWritten | rootfs/opt/system-mgmt/app.py:1048-1119 | As written: the form checks decide first, then a wrong current password gives 401. `chpasswd` runs, fed `user:password\n`, exactly when both pass, and the answer is 200 exactly when it exits with 0. |
| Auth.AsWrittenAgreesWithoutLineBreak | rootfs/opt/system-mgmt/app.py:1048-1119 | For a new password without a line break the code as written and the corrected version give the same answer. |
| Auth.ChangePasswordAsWrittenInjects | rootfs/opt/system-mgmt/app.py:1086-1092 | As written, the new password `abcd\nroot:x` makes `chpasswd`'s second input line `root:x`. |
| Auth.ChangePassword | rootfs/opt/system-mgmt/app.py:1048-1119 | The checks run in order: missing fields (400), mismatch (400), length (400), a line break (400, corrected), wrong current password (401). `chpasswd` runs exactly when all pass, and the answer is 200 exactly when it exits with 0. |
| Auth.ChpasswdOnlyForUser | rootfs/opt/system-mgmt/app.py:1086-1092 | With the correction, `chpasswd` gets one line, and it sets only the logged-in user's password. |
| Auth.ChangePasswordRefusesInjection | rootfs/opt/system-mgmt/app.py:1086-1092 | The corrected version rejects the injecting password with 400. |
| Auth.LoginGuard | rootfs/opt/system-mgmt/app.py:300-317 | Proceeds exactly for a logged-in session that has not expired. API and JSON callers get 401, and the others are redirected. An expired session is cleared. |
| Auth.SessionCheck | rootfs/opt/system-mgmt/app.py:794-814 | Valid exactly for a logged-in session that has not expired, reporting its user and login time. Expired exactly for a logged-in session past 30 minutes. |
| Auth.GuardAgreesWithCheck | rootfs/opt/system-mgmt/app.py:794-814 | The guard and the session check accept the same sessions. |
| Auth.ExpiryBoundary | rootfs/opt/system-mgmt/app.py:309-311 | A session is valid at exactly 1800 s and expired one second later. A session without a login time never expires. |
| Auth.GuardClearsCheckDoesNot | rootfs/opt/system-mgmt/app.py:309-314 | After expiry the guard clears the session, while the session check reports it expired and leaves it. |

## Left out

- **Transport.** The Unix socket server, its threads, the Flask request machinery and the actual forwarding of proxied requests with `urllib` are out. The model keeps the request line and the routing, and the proxy's decision and path. The request bytes are taken as already decoded text: app-manager.py:567 decodes the first line as UTF-8, and invalid UTF-8 raises there, is caught at line 582, and no reply is sent, an outcome the model does not have.
- **Concurrency.** The monitor thread and request handlers run sequentially in the model. Any interleaving of a monitor pass with a request is not modelled.
- **Time.** `time.time()` floats become whole seconds given as parameters. ISO timestamps are an opaque string parameter. `time.sleep` is the `Host.Host.Sleep` step.
- **Outside effects.** Scripts, `os.kill`, `crypt`, `sha256`, `secrets`, `chpasswd`, `dmesg`, HTTP and TCP probes are oracles given as parameters. Their effects are stated, not computed.
- **Files.** File and directory contents are inputs. `glob` results are given in the order `glob` yields them, and the log directory listing in the sorted order the code asks for. Newline translation on read is not modelled.
- **JSON.** Parsing of the global manifest and the app manifests is not modelled. They arrive as datatypes, and a missing app manifest file gives an empty manifest.
- **Not modelled:**
  - `init_app_directories`;
  - `run_startup_scripts` and `run_shutdown_scripts` at boot and exit;
  - `load_global_manifest`;
  - logging;
  - the signal handler;
  - the demo apps.
- **Case mapping.** `Strings.Lower` and `Strings.Title` map ASCII letters only. Python maps all of Unicode.
- **Form input.** Form and JSON values are strings in the model. A non-string or null value in a request body, and a listing entry without a `name` (a `KeyError` in the source), are not modelled.
- Host.FirstMatch: the app name is matched literally. `glob` reads `*`, `?` and `[...]` in the name as wildcards, so an app called `*` would match the first `*-*.sh` script; names holding those characters are not modelled.
- Host.FindScript: it uses the literal match of `Host.FirstMatch`. For a name holding `*`, `?` or `[`, the script it returns can differ from the one `glob` finds first.
- Host.RunScript: a script's effect comes from the script oracle and depends only on the script, not on the host state. It can write or remove only the pid file of the app it runs for, and it starts and ends processes but sends no signal through `os.kill`.
- Host.PidOf: `get_pid` catches only `ValueError`, `ProcessLookupError` and `FileNotFoundError`. A `PermissionError` or an `OverflowError` (a pid beyond the C integer range) from `os.kill` escapes it; the model has no such outcome, so `live` decides alone.
- Strings.ParseInt: `int()` also accepts underscores between digits and non-ASCII decimal digits. Those pid file contents give no pid in the model.
- Proxy.ManifestPorts: a JSON null port is written as port 0, which the proxy treats alike (500, "No port configured"). A port given as a string or a float is not modelled.
- Logs.DmesgLines: a `dmesg` run that cannot start carries the error the handler reports; which exception it was is not modelled beyond that message.
- Logs.ReadLog: the generic `except Exception` branch is the `FileFailed` outcome of the file oracle. Decoding errors are not distinguished from it.
- Host.Kill: SIGTERM takes effect at the next sleep, for every process that does not ignore it. Partial or delayed exits are not modelled.
- Lifecycle.StopByPidSignals: the two-second sleep between SIGTERM and the check before SIGKILL is one `Wait` step. A process that exits more slowly than the sleep is not modelled.

## Findings

| source | as written | input that shows it | evidently intended | confidence | as-written member | corrected member |
|---|---|---|---|---|---|---|
| rootfs/opt/app-manager/app-manager.py:470-478 | `GET` takes any path under `/apps/` containing `/health` as a health request. | `GET /apps/healthd` returns the health of `healthd`, not its status. | Route on the path's parts: `/apps/<name>/health` only. | high, not executed | Api.GetAsWrittenMisroutes | Api.GetIntendedByName |
| rootfs/opt/app-manager/app-manager.py:485-497 | `POST` tests `'/start' in path` before `/stop` and `/restart`. | `POST /apps/start-db/stop` starts `start-db` instead of stopping it. | Route on the path's last part. | high, not executed | Supervisor.StopRequestStartsStarter | Supervisor.StopRequestStopsIntended |
| rootfs/opt/app-manager/app-manager.py:296-324 | The HTTP check compares the status only after `urlopen`, which raises for any non-2xx status. | `expected_status` 404 and a 404 answer gives "unhealthy". | A configured non-2xx status is healthy when it is the answer. | medium, not executed | Health.CheckHttpExpecting404 | Health.CheckHttpIntended |
| rootfs/opt/system-mgmt/app.py:1086-1092 | The new password is written into `chpasswd`'s input without checking for line breaks. | New password `abcd\nroot:x` (entered twice) adds the line `root:x`, changing root's password. | Refuse a new password containing a line break. | high, not executed | Auth.ChangePasswordAsWrittenInjects | Auth.ChangePassword |
