/**
 * The operating system as the supervisor sees it: PID files under
 * /run/app, the set of processes that answer `kill(pid, 0)`, the startup
 * and shutdown scripts found by `glob`, and the signals sent. Real processes
 * are not modelled; what a script does when it runs is given by an oracle.
 */
module Host {
  import opened Wrappers
  import opened Strings

  datatype Signal = SIGTERM | SIGKILL

  /** A successful `os.kill(pid, sig)`. */
  datatype Sent = Sent(pid: int, sig: Signal)

  /** How `subprocess.run` ends: the script's exit code, or an exception
      (timeout, exec failure). */
  datatype RunOutcome = Exited(code: int) | Raised

  /** What a script does to its app's PID file. */
  datatype PidFileEffect = Keep | Write(contents: string) | Remove

  /** What running a script does: how it ends, its effect on the app's PID
      file, and the processes it starts and ends. */
  datatype ScriptRun = ScriptRun(outcome: RunOutcome, pidFile: PidFileEffect, started: set<int>, ended: set<int>)

  /** The scripts present: the file names in /app/startup.d and
      /app/shutdown.d in the order `glob` yields them, and what each does. */
  datatype Scripts = Scripts(startup: seq<string>, shutdown: seq<string>, runOf: string -> ScriptRun)

  /**
   * A snapshot of the host. `live` holds the PIDs `kill(pid, 0)` succeeds
   * on; `ignoresTerm` the processes that outlive a SIGTERM and the wait after
   * it; `terminating` the processes sent SIGTERM and not yet waited for.
   */
  datatype HostState = HostState(
    pidFiles: map<string, string>,
    live: set<int>,
    ignoresTerm: set<int>,
    terminating: set<int>,
    signals: seq<Sent>,
    ran: seq<string>)

  // ----------------------------------------------------------------- liveness

  /** `get_pid`: the PID in the app's PID file, if the file exists, holds an
      integer and that process is alive. A stale file is left in place. */
  function PidOf(s: HostState, app: string): (r: Option<int>)
    ensures r.Some? <==> app in s.pidFiles && ParseInt(Strip(s.pidFiles[app])).Some?
                         && ParseInt(Strip(s.pidFiles[app])).value in s.live
    ensures r.Some? ==> r.value in s.live && ParseInt(Strip(s.pidFiles[app])) == r
  {
    if app !in s.pidFiles then None
    else match ParseInt(Strip(s.pidFiles[app]))
      case None => None
      case Some(pid) => if pid in s.live then Some(pid) else None
  }

  /** `is_running`. */
  predicate Running(s: HostState, app: string) {
    PidOf(s, app).Some?
  }

  /** A PID file of the usual shape, the PID in decimal with a trailing
      newline, names that PID exactly when the process is alive. */
  lemma {:induction false} PidFileRoundTrip(s: HostState, app: string, pid: int)
    requires app in s.pidFiles && s.pidFiles[app] == IntToString(pid) + "\n"
    ensures PidOf(s, app) == (if pid in s.live then Some(pid) else None)
  {
    var t := IntToString(pid);
    StripDigitsLine(t);
    ParseIntToString(pid);
  }

  lemma StripDigitsLine(t: string)
    requires t == [] || (!IsSpace(t[0]) && !IsSpace(t[|t| - 1]))
    ensures Strip(t + "\n") == t
  {
    var u := t + "\n";
    if t == [] {
      assert StripLeft(u) == StripLeft([]);
    } else {
      assert StripLeft(u) == u;
      assert StripRight(u) == StripRight(t);
    }
  }

  // ------------------------------------------------------------------ scripts

  /** A file name matches the glob `*-<app>.sh`; like `glob`, `*` does not
      match a leading dot. */
  predicate MatchesScript(file: string, app: string) {
    EndsWith(file, "-" + app + ".sh") && !StartsWith(file, ".")
  }

  /** The position of the first file that matches `*-<app>.sh`; `|files|` if none does. */
  function FirstMatch(files: seq<string>, app: string): (i: nat)
    ensures i <= |files|
    ensures i < |files| ==> MatchesScript(files[i], app)
    ensures forall j :: 0 <= j < i ==> !MatchesScript(files[j], app)
  {
    if files == [] then 0
    else if MatchesScript(files[0], app) then 0
    else
      var k := FirstMatch(files[1..], app);
      assert forall j :: 1 <= j < k + 1 ==> files[j] == files[1..][j - 1];
      k + 1
  }

  /** The script `glob` finds first for `*-<app>.sh`, if any. */
  function FindScript(files: seq<string>, app: string): (r: Option<string>)
    ensures r.Some? ==> r.value in files && MatchesScript(r.value, app)
    ensures r.Some? ==> r.value == files[FirstMatch(files, app)]
    ensures r.None? <==> forall f :: f in files ==> !MatchesScript(f, app)
  {
    var i := FirstMatch(files, app);
    if i < |files| then Some(files[i]) else None
  }

  /** Running `script` on behalf of `app`: its outcome, and the host after it. */
  function RunScript(s: HostState, sc: Scripts, script: string, app: string): (r: (RunOutcome, HostState))
    ensures r.0 == sc.runOf(script).outcome
    ensures r.1.ran == s.ran + [script] && r.1.signals == s.signals
    ensures r.1.ignoresTerm == s.ignoresTerm && r.1.terminating == s.terminating
    ensures forall other :: other != app ==>
              (other in r.1.pidFiles <==> other in s.pidFiles)
              && (other in s.pidFiles ==> r.1.pidFiles[other] == s.pidFiles[other])
  {
    var run := sc.runOf(script);
    var files := match run.pidFile
      case Keep => s.pidFiles
      case Write(c) => s.pidFiles[app := c]
      case Remove => s.pidFiles - {app};
    (run.outcome, s.(pidFiles := files, live := s.live - run.ended + run.started, ran := s.ran + [script]))
  }

  // ------------------------------------------------------------------ signals

  /** `os.kill(pid, sig)`: succeeds exactly when the process exists (else
      `ProcessLookupError`); SIGKILL ends it at once, SIGTERM at the next wait
      unless the process ignores it. Only a successful call is logged. */
  function Kill(s: HostState, pid: int, sig: Signal): (r: (bool, HostState))
    ensures r.0 <==> pid in s.live
    ensures !r.0 ==> r.1 == s
    ensures r.0 ==> r.1.signals == s.signals + [Sent(pid, sig)]
    ensures r.1.pidFiles == s.pidFiles && r.1.ran == s.ran && r.1.ignoresTerm == s.ignoresTerm
    ensures r.0 && sig == SIGKILL ==> pid !in r.1.live
    ensures r.0 && sig == SIGTERM ==> r.1.live == s.live && pid in r.1.terminating
  {
    if pid !in s.live then (false, s)
    else
      var s' := s.(signals := s.signals + [Sent(pid, sig)]);
      if sig == SIGKILL then (true, s'.(live := s.live - {pid}, terminating := s.terminating - {pid}))
      else (true, s'.(terminating := s.terminating + {pid}))
  }

  /** The grace period (`time.sleep`): processes sent SIGTERM that do not
      ignore it have exited by its end. */
  function Wait(s: HostState): (r: HostState)
    ensures r.live == s.live - (s.terminating - s.ignoresTerm)
    ensures r.terminating == {}
    ensures r.pidFiles == s.pidFiles && r.signals == s.signals && r.ran == s.ran
  {
    s.(live := s.live - (s.terminating - s.ignoresTerm), terminating := {})
  }

  /** The host as mutable state. */
  class Host {
    var pidFiles: map<string, string>
    var live: set<int>
    var ignoresTerm: set<int>
    var terminating: set<int>
    var signals: seq<Sent>
    var ran: seq<string>
    const scripts: Scripts

    function Snapshot(): HostState
      reads this
    {
      HostState(pidFiles, live, ignoresTerm, terminating, signals, ran)
    }

    constructor(init: HostState, scripts: Scripts)
      ensures Snapshot() == init && this.scripts == scripts
    {
      pidFiles, live, ignoresTerm, terminating := init.pidFiles, init.live, init.ignoresTerm, init.terminating;
      signals, ran := init.signals, init.ran;
      this.scripts := scripts;
    }

    function GetPid(app: string): (r: Option<int>)
      reads this
      ensures r == PidOf(Snapshot(), app)
      ensures r.Some? ==> r.value in live
    {
      PidOf(Snapshot(), app)
    }

    function IsRunning(app: string): (r: bool)
      reads this
      ensures r <==> Running(Snapshot(), app)
    {
      GetPid(app).Some?
    }

    method Run(script: string, app: string) returns (outcome: RunOutcome)
      modifies this
      ensures (outcome, Snapshot()) == RunScript(old(Snapshot()), scripts, script, app)
    {
      var r := RunScript(Snapshot(), scripts, script, app);
      outcome := r.0;
      pidFiles, live, ran := r.1.pidFiles, r.1.live, r.1.ran;
    }

    method Signal(pid: int, sig: Signal) returns (ok: bool)
      modifies this
      ensures (ok, Snapshot()) == Kill(old(Snapshot()), pid, sig)
    {
      ok := pid in live;
      if ok {
        signals := signals + [Sent(pid, sig)];
        if sig == SIGKILL {
          live := live - {pid};
          terminating := terminating - {pid};
        } else {
          terminating := terminating + {pid};
        }
      }
    }

    method Sleep()
      modifies this
      ensures Snapshot() == Wait(old(Snapshot()))
    {
      live := live - (terminating - ignoresTerm);
      terminating := {};
    }
  }
}
