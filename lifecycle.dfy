/**
 * `start_app`, `stop_app` and `restart_app` as functions from a host
 * snapshot to the returned flag and the host afterwards. The supervisor's
 * methods are proved to follow them step by step.
 */
module Lifecycle {
  import opened Wrappers
  import opened Host

  /** `start_app`: nothing to do when already running; otherwise run the first
      `*-<app>.sh` startup script and succeed exactly when it exits 0. */
  function Start(s: HostState, sc: Scripts, app: string): (r: (bool, HostState))
    ensures Running(s, app) ==> r == (true, s)
    ensures !Running(s, app) && FindScript(sc.startup, app).None? ==> r == (false, s)
    ensures !Running(s, app) && FindScript(sc.startup, app).Some? ==>
              var script := FindScript(sc.startup, app).value;
              (r.0 <==> sc.runOf(script).outcome == Exited(0)) && r.1.ran == s.ran + [script]
              && r.1 == RunScript(s, sc, script, app).1
    ensures r.1.signals == s.signals
  {
    if Running(s, app) then (true, s)
    else match FindScript(sc.startup, app)
      case None => (false, s)
      case Some(script) =>
        var (outcome, s') := RunScript(s, sc, script, app);
        (outcome == Exited(0), s')
  }

  /** The fallback of `stop_app`: SIGTERM to the PID, the wait, and SIGKILL to
      the same PID if the app is still running afterwards. A missing PID, or
      PID 0 (falsy in Python), ends the stop with success and no signal. */
  function StopByPid(s: HostState, app: string): (r: (bool, HostState))
    ensures r.1.pidFiles == s.pidFiles && r.1.ran == s.ran
    ensures PidOf(s, app).None? || PidOf(s, app) == Some(0) ==> r == (true, s)
    ensures PidOf(s, app).Some? && PidOf(s, app).value != 0 ==>
              var pid := PidOf(s, app).value;
              |r.1.signals| > |s.signals| && r.1.signals[..|s.signals| + 1] == s.signals + [Sent(pid, SIGTERM)]
  {
    match PidOf(s, app)
    case None => (true, s)
    case Some(pid) =>
      if pid == 0 then (true, s)
      else
        var (termed, s1) := Kill(s, pid, SIGTERM);
        if !termed then (false, s1)
        else
          var s2 := Wait(s1);
          if Running(s2, app) then Kill(s2, pid, SIGKILL) else (true, s2)
  }

  /** The shutdown script `stop_app` would run, or `None`. */
  function ShutdownScript(sc: Scripts, app: string): Option<string> {
    FindScript(sc.shutdown, app)
  }

  /** `stop_app`: nothing to do when not running; otherwise the first
      `*-<app>.sh` shutdown script, which ends the stop with success whatever
      its exit code unless running it raised; then the PID fallback. */
  function Stop(s: HostState, sc: Scripts, app: string): (r: (bool, HostState))
    ensures !Running(s, app) ==> r == (true, s)
    ensures Running(s, app) && ShutdownScript(sc, app).None? ==> r == StopByPid(s, app)
    ensures Running(s, app) && ShutdownScript(sc, app).Some? ==> r.1.ran == s.ran + [ShutdownScript(sc, app).value]
    ensures Running(s, app) && ShutdownScript(sc, app).Some? && sc.runOf(ShutdownScript(sc, app).value).outcome.Exited? ==>
              r.0 && r.1.signals == s.signals
    ensures Running(s, app) && ShutdownScript(sc, app).Some? && sc.runOf(ShutdownScript(sc, app).value).outcome.Raised? ==>
              r == StopByPid(RunScript(s, sc, ShutdownScript(sc, app).value, app).1, app)
    ensures !r.0 ==> Running(s, app)
  {
    if !Running(s, app) then (true, s)
    else match ShutdownScript(sc, app)
      case None => StopByPid(s, app)
      case Some(script) =>
        var (outcome, s1) := RunScript(s, sc, script, app);
        if outcome.Exited? then (true, s1) else StopByPid(s1, app)
  }

  /** `restart_app`: stop (its result ignored), the pause, then start. */
  function Restart(s: HostState, sc: Scripts, app: string): (r: (bool, HostState))
    ensures var after := Wait(Stop(s, sc, app).1);
      r.0 <==> Running(after, app)
               || (FindScript(sc.startup, app).Some? && sc.runOf(FindScript(sc.startup, app).value).outcome == Exited(0))
  {
    Start(Wait(Stop(s, sc, app).1), sc, app)
  }

  // ------------------------------------------------------------------ stop

  /** Stopping an app that is not running succeeds and changes nothing: no
      script, no signal. Stop is therefore idempotent once the app is down. */
  lemma StopWhenStopped(s: HostState, sc: Scripts, app: string)
    requires !Running(s, app)
    ensures Stop(s, sc, app) == (true, s)
  {
  }

  /** When a shutdown script exists and runs without raising, the stop
      succeeds whatever the exit code, and no signal is sent. */
  lemma StopByScript(s: HostState, sc: Scripts, app: string)
    requires Running(s, app) && ShutdownScript(sc, app).Some?
    requires sc.runOf(ShutdownScript(sc, app).value).outcome.Exited?
    ensures Stop(s, sc, app).0
    ensures Stop(s, sc, app).1.signals == s.signals
    ensures Stop(s, sc, app).1.ran == s.ran + [ShutdownScript(sc, app).value]
  {
  }

  /** The signals the fallback sends: none, SIGTERM alone, or SIGTERM then
      SIGKILL, all to the PID read before the first one. */
  predicate FallbackSignals(sent: seq<Sent>, pid: int) {
    sent == [] || sent == [Sent(pid, SIGTERM)] || sent == [Sent(pid, SIGTERM), Sent(pid, SIGKILL)]
  }

  /**
   * The PID fallback sends SIGTERM first and SIGKILL at most once, exactly
   * when the process outlived SIGTERM and the wait; it leaves every PID file
   * in place (a stale one included) and, with nothing else acting on the
   * host in between, always succeeds.
   */
  lemma StopByPidSignals(s: HostState, app: string)
    requires s.terminating == {}
    ensures var r := StopByPid(s, app);
      && r.0
      && r.1.pidFiles == s.pidFiles
      && |r.1.signals| >= |s.signals| && r.1.signals[..|s.signals|] == s.signals
      && (PidOf(s, app).None? || PidOf(s, app) == Some(0) ==> r.1 == s)
      && (PidOf(s, app).Some? && PidOf(s, app).value != 0 ==>
            var pid := PidOf(s, app).value;
            FallbackSignals(r.1.signals[|s.signals|..], pid)
            && |r.1.signals| > |s.signals|
            && (Sent(pid, SIGKILL) in r.1.signals[|s.signals|..] <==> pid in s.ignoresTerm)
            && pid !in r.1.live)
  {
    var r := StopByPid(s, app);
    match PidOf(s, app)
    case None =>
    case Some(pid) =>
      if pid != 0 {
        var (_, s1) := Kill(s, pid, SIGTERM);
        var s2 := Wait(s1);
        assert s2.pidFiles == s.pidFiles;
        assert Running(s2, app) <==> pid in s.ignoresTerm;
        if Running(s2, app) {
          assert r.1.signals[|s.signals|..] == [Sent(pid, SIGTERM), Sent(pid, SIGKILL)];
        } else {
          assert r.1.signals[|s.signals|..] == [Sent(pid, SIGTERM)];
        }
      }
  }

  /** With no shutdown script the stop touches no PID file: a stale file is
      never deleted. */
  lemma StopKeepsPidFiles(s: HostState, sc: Scripts, app: string)
    requires s.terminating == {}
    requires ShutdownScript(sc, app).None?
    ensures Stop(s, sc, app).1.pidFiles == s.pidFiles
    ensures Stop(s, sc, app).0
  {
    StopByPidSignals(s, app);
  }

  lemma StopByPidSettles(s: HostState, app: string)
    requires s.terminating == {}
    ensures StopByPid(s, app).1.terminating == {}
  {
  }

  lemma WaitSettled(s: HostState)
    requires s.terminating == {}
    ensures Wait(s) == s
  {
    assert s.live - (s.terminating - s.ignoresTerm) == s.live;
  }

  /** A stop leaves no SIGTERM pending: the fallback always waits after it. */
  lemma StopSettles(s: HostState, sc: Scripts, app: string)
    requires s.terminating == {}
    ensures Stop(s, sc, app).1.terminating == {}
    ensures Wait(Stop(s, sc, app).1) == Stop(s, sc, app).1
  {
    if Running(s, app) {
      match ShutdownScript(sc, app)
      case None => StopByPidSettles(s, app);
      case Some(script) =>
        var (_, s1) := RunScript(s, sc, script, app);
        StopByPidSettles(s1, app);
    }
    WaitSettled(Stop(s, sc, app).1);
  }

  // --------------------------------------------------------------- restart

  /** A restart whose stop leaves the app running (a shutdown script that
      exits without stopping it) reports success without starting anything. */
  lemma RestartWhileStillRunning(s: HostState, sc: Scripts, app: string)
    requires s.terminating == {}
    requires Running(Stop(s, sc, app).1, app)
    ensures Restart(s, sc, app) == (true, Stop(s, sc, app).1)
  {
    StopSettles(s, sc, app);
  }

  /** Once the stop has left the app down, a restart succeeds exactly when a
      startup script exists and exits 0. */
  lemma RestartAfterStop(s: HostState, sc: Scripts, app: string)
    requires s.terminating == {}
    requires !Running(Stop(s, sc, app).1, app)
    ensures Restart(s, sc, app).0 <==>
              FindScript(sc.startup, app).Some? && sc.runOf(FindScript(sc.startup, app).value).outcome == Exited(0)
  {
    StopSettles(s, sc, app);
  }
}
