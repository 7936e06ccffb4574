/**
 * The log viewer of the management web app: which file a log source names,
 * how its lines are read, filtered by a search term and cut to the last N,
 * and how the list of sources is put together.
 */
module Logs {
  import opened Wrappers
  import opened Strings

  const AppLogDir := "/var/log/app"

  /** The most lines the log endpoints hand out. */
  const MaxLines := 1000

  // ------------------------------------------------------------- the sources

  /** Python's `os.path.join(dir, part)` for a `dir` without a trailing '/':
      an absolute `part` replaces the directory. */
  function JoinPath(dir: string, part: string): string {
    if StartsWith(part, "/") then part else dir + "/" + part
  }

  /** The display name of the log of app `app`. */
  function AppLogName(app: string): string {
    if app == "app-manager" then "App Manager Log" else Title(ReplaceChar(app, '-', ' ')) + " Log"
  }

  /** A static source: its id, display name, file (none for the kernel
      ring buffer) and description, in the order they are configured. */
  datatype StaticSource = StaticSource(id: string, name: string, path: Option<string>, description: string)

  const StaticSources: seq<StaticSource> := [
    StaticSource("dmesg", "Kernel Messages", None, "Kernel ring buffer"),
    StaticSource("auth", "Authentication Log", Some("/var/log/system-mgmt-auth.log"), "WebUI login attempts"),
    StaticSource("sysmgmt", "System Mgmt Log", Some("/var/log/system-mgmt.log"), "System management service log")
  ]

  /** The file and display name a source id resolves to. */
  datatype Source = Source(path: Option<string>, name: string)

  /** The configured static source with id `id`, if any. */
  function StaticById(id: string): (r: Option<StaticSource>)
    ensures r.Some? <==> exists k :: 0 <= k < |StaticSources| && StaticSources[k].id == id
    ensures r.Some? ==> r.value in StaticSources && r.value.id == id
  {
    if id == "dmesg" then Some(StaticSources[0])
    else if id == "auth" then Some(StaticSources[1])
    else if id == "sysmgmt" then Some(StaticSources[2])
    else None
  }

  /**
   * The source `read_log_file` resolves: `app:<name>` is the file
   * `<name>.log` joined to the app log directory, with the special name of
   * the supervisor's own log; a static id is its configured file and name;
   * anything else is unknown.
   */
  function ResolveSource(id: string): (r: Option<Source>)
    ensures StartsWith(id, "app:") ==> r.Some? && r.value.path == Some(JoinPath(AppLogDir, id[4..] + ".log"))
                                       && r.value.name == AppLogName(id[4..])
    ensures !StartsWith(id, "app:") ==> (r.Some? <==> StaticById(id).Some?)
    ensures !StartsWith(id, "app:") && r.Some? ==> r.value == Source(StaticById(id).value.path, StaticById(id).value.name)
  {
    if StartsWith(id, "app:") then
      var app := id[4..];
      Some(Source(Some(JoinPath(AppLogDir, app + ".log")), AppLogName(app)))
    else match StaticById(id)
      case None => None
      case Some(c) => Some(Source(c.path, c.name))
  }

  lemma SlashFirst(s: string)
    ensures StartsWith(s, "/") <==> |s| > 0 && s[0] == '/'
  {
    if |s| > 0 && s[0] == '/' {
      assert s[..1] == "/";
    }
  }

  /** An app named without a leading '/' has its log in the app log
      directory; an absolute name escapes it. */
  lemma AppSourcePath(app: string)
    ensures !StartsWith(app, "/") ==> ResolveSource("app:" + app).value.path == Some(AppLogDir + "/" + app + ".log")
    ensures StartsWith(app, "/") ==> ResolveSource("app:" + app).value.path == Some(app + ".log")
  {
    assert ("app:" + app)[4..] == app;
    SlashFirst(app);
    SlashFirst(app + ".log");
    if app != [] {
      assert (app + ".log")[0] == app[0];
    }
    assert AppLogDir + "/" + (app + ".log") == AppLogDir + "/" + app + ".log";
  }

  /** The supervisor's log keeps its special name. */
  lemma SupervisorLogName()
    ensures ResolveSource("app:app-manager").value.name == "App Manager Log"
  {
    assert "app:app-manager"[4..] == "app-manager";
  }

  // --------------------------------------------------------------- the lines

  /** What opening and reading a log file gives: `readlines()` output, or
      the error that stops it. */
  datatype FileRead = FileMissing | FileDenied | FileFailed(message: string) | FileLines(lines: seq<string>)

  /** A run of `dmesg`: its exit code and output, a timeout, or a run that
      could not start, with the error the handler reports for it
      ("Permission denied" for a `PermissionError`, the exception's text
      for any other). */
  datatype CommandRun = CommandExit(code: int, stdout: string) | CommandTimeout | CommandFailed(error: string)

  /** The kernel log's lines, or the error that ends the read. */
  datatype KernelLog = KernelLines(lines: seq<string>) | KernelError(error: string)

  /** `read_log_file`'s answer; an error always comes with no lines and a total of 0. */
  datatype LogResult =
    | LogError(error: string)
    | LogLines(lines: seq<string>, total: nat, returned: nat, source: string, sourceName: string)

  /** The lines of a command's output: stripped, then split at newlines. */
  function OutputLines(stdout: string): (r: seq<string>)
    ensures |r| >= 1
    ensures Join(r, '\n') == Strip(stdout)
  {
    JoinSplit(Strip(stdout), '\n');
    Split(Strip(stdout), '\n')
  }

  /** Empty command output still counts as one (empty) line. */
  lemma EmptyOutputIsOneLine(stdout: string)
    requires forall k :: 0 <= k < |stdout| ==> IsSpace(stdout[k])
    ensures OutputLines(stdout) == [""]
  {
    assert Strip(stdout) == [];
  }

  /** The kernel log lines: `dmesg -T`, and plain `dmesg` when that exits
      with an error; no lines when both exit with an error. A timeout of
      either run ends the read with "Timeout reading log", a run that cannot
      start with its error. */
  function DmesgLines(withTime: CommandRun, plain: CommandRun): (r: KernelLog)
    ensures withTime.CommandTimeout? ==> r == KernelError("Timeout reading log")
    ensures withTime.CommandFailed? ==> r == KernelError(withTime.error)
    ensures withTime.CommandExit? && withTime.code == 0 ==> r == KernelLines(OutputLines(withTime.stdout))
    ensures withTime.CommandExit? && withTime.code != 0 ==>
      && (plain.CommandTimeout? ==> r == KernelError("Timeout reading log"))
      && (plain.CommandFailed? ==> r == KernelError(plain.error))
      && (plain.CommandExit? && plain.code == 0 ==> r == KernelLines(OutputLines(plain.stdout)))
      && (plain.CommandExit? && plain.code != 0 ==> r == KernelLines([]))
    ensures r.KernelLines? ==> withTime.CommandExit? && (withTime.code == 0 || plain.CommandExit?)
  {
    match withTime
    case CommandTimeout => KernelError("Timeout reading log")
    case CommandFailed(error) => KernelError(error)
    case CommandExit(code, out) =>
      if code == 0 then KernelLines(OutputLines(out))
      else match plain
        case CommandTimeout => KernelError("Timeout reading log")
        case CommandFailed(error2) => KernelError(error2)
        case CommandExit(code2, out2) => KernelLines(if code2 == 0 then OutputLines(out2) else [])
  }

  /** `readlines()` with each line's trailing newlines removed. */
  function TrimLines(lines: seq<string>): (r: seq<string>)
    ensures |r| == |lines|
    ensures forall k :: 0 <= k < |lines| ==> r[k] == TrimEnd(lines[k], '\n')
  {
    seq(|lines|, k requires 0 <= k < |lines| => TrimEnd(lines[k], '\n'))
  }

  /** A line matches a search term when the lower-cased term occurs in the lower-cased line. */
  predicate Matches(line: string, term: string) {
    Contains(Lower(line), Lower(term))
  }

  /** The lines matching `term`, in their order. */
  function Matching(lines: seq<string>, term: string): (r: seq<string>)
    ensures |r| <= |lines|
    ensures forall x :: x in r <==> x in lines && Matches(x, term)
  {
    if lines == [] then []
    else
      var rest := Matching(lines[1..], term);
      assert forall x :: x in lines <==> x == lines[0] || x in lines[1..];
      if Matches(lines[0], term) then [lines[0]] + rest else rest
  }

  /** Filtering keeps the order of the log: filtering two stretches of it is
      filtering each in turn. */
  lemma {:induction false} MatchingAppend(a: seq<string>, b: seq<string>, term: string)
    ensures Matching(a + b, term) == Matching(a, term) + Matching(b, term)
  {
    if a != [] {
      var ab := a + b;
      assert ab != [] && ab[0] == a[0] && ab[1..] == a[1..] + b;
      MatchingAppend(a[1..], b, term);
      if Matches(a[0], term) {
        assert Matching(ab, term) == [a[0]] + Matching(a[1..] + b, term);
        assert Matching(a, term) == [a[0]] + Matching(a[1..], term);
      } else {
        assert Matching(ab, term) == Matching(a[1..] + b, term);
        assert Matching(a, term) == Matching(a[1..], term);
      }
    } else {
      assert a + b == b;
    }
  }

  /** The search filter: none for a missing or empty term. */
  function Filter(lines: seq<string>, search: Option<string>): (r: seq<string>)
    ensures |r| <= |lines|
    ensures search.None? || search.value == "" ==> r == lines
    ensures search.Some? && search.value != "" ==> forall x :: x in r <==> x in lines && Matches(x, search.value)
  {
    if search.None? || search.value == "" then lines else Matching(lines, search.value)
  }

  /** The last `n` lines when `n` is positive and there are more; otherwise all. */
  function Tail(lines: seq<string>, n: int): (r: seq<string>)
    ensures |r| <= |lines| && r == lines[|lines| - |r|..]
    ensures n > 0 ==> |r| == if |lines| > n then n else |lines|
    ensures n <= 0 ==> r == lines
  {
    if n > 0 && |lines| > n then lines[|lines| - n..] else lines
  }

  /** Filter, count and cut: the kept lines and the number of matches. */
  function FilterTail(lines: seq<string>, search: Option<string>, n: int): (r: (seq<string>, nat))
    ensures r.1 == |Filter(lines, search)|
    ensures r.0 == Tail(Filter(lines, search), n)
  {
    var kept := Filter(lines, search);
    (Tail(kept, n), |kept|)
  }

  /** The result for a source's lines. */
  function Report(lines: seq<string>, search: Option<string>, n: int, id: string, name: string): (r: LogResult)
    ensures r.LogLines? && r.returned == |r.lines| && r.total >= r.returned
    ensures r.total == |Filter(lines, search)| && r.lines == Tail(Filter(lines, search), n)
    ensures n > 0 ==> r.returned == (if r.total > n then n else r.total)
    ensures n <= 0 ==> r.returned == r.total
  {
    var (kept, total) := FilterTail(lines, search, n);
    LogLines(kept, total, |kept|, id, name)
  }

  /** Reading the file `path` of source `id`, named `name`. */
  function ReadFile(path: string, id: string, name: string, n: int, search: Option<string>,
                    files: string -> FileRead): (r: LogResult)
    ensures path == "" || files(path).FileMissing? ==> r == LogError("Log file not found: " + path)
    ensures path != "" && files(path).FileDenied? ==> r == LogError("Permission denied")
    ensures path != "" && files(path).FileFailed? ==> r == LogError(files(path).message)
    ensures path != "" && files(path).FileLines? ==> r == Report(TrimLines(files(path).lines), search, n, id, name)
  {
    if path == "" then LogError("Log file not found: " + path)
    else match files(path)
      case FileMissing => LogError("Log file not found: " + path)
      case FileDenied => LogError("Permission denied")
      case FileFailed(message) => LogError(message)
      case FileLines(raw) => Report(TrimLines(raw), search, n, id, name)
  }

  /** Reading the kernel log, as source `id` named `name`. */
  function ReadKernel(id: string, name: string, n: int, search: Option<string>,
                      dmesgT: CommandRun, dmesgPlain: CommandRun): (r: LogResult)
    ensures DmesgLines(dmesgT, dmesgPlain).KernelError? ==> r == LogError(DmesgLines(dmesgT, dmesgPlain).error)
    ensures DmesgLines(dmesgT, dmesgPlain).KernelLines? ==>
              r == Report(DmesgLines(dmesgT, dmesgPlain).lines, search, n, id, name)
  {
    match DmesgLines(dmesgT, dmesgPlain)
    case KernelError(error) => LogError(error)
    case KernelLines(lines) => Report(lines, search, n, id, name)
  }

  /**
   * `read_log_file(id, n, search)`: the file of each path is given by
   * `files`, the kernel log by the two `dmesg` runs.
   */
  function ReadLog(id: string, n: int, search: Option<string>, files: string -> FileRead,
                   dmesgT: CommandRun, dmesgPlain: CommandRun): (r: LogResult)
    ensures ResolveSource(id).None? ==> r == LogError("Unknown log source: " + id)
    ensures ResolveSource(id).Some? && id == "dmesg" ==>
              r == ReadKernel(id, ResolveSource(id).value.name, n, search, dmesgT, dmesgPlain)
    ensures ResolveSource(id).Some? && id != "dmesg" ==>
              r == ReadFile(ResolveSource(id).value.path.GetOr(""), id, ResolveSource(id).value.name, n, search, files)
    ensures r.LogLines? ==> r.source == id && r.sourceName == ResolveSource(id).value.name
                            && r.returned == |r.lines| && r.total >= r.returned
    ensures r.LogLines? && n > 0 ==> r.returned == (if r.total > n then n else r.total)
    ensures r.LogLines? && n <= 0 ==> r.returned == r.total
  {
    match ResolveSource(id)
    case None => LogError("Unknown log source: " + id)
    case Some(src) =>
      if id == "dmesg" then ReadKernel(id, src.name, n, search, dmesgT, dmesgPlain)
      else ReadFile(src.path.GetOr(""), id, src.name, n, search, files)
  }

  /** `/api/logs/<id>`: the requested count capped at 1000, then `read_log_file`. */
  function ApiLogContent(id: string, n: int, search: Option<string>, files: string -> FileRead,
                         dmesgT: CommandRun, dmesgPlain: CommandRun): (r: LogResult)
    ensures ResolveSource(id).None? ==> r == LogError("Unknown log source: " + id)
    ensures r.LogLines? ==> r.source == id && r.returned == |r.lines| <= r.total
    ensures r.LogLines? && n > 0 ==> r.returned <= n && r.returned <= MaxLines
    ensures r.LogLines? && n <= 0 ==> r.returned == r.total
  {
    ReadLog(id, if n < MaxLines then n else MaxLines, search, files, dmesgT, dmesgPlain)
  }

  /** `api_app_logs`'s answer. */
  datatype AppLogResult =
    | AppLogError(error: string)
    | AppLogLines(lines: seq<string>, total: nat, returned: nat, app: string)

  /** `/api/apps/<app>/logs`: the app's log file, filtered and cut like any other log. */
  function AppLogs(app: string, n: int, search: Option<string>, files: string -> FileRead): (r: AppLogResult)
    ensures r.AppLogLines? ==> r.app == app && r.returned == |r.lines| && r.total >= r.returned
    ensures var path := AppLogDir + "/" + app + ".log";
      && (files(path).FileMissing? ==> r == AppLogError("Log file not found: " + path))
      && (files(path).FileDenied? ==> r == AppLogError("Permission denied"))
      && (files(path).FileFailed? ==> r == AppLogError(files(path).message))
      && (files(path).FileLines? ==>
            var kept := Filter(TrimLines(files(path).lines), search);
            && r.AppLogLines?
            && r.total == |kept|
            && r.lines == Tail(kept, if n < MaxLines then n else MaxLines))
  {
    var path := AppLogDir + "/" + app + ".log";
    match files(path)
    case FileMissing => AppLogError("Log file not found: " + path)
    case FileDenied => AppLogError("Permission denied")
    case FileFailed(message) => AppLogError(message)
    case FileLines(raw) =>
      var (kept, total) := FilterTail(TrimLines(raw), search, if n < MaxLines then n else MaxLines);
      AppLogLines(kept, total, |kept|, app)
  }

  /**
   * The two log endpoints agree on an app's log: the same lines, total and
   * count whether it is asked for as `/api/apps/<app>/logs` or as the source
   * `app:<app>`.
   */
  lemma AppLogsAgree(app: string, n: int, search: Option<string>, files: string -> FileRead,
                     dmesgT: CommandRun, dmesgPlain: CommandRun)
    requires !StartsWith(app, "/")
    ensures var viaApp := AppLogs(app, n, search, files);
      var viaSource := ApiLogContent("app:" + app, n, search, files, dmesgT, dmesgPlain);
      (viaApp.AppLogLines? <==> viaSource.LogLines?)
      && (viaApp.AppLogLines? ==>
            viaApp.lines == viaSource.lines && viaApp.total == viaSource.total && viaApp.returned == viaSource.returned)
      && (viaApp.AppLogError? ==> viaSource == LogError(viaApp.error))
  {
    AppSourcePath(app);
    assert "app:" + app != "dmesg" by {
      assert ("app:" + app)[0] == 'a';
    }
  }

  /**
   * What the log endpoint returns: the matching lines, all of them counted in
   * the total, the last N kept in order; never more than 1000 for a positive
   * count, while a count of 0 or less returns every match.
   */
  lemma ApiLogBounds(id: string, n: int, search: Option<string>, files: string -> FileRead,
                     dmesgT: CommandRun, dmesgPlain: CommandRun)
    ensures var r := ApiLogContent(id, n, search, files, dmesgT, dmesgPlain);
      r.LogLines? ==>
        && r.returned == |r.lines| <= r.total
        && (n > 0 ==> r.returned <= n && r.returned <= MaxLines
                      && r.returned == (if r.total < n && r.total < MaxLines then r.total
                                        else if n < MaxLines then n else MaxLines))
        && (n <= 0 ==> r.returned == r.total)
  {
  }

  /** A search keeps exactly the lines that contain the term, ignoring case. */
  lemma SearchKeepsMatches(lines: seq<string>, term: string, n: int, x: string)
    requires term != ""
    ensures x in Filter(lines, Some(term)) <==> x in lines && Contains(Lower(x), Lower(term))
    ensures n <= 0 ==> FilterTail(lines, Some(term), n).0 == Matching(lines, term)
  {
  }

  // ----------------------------------------------------------- source list

  /** An entry of the source list. */
  datatype SourceEntry = SourceEntry(id: string, name: string, description: string, available: bool)

  /** The static sources, each available when its file exists (the kernel log always). */
  function StaticEntries(exists_: string -> bool): (r: seq<SourceEntry>)
    ensures |r| == |StaticSources|
    ensures forall k :: 0 <= k < |r| ==> r[k].id == StaticSources[k].id && r[k].name == StaticSources[k].name
                                         && r[k].description == StaticSources[k].description
    ensures forall k :: 0 <= k < |r| ==>
              r[k].available == (StaticSources[k].path.None? || exists_(StaticSources[k].path.value))
  {
    seq(|StaticSources|, k requires 0 <= k < |StaticSources| =>
      var c := StaticSources[k];
      SourceEntry(c.id, c.name, c.description, c.path.None? || exists_(c.path.value)))
  }

  /** The `.log` files of a directory listing, in listing order. */
  function LogFiles(listing: seq<string>): (r: seq<string>)
    ensures |r| <= |listing|
    ensures forall f :: f in r <==> f in listing && EndsWith(f, ".log")
    ensures forall k :: 0 <= k < |r| ==> EndsWith(r[k], ".log")
  {
    if listing == [] then []
    else
      assert forall f :: f in listing <==> f == listing[0] || f in listing[1..];
      (if EndsWith(listing[0], ".log") then [listing[0]] else []) + LogFiles(listing[1..])
  }

  /** Selecting the `.log` files keeps the listing's order: selecting from two
      stretches of a listing is selecting from each in turn. */
  lemma {:induction false} LogFilesAppend(a: seq<string>, b: seq<string>)
    ensures LogFiles(a + b) == LogFiles(a) + LogFiles(b)
  {
    if a != [] {
      var ab := a + b;
      assert ab[0] == a[0] && ab[1..] == a[1..] + b;
      LogFilesAppend(a[1..], b);
    } else {
      assert a + b == b;
    }
  }

  /** The description of the log of app `app`. */
  function AppLogDescription(app: string): string {
    if app == "app-manager" then "Application manager service log" else "Application log for " + app
  }

  /** The source entry of the log file `f`, named `<app>.log`. */
  function AppEntryFor(f: string): (e: SourceEntry)
    requires EndsWith(f, ".log")
    ensures e.id == "app:" + f[..|f| - 4] && StartsWith(e.id, "app:") && e.available
    ensures e.name == AppLogName(f[..|f| - 4]) && e.description == AppLogDescription(f[..|f| - 4])
  {
    assert ("app:" + f[..|f| - 4])[..4] == "app:";
    var app := f[..|f| - 4];
    SourceEntry("app:" + app, AppLogName(app), AppLogDescription(app), true)
  }

  /** The app log sources for a (sorted) directory listing: one per `.log`
      file, in listing order, with id `app:<file without .log>`, that app's
      log name and description, and always available. */
  function AppEntries(listing: seq<string>): (r: seq<SourceEntry>)
    ensures |r| == |LogFiles(listing)| <= |listing|
    ensures forall k :: 0 <= k < |r| ==> r[k] == AppEntryFor(LogFiles(listing)[k])
    ensures forall k :: 0 <= k < |r| ==> r[k].available && StartsWith(r[k].id, "app:")
  {
    if listing == [] then []
    else
      var f := listing[0];
      var rest := AppEntries(listing[1..]);
      var files := LogFiles(listing);
      if EndsWith(f, ".log") then
        var tail := LogFiles(listing[1..]);
        var r := [AppEntryFor(f)] + rest;
        assert files == [f] + tail;
        assert forall k :: 0 <= k < |r| ==> r[k] == AppEntryFor(files[k]) by {
          forall k | 0 <= k < |r|
            ensures r[k] == AppEntryFor(files[k])
          {
            if k > 0 {
              assert r[k] == rest[k - 1] && files[k] == tail[k - 1];
            }
          }
        }
        r
      else
        assert files == LogFiles(listing[1..]);
        rest
  }

  /** `get_log_sources`: the static sources, then the app logs when the app log directory exists. */
  function LogSources(exists_: string -> bool, appDirExists: bool, listing: seq<string>): (r: seq<SourceEntry>)
    ensures |r| == |StaticSources| + (if appDirExists then |LogFiles(listing)| else 0)
    ensures r[..|StaticSources|] == StaticEntries(exists_)
    ensures appDirExists ==> r[|StaticSources|..] == AppEntries(listing)
  {
    StaticEntries(exists_) + (if appDirExists then AppEntries(listing) else [])
  }

  /** Each static source resolves to its configured file and name. */
  lemma StaticResolves(k: nat)
    requires k < |StaticSources|
    ensures ResolveSource(StaticSources[k].id) == Some(Source(StaticSources[k].path, StaticSources[k].name))
  {
    var id := StaticSources[k].id;
    assert id[0] != 'a' || id[1] != 'p';
    assert !StartsWith(id, "app:");
  }

  /** Each app source can be read back by its id, under the same name. */
  lemma {:induction false} AppEntriesResolve(listing: seq<string>, k: nat)
    requires k < |AppEntries(listing)|
    ensures var e := AppEntries(listing)[k];
      ResolveSource(e.id).Some? && ResolveSource(e.id).value.name == e.name
  {
    var f := listing[0];
    if EndsWith(f, ".log") && k == 0 {
      var app := f[..|f| - 4];
      assert ("app:" + app)[..4] == "app:";
      assert ("app:" + app)[4..] == app;
    } else if EndsWith(f, ".log") {
      AppEntriesResolve(listing[1..], k - 1);
    } else {
      AppEntriesResolve(listing[1..], k);
    }
  }

  /** Every listed source can be read back by its id, under the same name. */
  lemma ListedSourcesResolve(exists_: string -> bool, appDirExists: bool, listing: seq<string>, k: nat)
    requires k < |LogSources(exists_, appDirExists, listing)|
    ensures var e := LogSources(exists_, appDirExists, listing)[k];
      ResolveSource(e.id).Some? && ResolveSource(e.id).value.name == e.name
  {
    var st := StaticEntries(exists_);
    if k < |st| {
      assert LogSources(exists_, appDirExists, listing)[k] == st[k];
      StaticResolves(k);
    } else {
      assert LogSources(exists_, appDirExists, listing)[k] == AppEntries(listing)[k - |st|];
      AppEntriesResolve(listing, k - |st|);
    }
  }
}
