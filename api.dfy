/**
 * The supervisor's socket API up to the point of dispatch: the request line
 * cut from the received bytes, and the GET/POST path routing of the handler.
 */
module Api {
  import opened Wrappers
  import opened Strings

  datatype Request = Request(command: string, path: string)

  /** The first line of the request: the text before the first CRLF, or all
      of `data` when it holds none. */
  function FirstLine(data: string): (line: string)
    ensures line <= data
    ensures !Contains(line, "\r\n")
    ensures Contains(data, "\r\n") ==> |line| + 2 <= |data| && data[|line|..|line| + 2] == "\r\n"
    ensures !Contains(data, "\r\n") ==> line == data
  {
    match IndexOf(data, "\r\n")
    case None => data
    case Some(i) =>
      assert forall j: nat :: OccursAt(data[..i], "\r\n", j) ==> OccursAt(data, "\r\n", j);
      data[..i]
  }

  /** The request line split at single spaces: a request exists when there
      are at least two parts, the command and the path. */
  function ParseRequestLine(data: string): (r: Option<Request>)
    ensures r.Some? ==> ' ' !in r.value.command && ' ' !in r.value.path
  {
    var parts := Split(FirstLine(data), ' ');
    SplitPiecesFree(FirstLine(data), ' ');
    if |parts| >= 2 then Some(Request(parts[0], parts[1])) else None
  }

  lemma IndexOfFirst(s: string, sub: string, i: nat)
    requires OccursAt(s, sub, i)
    requires forall j: nat :: j < i ==> !OccursAt(s, sub, j)
    ensures IndexOf(s, sub) == Some(i)
  {
  }

  /** The first line of a request is everything before its first CRLF; a
      lone '\r' in the line, even its last character, does not end it. */
  lemma FirstLineBeforeCrlf(line: string, rest: string)
    requires !Contains(line, "\r\n")
    ensures FirstLine(line + "\r\n" + rest) == line
  {
    var data := line + "\r\n" + rest;
    assert OccursAt(data, "\r\n", |line|) by {
      assert data[|line|..|line| + 2] == "\r\n";
    }
    forall j: nat | j < |line| ensures !OccursAt(data, "\r\n", j) {
      if j + 1 < |line| {
        assert data[j..j + 2] == line[j..j + 2];
        assert !OccursAt(line, "\r\n", j);
      } else {
        assert data[j + 1] == '\r';
      }
    }
    IndexOfFirst(data, "\r\n", |line|);
  }

  lemma NoCrNoCrlf(s: string)
    requires '\r' !in s
    ensures !Contains(s, "\r\n")
  {
    forall j: nat ensures !OccursAt(s, "\r\n", j) {
      if j + 2 <= |s| {
        assert s[j..j + 2][0] == s[j];
      }
    }
    assert IndexOf(s, "\r\n").None?;
  }

  lemma SplitAtSpace(word: string, rest: string)
    requires ' ' !in word
    ensures Split(word + " " + rest, ' ') == [word] + Split(rest, ' ')
  {
    assert word + " " + rest == word + [' '] + rest;
    SplitCons(word, ' ', rest);
  }

  lemma SplitVersion()
    ensures Split("HTTP/1.1", ' ') == ["HTTP/1.1"]
  {
    SplitNoSep("HTTP/1.1", ' ');
  }

  lemma SplitPathVersion(path: string)
    requires ' ' !in path
    ensures Split(path + " HTTP/1.1", ' ') == [path, "HTTP/1.1"]
  {
    SplitAtSpace(path, "HTTP/1.1");
    SplitVersion();
    assert path + " HTTP/1.1" == path + " " + "HTTP/1.1";
  }

  lemma SplitRequestLine(command: string, path: string)
    requires ' ' !in command && ' ' !in path
    ensures Split(command + " " + path + " HTTP/1.1", ' ') == [command, path, "HTTP/1.1"]
  {
    SplitPathVersion(path);
    SplitAtSpace(command, path + " HTTP/1.1");
    assert command + " " + path + " HTTP/1.1" == command + " " + (path + " HTTP/1.1");
  }

  /**
   * The request line the management web app writes on the socket,
   * `<method> <path> HTTP/1.1` then CRLF and the headers, parses back to its
   * method and path, whatever the headers are.
   */
  lemma RequestLineRoundTrip(command: string, path: string, headers: string)
    requires ' ' !in command && ' ' !in path && '\r' !in command && '\r' !in path
    ensures ParseRequestLine(command + " " + path + " HTTP/1.1\r\n" + headers) == Some(Request(command, path))
  {
    var line := command + " " + path + " HTTP/1.1";
    assert command + " " + path + " HTTP/1.1\r\n" + headers == line + "\r\n" + headers;
    assert '\r' !in line;
    NoCrNoCrlf(line);
    FirstLineBeforeCrlf(line, headers);
    SplitRequestLine(command, path);
  }

  /** What the handler does with a request. `Fails` is a request whose path
      has too few '/'-separated parts (an `IndexError`, so no reply);
      `Ignored` a command other than GET and POST. */
  datatype Action =
    | ListApps
    | AppHealth(name: string)
    | AppStatusOf(name: string)
    | StartOf(name: string)
    | StopOf(name: string)
    | RestartOf(name: string)
    | NotFound
    | Fails
    | Ignored

  /** The path of a GET, without its query string. */
  function GetPath(target: string): string {
    Split(target, '?')[0]
  }

  lemma {:induction false} SplitAppsPath(rest: string)
    ensures Split("/apps/" + rest, '/') == ["", "apps"] + Split(rest, '/')
  {
    SplitCons("", '/', "apps/" + rest);
    SplitCons("apps", '/', rest);
    assert "/apps/" + rest == "" + ['/'] + ("apps/" + rest);
    assert "apps/" + rest == "apps" + ['/'] + rest;
  }

  /** A path under "/apps/" has at least three '/'-separated parts. */
  lemma AppsPathParts(path: string)
    requires StartsWith(path, "/apps/")
    ensures |Split(path, '/')| >= 3 && Split(path, '/')[1] == "apps"
  {
    var rest := path[6..];
    assert path == "/apps/" + rest;
    SplitAppsPath(rest);
  }

  // ------------------------------------------------------- routing as written

  /** `do_GET` as written: "/health" anywhere in the path selects the health check. */
  function RouteGet(target: string): (r: Action)
    ensures r == ListApps <==> GetPath(target) == "/apps"
    ensures r == NotFound <==> GetPath(target) != "/apps" && !StartsWith(GetPath(target), "/apps/")
    ensures r.AppHealth? <==> StartsWith(GetPath(target), "/apps/") && Contains(GetPath(target), "/health")
    ensures r.AppStatusOf? <==> StartsWith(GetPath(target), "/apps/") && !Contains(GetPath(target), "/health")
    ensures r.AppHealth? || r.AppStatusOf? ==>
              |Split(GetPath(target), '/')| >= 3 && r.name == Split(GetPath(target), '/')[2]
  {
    var path := GetPath(target);
    if path == "/apps" then ListApps
    else if StartsWith(path, "/apps/") then
      AppsPathParts(path);
      var name := Split(path, '/')[2];
      if Contains(path, "/health") then AppHealth(name) else AppStatusOf(name)
    else NotFound
  }

  /** `do_POST` as written: the first of "/start", "/stop", "/restart" found
      anywhere in the path selects the action on its third part. */
  function RoutePost(path: string): (r: Action)
    ensures r == NotFound <==> !Contains(path, "/start") && !Contains(path, "/stop") && !Contains(path, "/restart")
    ensures r == Fails <==> r != NotFound && |Split(path, '/')| < 3
    ensures r.StartOf? <==> Contains(path, "/start") && |Split(path, '/')| >= 3
    ensures r.StopOf? <==> !Contains(path, "/start") && Contains(path, "/stop") && |Split(path, '/')| >= 3
    ensures r.StartOf? || r.StopOf? || r.RestartOf? ==> r.name == Split(path, '/')[2]
    ensures !(r.ListApps? || r.AppHealth? || r.AppStatusOf? || r.Ignored?)
  {
    var parts := Split(path, '/');
    if Contains(path, "/start") then (if |parts| >= 3 then StartOf(parts[2]) else Fails)
    else if Contains(path, "/stop") then (if |parts| >= 3 then StopOf(parts[2]) else Fails)
    else if Contains(path, "/restart") then (if |parts| >= 3 then RestartOf(parts[2]) else Fails)
    else NotFound
  }

  function Route(r: Request): (a: Action)
    ensures a == Ignored <==> r.command != "GET" && r.command != "POST"
    ensures r.command == "GET" ==> a.ListApps? || a.AppHealth? || a.AppStatusOf? || a.NotFound?
    ensures r.command == "POST" ==> a.StartOf? || a.StopOf? || a.RestartOf? || a.NotFound? || a.Fails?
  {
    if r.command == "GET" then RouteGet(r.path)
    else if r.command == "POST" then RoutePost(r.path)
    else Ignored
  }

  /** As written, a GET of the status of an app whose name begins with
      "health" (say "healthd") is answered with its health check instead. */
  lemma GetAsWrittenMisroutes(name: string)
    requires PlainName(name) && StartsWith(name, "health")
    ensures Route(Request("GET", "/apps/" + name)) == AppHealth(name)
  {
    var path := "/apps/" + name;
    SplitNoSep(path, '?');
    SplitAppsPath(name);
    SplitNoSep(name, '/');
    assert path[..6] == "/apps/";
    assert path != "/apps" by { assert |path| >= 6; }
    assert path[5..5 + |"/health"|] == "/health" by {
      assert path[5..12] == ['/'] + name[..6];
    }
    ContainsAt(path, "/health", 5);
  }

  /** As written, a POST that stops an app whose name begins with "start"
      (say "starter") starts it instead. */
  lemma PostAsWrittenMisroutes(name: string)
    requires PlainName(name) && StartsWith(name, "start")
    ensures Route(Request("POST", "/apps/" + name + "/stop")) == StartOf(name)
  {
    var path := "/apps/" + name + "/stop";
    ActionPath(name, "stop");
    assert path == "/apps/" + name + "/" + "stop";
    assert "POST" != "GET";
    assert path[5..5 + |"/start"|] == "/start" by {
      assert path[5..11] == ['/'] + name[..5];
    }
    ContainsAt(path, "/start", 5);
  }

  /** As written, a POST to "/apps/<name>/start" starts `name`, whatever it is called. */
  lemma PostStartByName(name: string)
    requires PlainName(name)
    ensures Route(Request("POST", "/apps/" + name + "/start")) == StartOf(name)
  {
    var path := "/apps/" + name + "/start";
    ActionPath(name, "start");
    assert path == "/apps/" + name + "/" + "start";
    assert "POST" != "GET";
    assert path[6 + |name|..12 + |name|] == "/start";
    ContainsAt(path, "/start", 6 + |name|);
  }

  /** The stop path of an app whose name does not begin with "start" holds no "/start". */
  lemma StopPathHasNoStart(name: string)
    requires PlainName(name) && !StartsWith(name, "start")
    ensures !Contains("/apps/" + name + "/stop", "/start")
  {
    var path := "/apps/" + name + "/stop";
    assert |path| == 11 + |name|;
    assert path[..6] == "/apps/";
    assert path[6..6 + |name|] == name;
    assert path[6 + |name|] == '/';
    forall j: nat
      ensures !OccursAt(path, "/start", j)
    {
      if j + 6 <= |path| {
        var w := path[j..j + 6];
        if j == 0 {
          assert w[1] == path[..6][1] == 'a';
        } else if j < 5 {
          assert w[0] == path[..6][j] == "apps"[j - 1];
        } else if j == 5 {
          if |name| >= 5 {
            assert w[1..] == path[6..6 + |name|][..5] == name[..5];
          } else {
            assert w[1 + |name|] == path[6 + |name|] == '/';
          }
        } else {
          assert w[0] == path[6..6 + |name|][j - 6] == name[j - 6];
        }
      }
    }
    assert IndexOf(path, "/start").None?;
  }

  /** As written, a POST to "/apps/<name>/stop" stops `name` unless the name
      begins with "start" (see `PostAsWrittenMisroutes` for that case). */
  lemma PostStopByName(name: string)
    requires PlainName(name) && !StartsWith(name, "start")
    ensures Route(Request("POST", "/apps/" + name + "/stop")) == StopOf(name)
  {
    var path := "/apps/" + name + "/stop";
    ActionPath(name, "stop");
    assert path == "/apps/" + name + "/" + "stop";
    assert "POST" != "GET";
    StopPathHasNoStart(name);
    assert path[6 + |name|..11 + |name|] == "/stop";
    ContainsAt(path, "/stop", 6 + |name|);
  }

  // ----------------------------------------------------- routing as intended

  /** GET routing with the action read from the part after the app name. */
  function RouteGetIntended(target: string): (r: Action)
    ensures r == ListApps <==> GetPath(target) == "/apps"
    ensures r == NotFound <==> GetPath(target) != "/apps" && !StartsWith(GetPath(target), "/apps/")
    ensures var parts := Split(GetPath(target), '/');
      r.AppHealth? <==> StartsWith(GetPath(target), "/apps/") && |parts| >= 4 && parts[3] == "health"
    ensures r.AppHealth? || r.AppStatusOf? ==>
              |Split(GetPath(target), '/')| >= 3 && r.name == Split(GetPath(target), '/')[2]
  {
    var path := GetPath(target);
    if path == "/apps" then ListApps
    else if StartsWith(path, "/apps/") then
      AppsPathParts(path);
      var parts := Split(path, '/');
      if |parts| >= 4 && parts[3] == "health" then AppHealth(parts[2]) else AppStatusOf(parts[2])
    else NotFound
  }

  /** POST routing with the action read from the part after the app name. */
  function RoutePostIntended(path: string): (r: Action)
    ensures var parts := Split(path, '/');
      r != NotFound <==> |parts| >= 4 && parts[1] == "apps" && parts[3] in ["start", "stop", "restart"]
    ensures var parts := Split(path, '/');
      && (r.StartOf? <==> |parts| >= 4 && parts[1] == "apps" && parts[3] == "start")
      && (r.StopOf? <==> |parts| >= 4 && parts[1] == "apps" && parts[3] == "stop")
      && (r.RestartOf? <==> |parts| >= 4 && parts[1] == "apps" && parts[3] == "restart")
    ensures r != NotFound ==> r.name == Split(path, '/')[2]
    ensures r.StartOf? || r.StopOf? || r.RestartOf? || r.NotFound?
  {
    var parts := Split(path, '/');
    if |parts| < 4 || parts[1] != "apps" then NotFound
    else if parts[3] == "start" then StartOf(parts[2])
    else if parts[3] == "stop" then StopOf(parts[2])
    else if parts[3] == "restart" then RestartOf(parts[2])
    else NotFound
  }

  function RouteIntended(r: Request): (a: Action)
    ensures a == Ignored <==> r.command != "GET" && r.command != "POST"
    ensures a != Fails
    ensures r.command == "GET" ==> a.ListApps? || a.AppHealth? || a.AppStatusOf? || a.NotFound?
  {
    if r.command == "GET" then RouteGetIntended(r.path)
    else if r.command == "POST" then RoutePostIntended(r.path)
    else Ignored
  }

  /** A name that is a single path part. */
  predicate PlainName(name: string) {
    '/' !in name && '?' !in name
  }

  lemma ActionPath(name: string, action: string)
    requires '/' !in name && '/' !in action
    ensures Split("/apps/" + name + "/" + action, '/') == ["", "apps", name, action]
  {
    assert "/apps/" + name + "/" + action == "/apps/" + (name + ['/'] + action);
    SplitAppsPath(name + ['/'] + action);
    SplitCons(name, '/', action);
    SplitNoSep(action, '/');
  }

  /** The intended routing answers a GET of "/apps/<name>" with the app's status
      and of "/apps/<name>/health" with its health, whatever the app is called. */
  lemma GetIntendedByName(name: string)
    requires PlainName(name)
    ensures RouteIntended(Request("GET", "/apps/" + name)) == AppStatusOf(name)
    ensures RouteIntended(Request("GET", "/apps/" + name + "/health")) == AppHealth(name)
  {
    GetStatusByName(name);
    GetHealthByName(name);
  }

  lemma GetStatusByName(name: string)
    requires PlainName(name)
    ensures RouteGetIntended("/apps/" + name) == AppStatusOf(name)
  {
    var p := "/apps/" + name;
    SplitNoSep(p, '?');
    SplitAppsPath(name);
    SplitNoSep(name, '/');
    assert p[..6] == "/apps/";
    assert p != "/apps" by { assert |p| >= 6; }
  }

  lemma GetHealthByName(name: string)
    requires PlainName(name)
    ensures RouteGetIntended("/apps/" + name + "/health") == AppHealth(name)
  {
    var p := "/apps/" + name + "/health";
    SplitNoSep(p, '?');
    ActionPath(name, "health");
    assert p == "/apps/" + name + "/" + "health";
    assert p[..6] == "/apps/";
    assert p != "/apps" by { assert |p| >= 6; }
  }

  /** The intended routing sends the POST paths the management web app builds
      to the operation they name, whatever the app is called. */
  lemma PostIntendedByName(name: string)
    requires PlainName(name)
    ensures RouteIntended(Request("POST", "/apps/" + name + "/start")) == StartOf(name)
    ensures RouteIntended(Request("POST", "/apps/" + name + "/stop")) == StopOf(name)
    ensures RouteIntended(Request("POST", "/apps/" + name + "/restart")) == RestartOf(name)
  {
    ActionPath(name, "start");
    ActionPath(name, "stop");
    ActionPath(name, "restart");
    assert "/apps/" + name + "/start" == "/apps/" + name + "/" + "start";
    assert "/apps/" + name + "/stop" == "/apps/" + name + "/" + "stop";
    assert "/apps/" + name + "/restart" == "/apps/" + name + "/" + "restart";
    assert "POST" != "GET";
  }
}
