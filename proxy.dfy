/**
 * The reverse proxy of the management web app: the app-name to port map,
 * cached for 60 seconds and loaded from the image's app manifest or, failing
 * that, from the supervisor's listing; the decision taken for a proxied
 * request; and the path forwarded to the app.
 */
module Proxy {
  import opened Wrappers
  import opened Strings

  /** How long a loaded port map is reused, in seconds. */
  const CacheTtl := 60

  type Ports = map<string, int>

  /** An element of the manifest's "apps" list as decoded JSON: an object with
      its "name" and "port" keys, each possibly absent, or anything else. A
      "port" of JSON null is written `Some(0)`: the proxy only asks whether
      the port is false, and null and 0 both are. */
  datatype ManifestEntry = Entry(name: Option<string>, port: Option<int>) | NotAnObject

  /** The manifest file as the loader finds it: absent, unreadable (not
      openable, not JSON, not an object, "apps" not a list), or its "apps"
      list (empty when the key is absent). */
  datatype ManifestRead = NoManifest | Unreadable | ManifestApps(apps: seq<ManifestEntry>)

  /** An element of the supervisor's app listing: a name and, possibly, a port. */
  datatype ListedApp = ListedApp(name: string, port: Option<int>)

  /** The answer of `GET /apps` to the supervisor: a reply carrying an "apps"
      list (the error replies carry an empty one), or a reply without one. */
  datatype Listing = ListingApps(apps: seq<ListedApp>) | NoAppsKey

  /** The cache: the map and when it was loaded. */
  datatype Cache = Cache(ports: Ports, time: int)

  /** No pair after position `i` has the same name. */
  predicate LastFor(pairs: seq<(string, int)>, i: nat)
    requires i < |pairs|
  {
    forall j :: i < j < |pairs| ==> pairs[j].0 != pairs[i].0
  }

  /** Python's dict built from name/port pairs in order. */
  function MapOf(pairs: seq<(string, int)>): Ports {
    if pairs == [] then map[]
    else MapOf(pairs[..|pairs| - 1])[pairs[|pairs| - 1].0 := pairs[|pairs| - 1].1]
  }

  /** Every name of the pairs, and nothing else, is a key of the dict. */
  lemma {:induction false} MapOfKeys(pairs: seq<(string, int)>)
    ensures forall k :: k in MapOf(pairs) <==> exists i :: 0 <= i < |pairs| && pairs[i].0 == k
  {
    if pairs != [] {
      var init := pairs[..|pairs| - 1];
      MapOfKeys(init);
      forall k | k in MapOf(pairs) ensures exists i :: 0 <= i < |pairs| && pairs[i].0 == k {
        if k != pairs[|pairs| - 1].0 {
          assert k in MapOf(init);
          var i :| 0 <= i < |init| && init[i].0 == k;
          assert pairs[i] == init[i];
        }
      }
      forall k | exists i :: 0 <= i < |pairs| && pairs[i].0 == k ensures k in MapOf(pairs) {
        var i :| 0 <= i < |pairs| && pairs[i].0 == k;
        if i < |init| {
          assert init[i] == pairs[i];
        }
      }
    }
  }

  /** A repeated name keeps the port of its last pair. */
  lemma {:induction false} MapOfLastWins(pairs: seq<(string, int)>, i: nat)
    requires i < |pairs| && LastFor(pairs, i)
    ensures pairs[i].0 in MapOf(pairs) && MapOf(pairs)[pairs[i].0] == pairs[i].1
  {
    if i < |pairs| - 1 {
      var init := pairs[..|pairs| - 1];
      assert init[i] == pairs[i];
      assert LastFor(init, i) by {
        forall j | i < j < |init| ensures init[j].0 != init[i].0 {
          assert init[j] == pairs[j];
        }
      }
      MapOfLastWins(init, i);
    }
  }

  /** Every manifest element is an object with both keys. */
  predicate WellFormed(apps: seq<ManifestEntry>) {
    forall i :: 0 <= i < |apps| ==> apps[i].Entry? && apps[i].name.Some? && apps[i].port.Some?
  }

  /** No manifest element after position `i` has the same name. */
  predicate LastNamed(apps: seq<ManifestEntry>, i: nat)
    requires i < |apps| && WellFormed(apps)
  {
    forall j :: i < j < |apps| ==> apps[j].name != apps[i].name
  }

  /** `{app['name']: app['port'] for app in apps}`: `None` when an element
      lacks a key or is not an object (the lookup raises and the loader falls
      back to the supervisor). */
  function ManifestPorts(apps: seq<ManifestEntry>): (r: Option<Ports>)
    ensures r.Some? <==> WellFormed(apps)
    ensures r.Some? ==> forall k :: k in r.value <==> exists i :: 0 <= i < |apps| && apps[i].name == Some(k)
    ensures r.Some? ==> forall i :: 0 <= i < |apps| && LastNamed(apps, i) ==> r.value[apps[i].name.value] == apps[i].port.value
  {
    if WellFormed(apps) then
      var pairs := seq(|apps|, i requires 0 <= i < |apps| => (apps[i].name.value, apps[i].port.value));
      assert forall i :: 0 <= i < |apps| ==> apps[i].name == Some(pairs[i].0);
      MapOfKeys(pairs);
      forall i | 0 <= i < |apps| && LastNamed(apps, i)
        ensures MapOf(pairs)[apps[i].name.value] == apps[i].port.value
      {
        assert LastFor(pairs, i);
        MapOfLastWins(pairs, i);
      }
      Some(MapOf(pairs))
    else None
  }

  /** No listed app after position `i` has the same name. */
  predicate LastListed(apps: seq<ListedApp>, i: nat)
    requires i < |apps|
  {
    forall j :: i < j < |apps| ==> apps[j].name != apps[i].name
  }

  /** `{app['name']: app.get('port', 0) for app in result['apps']}`: every
      listed name is a key, and its port is that of its last listing, 0 when
      that listing has none. */
  function ListedPorts(apps: seq<ListedApp>): (r: Ports)
    ensures forall k :: k in r <==> exists i :: 0 <= i < |apps| && apps[i].name == k
    ensures forall i :: 0 <= i < |apps| && LastListed(apps, i) ==> r[apps[i].name] == apps[i].port.GetOr(0)
  {
    var pairs := seq(|apps|, i requires 0 <= i < |apps| => (apps[i].name, apps[i].port.GetOr(0)));
    assert forall i :: 0 <= i < |apps| ==> apps[i].name == pairs[i].0;
    MapOfKeys(pairs);
    forall i | 0 <= i < |apps| && LastListed(apps, i)
      ensures MapOf(pairs)[apps[i].name] == apps[i].port.GetOr(0)
    {
      assert LastFor(pairs, i);
      MapOfLastWins(pairs, i);
    }
    MapOf(pairs)
  }

  /** The cache is reused when it is non-empty and younger than the TTL. */
  predicate Fresh(c: Cache, now: int) {
    |c.ports| > 0 && now - c.time < CacheTtl
  }

  /**
   * `get_app_ports` at time `now`: the map it returns and the cache after.
   * The manifest is consulted before the supervisor; a successful load is
   * stamped with `now`, and a supervisor reply without "apps" yields an empty
   * map and leaves the cache alone.
   */
  function Lookup(c: Cache, now: int, manifest: ManifestRead, listing: Listing): (r: (Ports, Cache))
    ensures Fresh(c, now) ==> r == (c.ports, c)
    ensures !Fresh(c, now) && manifest.ManifestApps? && WellFormed(manifest.apps) ==>
              Some(r.0) == ManifestPorts(manifest.apps) && r.1 == Cache(r.0, now)
    ensures !Fresh(c, now) && !(manifest.ManifestApps? && WellFormed(manifest.apps)) && listing.ListingApps? ==>
              r.0 == ListedPorts(listing.apps) && r.1 == Cache(r.0, now)
    ensures !Fresh(c, now) && !(manifest.ManifestApps? && WellFormed(manifest.apps)) && listing.NoAppsKey? ==>
              r == (map[], c)
  {
    if Fresh(c, now) then (c.ports, c)
    else
      var fromManifest := if manifest.ManifestApps? then ManifestPorts(manifest.apps) else None;
      match fromManifest
      case Some(m) => (m, Cache(m, now))
      case None =>
        match listing
        case ListingApps(apps) => (ListedPorts(apps), Cache(ListedPorts(apps), now))
        case NoAppsKey => (map[], c)
  }

  /** Within the TTL of the load that produced a non-empty map, the next
      lookup returns the same map without reading either source. */
  lemma ReusedWithinTtl(c: Cache, now: int, later: int, m1: ManifestRead, l1: Listing, m2: ManifestRead, l2: Listing)
    requires Lookup(c, now, m1, l1).0 != map[]
    requires later - Lookup(c, now, m1, l1).1.time < CacheTtl
    ensures Lookup(Lookup(c, now, m1, l1).1, later, m2, l2).0 == Lookup(c, now, m1, l1).0
  {
    var r := Lookup(c, now, m1, l1);
    assert r.1.ports == r.0;
    assert |r.0| > 0 by { assert r.0 != map[]; }
  }

  /** An empty map is never reused: whatever its age, the sources are read again. */
  lemma EmptyCacheReloads(t: int, now: int, apps: seq<ManifestEntry>, listing: Listing)
    requires WellFormed(apps)
    ensures Some(Lookup(Cache(map[], t), now, ManifestApps(apps), listing).0) == ManifestPorts(apps)
  {
  }

  /** A manifest listing an app by its bare name (a string, as the supervisor
      accepts) is not usable here: the ports come from the supervisor instead. */
  lemma StringEntryFallsBack(c: Cache, now: int, apps: seq<ManifestEntry>, i: nat, listed: seq<ListedApp>)
    requires !Fresh(c, now) && i < |apps| && apps[i] == NotAnObject
    ensures Lookup(c, now, ManifestApps(apps), ListingApps(listed)).0 == ListedPorts(listed)
  {
  }

  // ------------------------------------------------------------- the decision

  /** What `proxy_request_to_app` does with a request for `app`. */
  datatype Decision = NotFoundApp(message: string) | NoPort(message: string) | Forward(url: string)

  const Loopback := "http://127.0.0.1:"

  /** The HTTP status of the answer the proxy gives itself (a forwarded
      request is answered by the app). */
  function StatusCode(d: Decision): Option<int> {
    match d
    case NotFoundApp(_) => Some(404)
    case NoPort(_) => Some(500)
    case Forward(_) => None
  }

  function Decide(ports: Ports, app: string, path: string): (d: Decision)
    ensures d.NotFoundApp? <==> app !in ports
    ensures d.NoPort? <==> app in ports && ports[app] == 0
    ensures d.NotFoundApp? ==> d.message == "Application not found: " + app
    ensures d.NoPort? ==> d.message == "No port configured for: " + app
    ensures d.Forward? ==> StartsWith(d.url, Loopback) && EndsWith(d.url, path)
    ensures d.Forward? ==> d.url == Loopback + IntToString(ports[app]) + path
  {
    if app !in ports then NotFoundApp("Application not found: " + app)
    else if ports[app] == 0 then NoPort("No port configured for: " + app)
    else Forward(Loopback + IntToString(ports[app]) + path)
  }

  /** The port a target URL names: the text after the loopback prefix up to
      the first '/'. */
  function UrlPort(url: string): Option<int> {
    if StartsWith(url, Loopback) then ParseInt(Split(url[|Loopback|..], '/')[0]) else None
  }

  lemma DigitsHaveNoSlash(n: int)
    ensures '/' !in IntToString(n)
  {
    var s := IntToString(n);
    if n < 0 {
      var d := Digits(-n);
      assert s == "-" + d;
      assert forall k :: 0 <= k < |d| ==> IsDigit(d[k]);
    } else {
      assert forall k :: 0 <= k < |s| ==> IsDigit(s[k]);
    }
  }

  /** A forwarded request goes to the loopback port the map holds for the app,
      with the forwarded path unchanged after it. */
  lemma ForwardTarget(ports: Ports, app: string, path: string)
    requires app in ports && ports[app] != 0
    requires path != [] && path[0] == '/'
    ensures Decide(ports, app, path).Forward?
    ensures UrlPort(Decide(ports, app, path).url) == Some(ports[app])
  {
    var p := IntToString(ports[app]);
    var url := Loopback + p + path;
    assert url[|Loopback|..] == p + path;
    assert p + path == p + ['/'] + path[1..];
    DigitsHaveNoSlash(ports[app]);
    SplitCons(p, '/', path[1..]);
    ParseIntToString(ports[app]);
  }

  // ---------------------------------------------------------- the path built

  /** `app_proxy`: the path under "/app/<name>/" with its leading '/' put back,
      and the query string, when there is one, after a '?'. */
  function ForwardPath(path: string, query: string): (r: string)
    ensures r != [] && r[0] == '/'
  {
    (if path != "" then "/" + path else "/") + (if query != "" then "?" + query else "")
  }

  /** The path and the query can be read back from the forwarded path: it is
      split at its first '?' exactly when there is a query. */
  lemma ForwardPathRoundTrip(path: string, query: string)
    requires '?' !in path
    ensures var r := ForwardPath(path, query);
      (query == "" <==> '?' !in r)
      && (query != "" ==> Partition(r, '?') == ("/" + path, query))
      && (query == "" ==> r == "/" + path)
  {
    var head := if path != "" then "/" + path else "/";
    assert head == "/" + path by {
      if path == "" {
        assert "/" + path == "/";
      }
    }
    assert '?' !in head;
    var r := ForwardPath(path, query);
    if query != "" {
      assert r == head + ['?'] + query;
      PartitionAt(head, '?', query);
    } else {
      assert r == head;
    }
  }

  /** When the cache is stale and the manifest lists `app` last with a
      non-zero port, a request for it is forwarded to that port. */
  lemma ManifestAppForwarded(c: Cache, now: int, apps: seq<ManifestEntry>, listing: Listing, i: nat, path: string, query: string)
    requires !Fresh(c, now) && WellFormed(apps) && i < |apps|
    requires forall j :: i < j < |apps| ==> apps[j].name != apps[i].name
    requires apps[i].port.value != 0
    ensures var d := Decide(Lookup(c, now, ManifestApps(apps), listing).0, apps[i].name.value, ForwardPath(path, query));
      d.Forward? && UrlPort(d.url) == apps[i].port
  {
    var pairs := seq(|apps|, k requires 0 <= k < |apps| => (apps[k].name.value, apps[k].port.value));
    assert LastFor(pairs, i);
    var ports := MapOf(pairs);
    MapOfLastWins(pairs, i);
    assert ManifestPorts(apps) == Some(ports);
    ForwardTarget(ports, apps[i].name.value, ForwardPath(path, query));
  }

  /** When the cache is stale and the manifest cannot be used, the proxy
      takes the supervisor's listing: an app listed last with port `p`
      other than 0 is forwarded to `p`, and one listed last without a port
      (or with port 0) is answered with 500. */
  lemma ListedAppForwarded(c: Cache, now: int, manifest: ManifestRead, apps: seq<ListedApp>, i: nat,
                           path: string, query: string)
    requires !Fresh(c, now) && !(manifest.ManifestApps? && WellFormed(manifest.apps))
    requires i < |apps| && LastListed(apps, i)
    ensures var d := Decide(Lookup(c, now, manifest, ListingApps(apps)).0, apps[i].name, ForwardPath(path, query));
      && (apps[i].port.GetOr(0) != 0 ==> d.Forward? && UrlPort(d.url) == Some(apps[i].port.value))
      && (apps[i].port.GetOr(0) == 0 ==> d.NoPort? && StatusCode(d) == Some(500))
  {
    var ports := ListedPorts(apps);
    assert apps[i].name in ports;
    if apps[i].port.GetOr(0) != 0 {
      ForwardTarget(ports, apps[i].name, ForwardPath(path, query));
    }
  }

  // ---------------------------------------------------------------- the state

  /** The two module globals the proxy keeps between requests. */
  class PortCache {
    var ports: Ports
    var time: int

    function Snapshot(): Cache
      reads this
    {
      Cache(ports, time)
    }

    /** The cache as the web app starts: empty and stamped 0. */
    constructor()
      ensures Snapshot() == Cache(map[], 0)
    {
      ports, time := map[], 0;
    }

    /** `get_app_ports`, the current time and the two sources given. */
    method GetAppPorts(now: int, manifest: ManifestRead, listing: Listing) returns (r: Ports)
      modifies this
      ensures (r, Snapshot()) == Lookup(old(Snapshot()), now, manifest, listing)
    {
      if |ports| > 0 && now - time < CacheTtl {
        return ports;
      }
      if manifest.ManifestApps? {
        var fromManifest := ManifestPorts(manifest.apps);
        if fromManifest.Some? {
          ports, time := fromManifest.value, now;
          return ports;
        }
      }
      if listing.ListingApps? {
        ports, time := ListedPorts(listing.apps), now;
        return ports;
      }
      r := map[];
    }

    /** `proxy_request_to_app` up to the forwarding itself. */
    method ProxyRequest(app: string, path: string, now: int, manifest: ManifestRead, listing: Listing) returns (d: Decision)
      modifies this
      ensures var l := Lookup(old(Snapshot()), now, manifest, listing);
        d == Decide(l.0, app, path) && Snapshot() == l.1
    {
      var appPorts := GetAppPorts(now, manifest, listing);
      if app !in appPorts {
        return NotFoundApp("Application not found: " + app);
      }
      var port := appPorts[app];
      if port == 0 {
        return NoPort("No port configured for: " + app);
      }
      d := Forward(Loopback + IntToString(port) + path);
    }
  }
}
