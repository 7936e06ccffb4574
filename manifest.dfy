/**
 * The manifest shapes the supervisor reads: entries of the global
 * manifest's `apps` list, and the keys of a per-app manifest that the
 * supervisor consults. `None` stands for a key that is absent.
 */
module Manifest {
  import opened Wrappers

  /** One entry of the global `apps` list: a bare name (the legacy form) or an object. */
  datatype GlobalEntry =
    | NameEntry(name: string)
    | ObjectEntry(entryName: Option<string>, entryPort: Option<int>, entryType: Option<string>)

  /** The `health` object of a per-app manifest. */
  datatype HealthConfig = HealthConfig(
    kind: Option<string>,
    port: Option<int>,
    endpoint: Option<string>,
    timeout: Option<int>,
    expectedStatus: Option<int>)

  /** A per-app manifest, reduced to the keys the supervisor reads. */
  datatype AppManifest = AppManifest(
    port: Option<int>,
    appType: Option<string>,
    version: Option<string>,
    description: Option<string>,
    health: Option<HealthConfig>)

  /** What a missing or unreadable per-app manifest loads as: `{}`. */
  const EmptyManifest := AppManifest(None, None, None, None, None)

  /** Python truthiness of a `port` value: present and non-zero. */
  predicate PortTruthy(p: Option<int>) { p.Some? && p.value != 0 }

  /** Python truthiness of a `type` value: present and non-empty. */
  predicate TypeTruthy(t: Option<string>) { t.Some? && t.value != "" }

  /** The name, global port and global type an entry contributes; an object's
      missing keys default to "", 0 and "service", a bare name gets 0 and "service". */
  function EntryName(e: GlobalEntry): string {
    match e
    case NameEntry(n) => n
    case ObjectEntry(n, _, _) => n.GetOr("")
  }

  function EntryPort(e: GlobalEntry): int {
    match e
    case NameEntry(_) => 0
    case ObjectEntry(_, p, _) => p.GetOr(0)
  }

  function EntryType(e: GlobalEntry): string {
    match e
    case NameEntry(_) => "service"
    case ObjectEntry(_, _, t) => t.GetOr("service")
  }

  /** The per-app manifest with the global port and type merged in: a global
      value fills in only a per-app value that is missing or falsy, and only
      when the global value is itself truthy; nothing else changes. */
  function Merge(m: AppManifest, globalPort: int, globalType: string): (r: AppManifest)
    ensures r.version == m.version && r.description == m.description && r.health == m.health
    ensures PortTruthy(m.port) || globalPort == 0 ==> r.port == m.port
    ensures !PortTruthy(m.port) && globalPort != 0 ==> r.port == Some(globalPort)
    ensures TypeTruthy(m.appType) || globalType == "" ==> r.appType == m.appType
    ensures !TypeTruthy(m.appType) && globalType != "" ==> r.appType == Some(globalType)
    ensures PortTruthy(r.port) <==> PortTruthy(m.port) || globalPort != 0
  {
    var withPort := if globalPort != 0 && !PortTruthy(m.port) then m.(port := Some(globalPort)) else m;
    if globalType != "" && !TypeTruthy(withPort.appType) then withPort.(appType := Some(globalType)) else withPort
  }

  /** The per-app manifest as loaded from the files present: `{}` when absent. */
  function LoadAppManifest(files: map<string, AppManifest>, name: string): (m: AppManifest)
    ensures name !in files ==> m == EmptyManifest
    ensures name in files ==> m == files[name]
  {
    if name in files then files[name] else EmptyManifest
  }
}
