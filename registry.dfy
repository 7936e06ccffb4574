/**
 * The supervisor's `apps` registry and how the registration loop of `main`
 * builds it from the global manifest's `apps` list. Names are kept in the
 * order the dictionary was first given them, which is the order the monitor
 * and the `/apps` listing walk.
 */
module Registry {
  import opened Wrappers
  import opened Manifest
  import opened Health

  /** One registry entry: the merged manifest, the last health result and the start time. */
  datatype AppRecord = AppRecord(manifest: AppManifest, lastHealth: HealthResult, startTime: Option<int>)

  /** The registry: names in insertion order and the record of each. */
  datatype Apps = Apps(names: seq<string>, records: map<string, AppRecord>)

  /** The names are distinct and are exactly the keys of the records. */
  ghost predicate WellFormed(a: Apps) {
    (forall i, j :: 0 <= i < j < |a.names| ==> a.names[i] != a.names[j])
    && (forall n :: n in a.records <==> n in a.names)
  }

  /** What registration stores for an app: the merged manifest, health
      `unknown` and no start time. */
  function Fresh(m: AppManifest): AppRecord {
    AppRecord(m, InitialHealth, None)
  }

  /** The record an entry registers, once its per-app manifest is loaded and merged. */
  function RecordFor(e: GlobalEntry, files: map<string, AppManifest>): AppRecord {
    Fresh(Merge(LoadAppManifest(files, EntryName(e)), EntryPort(e), EntryType(e)))
  }

  /** One iteration of the registration loop: an entry with an empty name is
      skipped, any other (re)places the record under its name. */
  function RegisterEntry(a: Apps, e: GlobalEntry, files: map<string, AppManifest>): (r: Apps)
    requires WellFormed(a)
    ensures WellFormed(r)
    ensures EntryName(e) == "" ==> r == a
    ensures EntryName(e) != "" ==> r.records == a.records[EntryName(e) := RecordFor(e, files)]
    ensures |a.names| <= |r.names| && r.names[..|a.names|] == a.names
  {
    var name := EntryName(e);
    if name == "" then a
    else Apps(if name in a.records then a.names else a.names + [name], a.records[name := RecordFor(e, files)])
  }

  /** The registry after the loop has gone through `entries`, starting empty. */
  function RegisterAll(entries: seq<GlobalEntry>, files: map<string, AppManifest>): (r: Apps)
    ensures WellFormed(r)
  {
    if entries == [] then Apps([], map[])
    else RegisterEntry(RegisterAll(entries[..|entries| - 1], files), entries[|entries| - 1], files)
  }

  /** Entry `i` is the last one that carries `name`. */
  predicate LastWith(entries: seq<GlobalEntry>, name: string, i: int) {
    0 <= i < |entries| && EntryName(entries[i]) == name
    && forall j :: i < j < |entries| ==> EntryName(entries[j]) != name
  }

  /** Some entry carries `name`. */
  predicate Carries(entries: seq<GlobalEntry>, name: string) {
    exists i :: 0 <= i < |entries| && EntryName(entries[i]) == name
  }

  /** An app is registered exactly when some entry, string or object, carries
      its name and that name is not empty. */
  lemma {:induction false} RegisteredNames(entries: seq<GlobalEntry>, files: map<string, AppManifest>, name: string)
    ensures name in RegisterAll(entries, files).records <==> name != "" && Carries(entries, name)
  {
    if entries != [] {
      var n := |entries| - 1;
      var init := entries[..n];
      RegisteredNames(init, files, name);
      if Carries(entries, name) && EntryName(entries[n]) != name {
        var i :| 0 <= i < |entries| && EntryName(entries[i]) == name;
        assert init[i] == entries[i];
      }
      if Carries(init, name) {
        var i :| 0 <= i < |init| && EntryName(init[i]) == name;
        assert entries[i] == init[i];
      }
    }
  }

  /** The position of the last entry that carries `name`, or -1. */
  function LastIndex(entries: seq<GlobalEntry>, name: string): (r: int)
    ensures r == -1 || LastWith(entries, name, r)
    ensures r == -1 ==> forall j :: 0 <= j < |entries| ==> EntryName(entries[j]) != name
  {
    if entries == [] then -1
    else if EntryName(entries[|entries| - 1]) == name then |entries| - 1
    else
      var r := LastIndex(entries[..|entries| - 1], name);
      assert forall j :: 0 <= j < |entries| - 1 ==> entries[..|entries| - 1][j] == entries[j];
      r
  }

  /** A registered app's record is the one built from the last entry that
      carries its name: a later entry replaces an earlier one. */
  lemma {:induction false} RegisteredRecord(entries: seq<GlobalEntry>, files: map<string, AppManifest>, name: string)
    requires name in RegisterAll(entries, files).records
    ensures LastIndex(entries, name) >= 0
    ensures RegisterAll(entries, files).records[name] == RecordFor(entries[LastIndex(entries, name)], files)
  {
    var n := |entries| - 1;
    var init := entries[..n];
    RegisteredNames(entries, files, name);
    if EntryName(entries[n]) != name {
      RegisteredRecord(init, files, name);
      assert init[LastIndex(init, name)] == entries[LastIndex(init, name)];
    }
  }

  /** Every registered app starts with health `unknown` and no start time. */
  lemma RegisteredFresh(entries: seq<GlobalEntry>, files: map<string, AppManifest>, name: string)
    requires name in RegisterAll(entries, files).records
    ensures RegisterAll(entries, files).records[name].lastHealth == InitialHealth
    ensures RegisterAll(entries, files).records[name].startTime.None?
  {
    RegisteredRecord(entries, files, name);
  }

  /** A legacy string entry and an object entry with the same name, port 0
      and type "service" register the same record. */
  lemma StringAndObjectEntriesAgree(name: string, files: map<string, AppManifest>)
    ensures RecordFor(NameEntry(name), files) == RecordFor(ObjectEntry(Some(name), None, None), files)
    ensures RecordFor(NameEntry(name), files) == RecordFor(ObjectEntry(Some(name), Some(0), Some("service")), files)
  {
  }

  // ------------------------------------------------------ registration order

  /** The name of each entry, in order. */
  function EntryNames(entries: seq<GlobalEntry>): (r: seq<string>)
    ensures |r| == |entries|
    ensures forall i :: 0 <= i < |entries| ==> r[i] == EntryName(entries[i])
  {
    seq(|entries|, i requires 0 <= i < |entries| => EntryName(entries[i]))
  }

  /** The position of the first occurrence of `x` in `xs`. */
  function FirstIndex(xs: seq<string>, x: string): (k: nat)
    requires x in xs
    ensures k < |xs| && xs[k] == x && x !in xs[..k]
  {
    if xs[0] == x then 0
    else
      var k := 1 + FirstIndex(xs[1..], x);
      assert xs[..k] == [xs[0]] + xs[1..][..k - 1];
      k
  }

  /** The first occurrence is the only position with no earlier copy. */
  lemma FirstIndexUnique(xs: seq<string>, x: string, k: nat)
    requires k < |xs| && xs[k] == x && x !in xs[..k]
    ensures FirstIndex(xs, x) == k
  {
  }

  /** Appending leaves the first occurrence of an element already present in place. */
  lemma FirstIndexAppend(xs: seq<string>, y: string, x: string)
    requires x in xs
    ensures FirstIndex(xs + [y], x) == FirstIndex(xs, x)
  {
    var k := FirstIndex(xs, x);
    assert (xs + [y])[..k] == xs[..k];
    FirstIndexUnique(xs + [y], x, k);
  }

  /** The non-empty strings of `xs` without repetition, ordered by where
      each first occurs. */
  function FirstSeen(xs: seq<string>): (r: seq<string>)
    ensures forall i, j :: 0 <= i < j < |r| ==> r[i] != r[j]
    ensures forall x :: x in r <==> x != "" && x in xs
    ensures forall i, j :: 0 <= i < j < |r| ==> FirstIndex(xs, r[i]) < FirstIndex(xs, r[j])
  {
    if xs == [] then []
    else
      var init := xs[..|xs| - 1];
      var x := xs[|xs| - 1];
      var p := FirstSeen(init);
      assert xs == init + [x];
      forall y | y in p
        ensures FirstIndex(xs, y) == FirstIndex(init, y)
      {
        FirstIndexAppend(init, x, y);
      }
      if x == "" || x in p then p
      else
        FirstIndexUnique(xs, x, |xs| - 1);
        p + [x]
  }

  /** The registry lists the non-empty names of the entries once each, in
      the order of their first occurrence: a repeated name keeps the place
      of its first entry. */
  lemma {:induction false} RegisteredOrder(entries: seq<GlobalEntry>, files: map<string, AppManifest>)
    ensures RegisterAll(entries, files).names == FirstSeen(EntryNames(entries))
  {
    if entries != [] {
      var n := |entries| - 1;
      RegisteredOrder(entries[..n], files);
      assert EntryNames(entries[..n]) == EntryNames(entries)[..n];
    }
  }
}
