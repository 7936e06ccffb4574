/**
 * The image version file: `key=value` lines read into five fields, each
 * "unknown" until a line sets it.
 */
module Version {
  import opened Wrappers
  import opened Strings

  datatype VersionInfo = VersionInfo(
    version: string,
    buildMode: string,
    buildDate: string,
    buildHost: string,
    alpineVersion: string,
    error: Option<string>)

  const Unknown := "unknown"
  const Defaults := VersionInfo(Unknown, Unknown, Unknown, Unknown, Unknown, None)

  /** The version file as the reader finds it: absent, its lines (with their
      line endings), or the lines read before an error stopped the reading. */
  datatype VersionFile = NoFile | Lines(lines: seq<string>) | ReadError(before: seq<string>, message: string)

  /** The five recognised keys. */
  predicate IsKey(k: string) {
    k == "version" || k == "build_mode" || k == "build_date" || k == "build_host" || k == "alpine_version"
  }

  /** The field `key` names. */
  function Field(info: VersionInfo, key: string): string
    requires IsKey(key)
  {
    if key == "version" then info.version
    else if key == "build_mode" then info.buildMode
    else if key == "build_date" then info.buildDate
    else if key == "build_host" then info.buildHost
    else info.alpineVersion
  }

  /** The key and value a line carries: stripped, split at its first '=',
      the key lower-cased; `None` for a line without '='. */
  function Setting(line: string): (r: Option<(string, string)>)
    ensures r.Some? <==> '=' in Strip(line)
    ensures r.Some? ==>
              var t := Strip(line);
              var n := |r.value.0|;
              n < |t| && t[n] == '=' && '=' !in t[..n] && r.value.0 == Lower(t[..n]) && r.value.1 == t[n + 1..]
  {
    var t := Strip(line);
    if '=' in t then
      PartitionIndex(t, '=');
      var (k, v) := Partition(t, '=');
      Some((Lower(k), v))
    else None
  }

  /** The field `key` set to `value`; an unrecognised key changes nothing. */
  function Assign(info: VersionInfo, key: string, value: string): (r: VersionInfo)
    ensures r.error == info.error
    ensures forall k :: IsKey(k) ==> Field(r, k) == if k == key then value else Field(info, k)
  {
    if key == "version" then info.(version := value)
    else if key == "build_mode" then info.(buildMode := value)
    else if key == "build_date" then info.(buildDate := value)
    else if key == "build_host" then info.(buildHost := value)
    else if key == "alpine_version" then info.(alpineVersion := value)
    else info
  }

  /** One line applied to the fields: a recognised key sets its field, any
      other line changes nothing. */
  function Apply(info: VersionInfo, line: string): (r: VersionInfo)
    ensures r.error == info.error
    ensures forall key :: IsKey(key) ==>
              Field(r, key) == if Setting(line).Some? && Setting(line).value.0 == key
                               then Setting(line).value.1 else Field(info, key)
  {
    match Setting(line)
    case None => info
    case Some((key, value)) => Assign(info, key, value)
  }

  /** The fields after the lines, in order. */
  function ApplyAll(info: VersionInfo, lines: seq<string>): (r: VersionInfo)
    decreases |lines|
    ensures r.error == info.error
  {
    if lines == [] then info else ApplyAll(Apply(info, lines[0]), lines[1..])
  }

  /** `read_version_info` on the file as found. */
  function Parse(file: VersionFile): (r: VersionInfo)
    ensures file.NoFile? ==> r == Defaults
    ensures r.error == (if file.ReadError? then Some(file.message) else None)
  {
    match file
    case NoFile => Defaults
    case Lines(lines) => ApplyAll(Defaults, lines)
    case ReadError(before, message) => ApplyAll(Defaults, before).(error := Some(message))
  }

  /** The value of the last line that sets `key`, or `fallback` when none does. */
  function LastValue(lines: seq<string>, key: string, fallback: string): string
    decreases |lines|
  {
    if lines == [] then fallback
    else
      var last := lines[|lines| - 1];
      if Setting(last).Some? && Setting(last).value.0 == key then Setting(last).value.1
      else LastValue(lines[..|lines| - 1], key, fallback)
  }

  lemma {:induction false} ApplyAllSnoc(info: VersionInfo, lines: seq<string>, line: string)
    ensures ApplyAll(info, lines + [line]) == Apply(ApplyAll(info, lines), line)
    decreases |lines|
  {
    if lines == [] {
      assert [] + [line] == [line];
    } else {
      assert (lines + [line])[1..] == lines[1..] + [line];
      ApplyAllSnoc(Apply(info, lines[0]), lines[1..], line);
    }
  }

  /**
   * Each field holds the value of the last line that sets its key
   * (case-insensitively, after the first '='), and "unknown" when no line
   * does: later lines win, other lines are ignored.
   */
  lemma {:induction false} FieldIsLastValue(info: VersionInfo, lines: seq<string>, key: string)
    requires IsKey(key)
    ensures Field(ApplyAll(info, lines), key) == LastValue(lines, key, Field(info, key))
    decreases |lines|
  {
    if lines != [] {
      var init := lines[..|lines| - 1];
      var last := lines[|lines| - 1];
      assert lines == init + [last];
      ApplyAllSnoc(info, init, last);
      FieldIsLastValue(info, init, key);
    }
  }

  /** The parsed fields, stated for every key: the last setting or "unknown". */
  lemma ParseFields(file: VersionFile, key: string)
    requires IsKey(key)
    ensures file.NoFile? ==> Field(Parse(file), key) == Unknown
    ensures file.Lines? ==> Field(Parse(file), key) == LastValue(file.lines, key, Unknown)
    ensures file.ReadError? ==> Field(Parse(file), key) == LastValue(file.before, key, Unknown)
                                && Parse(file).error == Some(file.message)
  {
    match file
    case NoFile =>
    case Lines(lines) => FieldIsLastValue(Defaults, lines, key);
    case ReadError(before, message) => FieldIsLastValue(Defaults, before, key);
  }

  /**
   * The reader as it runs: the fields start at "unknown" and each line of
   * the file updates them in turn.
   */
  method ReadVersionInfo(file: VersionFile) returns (info: VersionInfo)
    ensures info == Parse(file)
  {
    info := Defaults;
    if file.NoFile? {
      return;
    }
    var lines := if file.Lines? then file.lines else file.before;
    var i := 0;
    while i < |lines|
      invariant 0 <= i <= |lines|
      invariant ApplyAll(Defaults, lines) == ApplyAll(info, lines[i..])
    {
      var t := Strip(lines[i]);
      if '=' in t {
        var (key, value) := Partition(t, '=');
        key := Lower(key);
        if key == "version" {
          info := info.(version := value);
        } else if key == "build_mode" {
          info := info.(buildMode := value);
        } else if key == "build_date" {
          info := info.(buildDate := value);
        } else if key == "build_host" {
          info := info.(buildHost := value);
        } else if key == "alpine_version" {
          info := info.(alpineVersion := value);
        }
      }
      assert lines[i..][1..] == lines[i + 1..];
      i := i + 1;
    }
    if file.ReadError? {
      info := info.(error := Some(file.message));
    }
  }
}
