/**
 * Authentication in the management web app: the `/etc/shadow` lookup, the
 * password-change validation chain, and the 30-minute session expiry of the
 * login guard and of the session check offered to apps. `crypt`, the shadow
 * file and `chpasswd` are parameters.
 */
module Auth {
  import opened Wrappers
  import opened Strings

  // ------------------------------------------------------------ shadow lookup

  /** The shadow file as the lookup finds it: unreadable (permission or any
      other error), or its lines. */
  datatype ShadowFile = ShadowUnreadable | ShadowLines(lines: seq<string>)

  /** A line's fields: the line stripped and split at ':'. */
  function Fields(line: string): seq<string> {
    Split(Strip(line), ':')
  }

  /** The fields of every line. */
  function FieldTable(lines: seq<string>): (t: seq<seq<string>>)
    ensures |t| == |lines| && forall i :: 0 <= i < |lines| ==> t[i] == Fields(lines[i])
  {
    seq(|lines|, i requires 0 <= i < |lines| => Fields(lines[i]))
  }

  /** A line that decides the lookup for `username`: it has at least two
      fields and the first is the name. */
  predicate NamesUser(fields: seq<string>, username: string) {
    |fields| >= 2 && fields[0] == username
  }

  /** Hashes of locked or password-less accounts. */
  predicate Locked(hash: string) {
    hash == "!" || hash == "*" || hash == "!!" || hash == ""
  }

  /** The position of the first line from `k` on that names `username`, if any. */
  function FirstEntry(table: seq<seq<string>>, username: string, k: nat := 0): (r: Option<nat>)
    requires k <= |table|
    decreases |table| - k
    ensures r.Some? ==> k <= r.value < |table| && NamesUser(table[r.value], username)
                        && forall j :: k <= j < r.value ==> !NamesUser(table[j], username)
    ensures r.None? ==> forall j :: k <= j < |table| ==> !NamesUser(table[j], username)
  {
    if k == |table| then None
    else if NamesUser(table[k], username) then Some(k)
    else FirstEntry(table, username, k + 1)
  }

  /** A shadow line that names `username` with an unlocked hash that `crypt`
      of `password` reproduces. */
  predicate Opens(fields: seq<string>, username: string, password: string,
                  crypt: (string, string) -> string)
  {
    NamesUser(fields, username) && !Locked(fields[1]) && crypt(password, fields[1]) == fields[1]
  }

  /** `verify_shadow_password`: the first line naming the user decides; a
      locked hash never matches, another matches when `crypt` of the password
      under it reproduces it. */
  function VerifyShadow(file: ShadowFile, username: string, password: string,
                        crypt: (string, string) -> string): (ok: bool)
    ensures file.ShadowUnreadable? ==> !ok
    ensures ok ==> (file.ShadowLines? &&
                    exists i :: 0 <= i < |FieldTable(file.lines)| && Opens(FieldTable(file.lines)[i], username, password, crypt))
    ensures (file.ShadowLines? &&
             forall i :: 0 <= i < |FieldTable(file.lines)| ==> !NamesUser(FieldTable(file.lines)[i], username)) ==> !ok
  {
    match file
    case ShadowUnreadable => false
    case ShadowLines(lines) =>
      var table := FieldTable(lines);
      match FirstEntry(table, username)
      case None => false
      case Some(i) =>
        var hash := table[i][1];
        !Locked(hash) && crypt(password, hash) == hash
  }

  /** No password opens an account whose first entry is locked, whatever
      `crypt` computes; and a user without an entry never verifies. */
  lemma LockedOrAbsentRejects(lines: seq<string>, username: string, password: string,
                              crypt: (string, string) -> string)
    requires FirstEntry(FieldTable(lines), username).None?
             || Locked(FieldTable(lines)[FirstEntry(FieldTable(lines), username).value][1])
    ensures !VerifyShadow(ShadowLines(lines), username, password, crypt)
  {
  }

  /** Splitting a line `<user>:<hash>:<rest>` (its ends possibly padded on the
      right) at ':' gives the name and the hash as its first two fields. */
  lemma ShadowLineFields(username: string, hash: string, rest: string)
    requires username != [] && !IsSpace(username[0])
    requires ':' !in username && ':' !in hash
    ensures var f := Fields(username + ":" + hash + ":" + rest);
      |f| >= 2 && f[0] == username && f[1] == hash
  {
    var line := username + ":" + hash + ":" + rest;
    var colon := |username| + 1 + |hash|;
    assert line[colon] == ':' && line[0] == username[0];
    StripKeepsPrefix(line, colon);
    var t := Strip(line);
    assert line == username + [':'] + (hash + [':'] + rest);
    assert t == username + [':'] + (hash + [':'] + t[colon + 1..]) by {
      assert t == line[..|t|];
    }
    SplitCons(username, ':', hash + [':'] + t[colon + 1..]);
    SplitCons(hash, ':', t[colon + 1..]);
  }

  /** The lookup on a well-formed shadow file: the account's own line, the
      first to name it, decides by its hash alone. */
  lemma VerifyByOwnLine(before: seq<string>, username: string, hash: string, rest: string, after: seq<string>,
                        password: string, crypt: (string, string) -> string)
    requires username != [] && !IsSpace(username[0])
    requires ':' !in username && ':' !in hash
    requires forall j :: 0 <= j < |before| ==> !NamesUser(Fields(before[j]), username)
    ensures VerifyShadow(ShadowLines(before + [username + ":" + hash + ":" + rest] + after), username, password, crypt)
            <==> !Locked(hash) && crypt(password, hash) == hash
  {
    var line := username + ":" + hash + ":" + rest;
    var lines := before + [line] + after;
    ShadowLineFields(username, hash, rest);
    var table := FieldTable(lines);
    assert lines[|before|] == line;
    assert forall j :: 0 <= j < |before| ==> lines[j] == before[j];
    FirstEntryAt(table, username, |before|, 0);
  }

  lemma {:induction false} FirstEntryAt(table: seq<seq<string>>, username: string, i: nat, k: nat)
    requires k <= i < |table| && NamesUser(table[i], username)
    requires forall j :: k <= j < i ==> !NamesUser(table[j], username)
    ensures FirstEntry(table, username, k) == Some(i)
    decreases i - k
  {
    if k < i {
      FirstEntryAt(table, username, i, k + 1);
    }
  }

  // ---------------------------------------------------------- password change

  /** The three form fields, "" where a field is absent. */
  datatype ChangeForm = ChangeForm(current: string, newPassword: string, confirm: string)

  /** What `chpasswd` did with its input: its exit code, a timeout, or an
      error raised while running it. */
  datatype Chpasswd = ChExit(code: int) | ChTimeout | ChError(message: string)

  /** The reply, and the input given to `chpasswd` when it was run. */
  datatype Outcome = Outcome(code: int, status: string, message: string, input: Option<string>)

  function Rejection(code: int, message: string): Outcome {
    Outcome(code, "error", message, None)
  }

  /** The input `chpasswd` is given: one `<user>:<password>` line. */
  function ChpasswdInput(username: string, password: string): string {
    username + ":" + password + "\n"
  }

  /** The reply once `chpasswd` has run on `input`. */
  function AfterChpasswd(input: string, run: Chpasswd): (r: Outcome)
    ensures r.input == Some(input)
    ensures r.code == 200 <==> run == ChExit(0)
  {
    match run
    case ChExit(code) =>
      if code != 0 then Outcome(500, "error", "Failed to change password", Some(input))
      else Outcome(200, "success", "Password changed successfully", Some(input))
    case ChTimeout => Outcome(500, "error", "Password change timed out", Some(input))
    case ChError(message) => Outcome(500, "error", "Failed to change password: " + message, Some(input))
  }

  /** The checks before the current password is verified: every field given,
      the two new ones equal, the new one at least 4 characters long. */
  function FormRejection(form: ChangeForm): (r: Option<Outcome>)
    ensures r.None? <==> form.current != "" && form.newPassword != "" && form.newPassword == form.confirm && |form.newPassword| >= 4
    ensures r.Some? ==> r.value.code == 400 && r.value.input.None?
  {
    if form.current == "" || form.newPassword == "" || form.confirm == "" then Some(Rejection(400, "All fields are required"))
    else if form.newPassword != form.confirm then Some(Rejection(400, "New passwords do not match"))
    else if |form.newPassword| < 4 then Some(Rejection(400, "Password must be at least 4 characters"))
    else None
  }

  /** `api_change_password` as written: after the form checks and the
      current password, the new password goes to `chpasswd` unexamined. */
  function ChangePasswordAsWritten(username: string, form: ChangeForm, shadow: ShadowFile,
                                   crypt: (string, string) -> string, chpasswd: string -> Chpasswd): (r: Outcome)
    ensures FormRejection(form).Some? ==> r == FormRejection(form).value
    ensures FormRejection(form).None? && !VerifyShadow(shadow, username, form.current, crypt) ==>
              r == Rejection(401, "Current password is incorrect")
    ensures r.input.Some? <==> FormRejection(form).None? && VerifyShadow(shadow, username, form.current, crypt)
    ensures r.input.Some? ==> r.input.value == ChpasswdInput(username, form.newPassword)
    ensures r.code == 200 <==> r.input.Some? && chpasswd(r.input.value) == ChExit(0)
  {
    match FormRejection(form)
    case Some(rejected) => rejected
    case None =>
      if !VerifyShadow(shadow, username, form.current, crypt) then Rejection(401, "Current password is incorrect")
      else
        var input := ChpasswdInput(username, form.newPassword);
        AfterChpasswd(input, chpasswd(input))
  }

  /** As written, a new password with a line break in it passes every check
      and hands `chpasswd` a second line, which sets the password of another
      account (here root's). */
  lemma ChangePasswordAsWrittenInjects(username: string, current: string, shadow: ShadowFile,
                                       crypt: (string, string) -> string, chpasswd: string -> Chpasswd)
    requires current != "" && '\n' !in username
    requires VerifyShadow(shadow, username, current, crypt)
    ensures var r := ChangePasswordAsWritten(username, ChangeForm(current, "abcd\nroot:x", "abcd\nroot:x"),
                                             shadow, crypt, chpasswd);
      r.input.Some? && |Split(r.input.value, '\n')| >= 2 && Split(r.input.value, '\n')[1] == "root:x"
  {
    var form := ChangeForm(current, "abcd\nroot:x", "abcd\nroot:x");
    assert FormRejection(form).None? by { assert |form.newPassword| == 11; }
    InjectedInputLines(username);
  }

  lemma InjectedInputLines(username: string)
    requires '\n' !in username
    ensures Split(ChpasswdInput(username, "abcd\nroot:x"), '\n') == [username + ":abcd", "root:x", ""]
  {
    var head := username + ":abcd";
    assert ChpasswdInput(username, "abcd\nroot:x") == head + ['\n'] + "root:x\n";
    assert '\n' !in head;
    SplitCons(head, '\n', "root:x\n");
    RootLine();
  }

  lemma RootLine()
    ensures Split("root:x\n", '\n') == ["root:x", ""]
  {
    assert "root:x\n" == "root:x" + ['\n'] + "";
    SplitCons("root:x", '\n', "");
  }

  const LineBreakMessage := "Password must not contain a line break"

  /** `api_change_password` with the new password also refused, with a 400,
      when it holds a line break, so that `chpasswd` always gets exactly one
      line. The checks run in order and `chpasswd` runs only after all pass. */
  function ChangePassword(username: string, form: ChangeForm, shadow: ShadowFile,
                          crypt: (string, string) -> string, chpasswd: string -> Chpasswd): (r: Outcome)
    ensures form.current == "" || form.newPassword == "" || form.confirm == "" ==>
              r == Rejection(400, "All fields are required")
    ensures form.current != "" && form.newPassword != "" && form.confirm != "" && form.newPassword != form.confirm ==>
              r == Rejection(400, "New passwords do not match")
    ensures FormRejection(form).None? && '\n' in form.newPassword ==> r == Rejection(400, LineBreakMessage)
    ensures FormRejection(form).None? && '\n' !in form.newPassword && !VerifyShadow(shadow, username, form.current, crypt) ==>
              r == Rejection(401, "Current password is incorrect")
    ensures r.input.Some? <==> FormRejection(form).None? && '\n' !in form.newPassword
                               && VerifyShadow(shadow, username, form.current, crypt)
    ensures r.input.Some? ==> r.input.value == ChpasswdInput(username, form.newPassword)
    ensures r.code == 200 <==> r.input.Some? && chpasswd(r.input.value) == ChExit(0)
  {
    match FormRejection(form)
    case Some(rejected) => rejected
    case None =>
      if '\n' in form.newPassword then Rejection(400, LineBreakMessage)
      else if !VerifyShadow(shadow, username, form.current, crypt) then Rejection(401, "Current password is incorrect")
      else
        var input := ChpasswdInput(username, form.newPassword);
        AfterChpasswd(input, chpasswd(input))
  }

  /** The correction changes nothing for a new password without a line
      break: both versions give the same answer and feed `chpasswd` the same input. */
  lemma AsWrittenAgreesWithoutLineBreak(username: string, form: ChangeForm, shadow: ShadowFile,
                                        crypt: (string, string) -> string, chpasswd: string -> Chpasswd)
    requires '\n' !in form.newPassword
    ensures ChangePasswordAsWritten(username, form, shadow, crypt, chpasswd)
              == ChangePassword(username, form, shadow, crypt, chpasswd)
  {
  }

  /** `chpasswd` is only ever asked to change the session user's password:
      its input is one line whose name field is that user and whose password
      is the new one. */
  lemma ChpasswdOnlyForUser(username: string, form: ChangeForm, shadow: ShadowFile,
                            crypt: (string, string) -> string, chpasswd: string -> Chpasswd)
    requires ':' !in username && '\n' !in username
    ensures var r := ChangePassword(username, form, shadow, crypt, chpasswd);
      r.input.Some? ==>
        Split(r.input.value, '\n') == [username + ":" + form.newPassword, ""]
        && Partition(username + ":" + form.newPassword, ':') == (username, form.newPassword)
  {
    var r := ChangePassword(username, form, shadow, crypt, chpasswd);
    if r.input.Some? {
      var record := username + ":" + form.newPassword;
      assert '\n' !in record;
      assert r.input.value == record + ['\n'] + "";
      SplitCons(record, '\n', "");
      assert record == username + [':'] + form.newPassword;
      PartitionAt(username, ':', form.newPassword);
    }
  }

  /** The corrected check turns away the password the written one lets through. */
  lemma ChangePasswordRefusesInjection(username: string, current: string, shadow: ShadowFile,
                                       crypt: (string, string) -> string, chpasswd: string -> Chpasswd)
    requires current != ""
    ensures ChangePassword(username, ChangeForm(current, "abcd\nroot:x", "abcd\nroot:x"), shadow, crypt, chpasswd)
            == Rejection(400, LineBreakMessage)
  {
    var form := ChangeForm(current, "abcd\nroot:x", "abcd\nroot:x");
    assert FormRejection(form).None? by { assert |form.newPassword| == 11; }
    assert form.newPassword[4] == '\n';
  }

  // ----------------------------------------------------------------- sessions

  /** The session cookie's contents: the user and the login time in seconds. */
  datatype Session = Session(username: Option<string>, loginTime: Option<int>)

  /** A session expires 30 minutes after login. */
  const SessionLifetime := 1800

  predicate Expired(s: Session, now: int) {
    s.loginTime.Some? && now - s.loginTime.value > SessionLifetime
  }

  /** A request that is answered in JSON rather than redirected. */
  predicate WantsJson(isJson: bool, path: string) {
    isJson || StartsWith(path, "/api/")
  }

  datatype Guard = Proceed | Unauthorized(message: string) | RedirectToLogin

  /** `login_required`: the verdict and the session after it; an expired
      session is cleared. */
  function LoginGuard(s: Session, now: int, isJson: bool, path: string): (r: (Guard, Session))
    ensures r.0.Proceed? <==> s.username.Some? && !Expired(s, now)
    ensures r.0.Unauthorized? <==> WantsJson(isJson, path) && !(s.username.Some? && !Expired(s, now))
    ensures r.1 == (if s.username.Some? && Expired(s, now) then Session(None, None) else s)
  {
    var denied := if WantsJson(isJson, path) then Unauthorized("Authentication required") else RedirectToLogin;
    if s.username.None? then (denied, s)
    else if Expired(s, now) then
      ((if WantsJson(isJson, path) then Unauthorized("Session expired") else RedirectToLogin), Session(None, None))
    else (Proceed, s)
  }

  datatype Check = Valid(username: string, loginTime: Option<int>) | Invalid | ExpiredSession

  /** `api_session_check`: the same expiry rule, without clearing the session. */
  function SessionCheck(s: Session, now: int): (r: Check)
    ensures r.Valid? <==> s.username.Some? && !Expired(s, now)
    ensures r.Valid? ==> r.username == s.username.value && r.loginTime == s.loginTime
    ensures r == ExpiredSession <==> s.username.Some? && Expired(s, now)
  {
    if s.username.None? then Invalid
    else if Expired(s, now) then ExpiredSession
    else Valid(s.username.value, s.loginTime)
  }

  /** The guard lets a request through exactly when the check calls the
      session valid, whether or not the request wants JSON. */
  lemma GuardAgreesWithCheck(s: Session, now: int, isJson: bool, path: string)
    ensures LoginGuard(s, now, isJson, path).0.Proceed? <==> SessionCheck(s, now).Valid?
  {
  }

  /** The 30-minute boundary: a session is still good 1800 seconds after
      login and expired one second later; without a login time it never
      expires. */
  lemma ExpiryBoundary(user: string, t: int, now: int)
    ensures SessionCheck(Session(Some(user), Some(t)), t + SessionLifetime).Valid?
    ensures SessionCheck(Session(Some(user), Some(t)), t + SessionLifetime + 1) == ExpiredSession
    ensures SessionCheck(Session(Some(user), None), now).Valid?
  {
  }

  /** Once the guard has met an expired session, the check no longer reports
      it as expired but as absent, while the check alone keeps reporting
      "expired". */
  lemma GuardClearsCheckDoesNot(user: string, t: int, now: int, isJson: bool, path: string)
    requires now - t > SessionLifetime
    ensures SessionCheck(LoginGuard(Session(Some(user), Some(t)), now, isJson, path).1, now) == Invalid
    ensures SessionCheck(Session(Some(user), Some(t)), now) == ExpiredSession
  {
  }
}
