/** The session manager of telegram_otp.py. It keeps one login in progress per
    user, moves Telethon session files from a temporary name to
    `<sessions dir>/<country code>/<phone>.session`, logs other devices out and
    decides whether a stored session is still good enough to pay for.

    Telethon and the file system are abstract here: every answer of the
    messaging provider is an outcome parameter of the operation that asks for
    it, and the file system is a map from path to file size. */
module Sessions {
  import opened Common
  import opened Store
  import opened CountryLookup

  /** `VALIDATION_BYPASS_MODE`: be lenient after repeated database errors. */
  const ValidationBypassMode := true

  /** The bypass applies once `DATABASE_ERROR_COUNT` exceeds this. */
  const DatabaseErrorThreshold := 3

  // ----- Paths ---------------------------------------------------------------

  /** `os.path.join(a, b)` on POSIX: an absolute `b` replaces `a`; otherwise
      `b` follows `a`, with one `/` between them unless `a` is empty or already
      ends in one. */
  function Join(a: Path, b: Path): (r: Path)
    ensures |b| > 0 && b[0] == '/' ==> r == b
    ensures !(|b| > 0 && b[0] == '/') && (a == [] || a[|a| - 1] == '/') ==> r == a + b
    ensures !(|b| > 0 && b[0] == '/') && a != [] && a[|a| - 1] != '/' ==> r == a + "/" + b
  {
    if |b| > 0 && b[0] == '/' then b
    else if a == [] || a[|a| - 1] == '/' then a + b
    else a + "/" + b
  }

  /** The base name of a relative name joined to a folder is that name. */
  lemma JoinedBaseName(a: Path, t: Path)
    ensures '/' !in t && t != [] ==> BaseName(Join(a, t)) == t
  {
    if '/' !in t && t != [] {
      if a == [] {
        assert Join(a, t) == t;
        BaseNameOfName(a, t);
      } else if a[|a| - 1] == '/' {
        var a' := a[..|a| - 1];
        assert a == a' + "/";
        assert Join(a, t) == a' + "/" + t;
        BaseNameOfName(a', t);
      } else {
        BaseNameOfName(a, t);
      }
    }
  }

  /** `_ensure_country_session_dir(code)`: the sessions directory, or its
      sub-folder named after a non-empty country code; creating the directory
      is not modelled. */
  function CountryDir(sessionsDir: Path, code: Option<string>): (r: Path)
    ensures code.None? || code.value == "" ==> r == sessionsDir
    ensures code.Some? && code.value != "" && '/' !in code.value ==> BaseName(r) == code.value
  {
    JoinedBaseName(sessionsDir, code.GetOr(""));
    if code.None? || code.value == "" then sessionsDir else Join(sessionsDir, code.value)
  }

  /** `_get_session_path(phone)`: where the finished session of `phone` is
      kept; whichever country folder that is, the file is named after the phone. */
  function SessionPath(sessionsDir: Path, phone: Phone, countries: map<string, Country>): (r: Path)
    ensures '/' !in phone ==> BaseName(r) == phone + ".session"
  {
    JoinedBaseName(CountryDir(sessionsDir, GetCountryCode(phone, countries)), phone + ".session");
    Join(CountryDir(sessionsDir, GetCountryCode(phone, countries)), phone + ".session")
  }

  /** The temporary session file `NamedTemporaryFile(prefix='tmp_',
      suffix='.session', dir=country_dir)` creates; `tempName` is its random
      part. It lies in the folder the finished session is moved into. */
  function TempPath(sessionsDir: Path, phone: Phone, countries: map<string, Country>, tempName: string): (r: Path)
    ensures '/' !in tempName ==> BaseName(r) == "tmp_" + tempName + ".session"
    ensures '/' !in phone && '/' !in tempName ==> Folder(r) == Folder(SessionPath(sessionsDir, phone, countries))
  {
    var dir := CountryDir(sessionsDir, GetCountryCode(phone, countries));
    TempBesideSession(dir, phone, tempName);
    Join(dir, "tmp_" + tempName + ".session")
  }

  /** `os.path.basename(p)`: what follows the last `/`. */
  function BaseName(p: Path): (r: Path)
    ensures |r| <= |p|
  {
    if p == [] then []
    else if p[|p| - 1] == '/' then []
    else BaseName(p[..|p| - 1]) + [p[|p| - 1]]
  }

  /** `p` without its base name: the folder part, with its trailing `/`. */
  function Folder(p: Path): (r: Path) {
    p[..|p| - |BaseName(p)|]
  }

  lemma {:induction false} BaseNameOfName(a: Path, t: Path)
    requires '/' !in t
    ensures BaseName(a + "/" + t) == t
    ensures BaseName(t) == t
    decreases |t|
  {
    if t != [] {
      var t' := t[..|t| - 1];
      assert (a + "/" + t)[..|a + "/" + t| - 1] == a + "/" + t';
      assert t[..|t| - 1] == t';
      assert t' + [t[|t| - 1]] == t;
      BaseNameOfName(a, t');
    } else {
      assert a + "/" + t == a + "/";
    }
  }

  /** The folder of a joined name is the first part, with a `/` added when it has none. */
  lemma FolderOfJoin(a: Path, t: Path)
    ensures '/' !in t && t != [] ==> Folder(Join(a, t)) == if a == [] || a[|a| - 1] == '/' then a else a + "/"
  {
    if '/' !in t && t != [] {
      JoinedBaseName(a, t);
      var x := if a == [] || a[|a| - 1] == '/' then a else a + "/";
      assert Join(a, t) == x + t;
      assert (x + t)[..|x|] == x;
    }
  }

  /** The temporary name lies in the same folder as the session name. */
  lemma TempBesideSession(dir: Path, phone: Phone, tempName: string)
    ensures '/' !in tempName ==> BaseName(Join(dir, "tmp_" + tempName + ".session")) == "tmp_" + tempName + ".session"
    ensures '/' !in phone && '/' !in tempName ==>
      Folder(Join(dir, "tmp_" + tempName + ".session")) == Folder(Join(dir, phone + ".session"))
  {
    var t := "tmp_" + tempName + ".session";
    var n := phone + ".session";
    if '/' !in tempName {
      assert '/' !in t && t != [] by {
        assert forall i :: 0 <= i < |t| ==> t[i] == if i < 4 then "tmp_"[i] else if i < 4 + |tempName| then tempName[i - 4] else ".session"[i - 4 - |tempName|];
      }
      JoinedBaseName(dir, t);
      FolderOfJoin(dir, t);
      if '/' !in phone {
        assert '/' !in n && n != [] by {
          assert forall i :: 0 <= i < |n| ==> n[i] == if i < |phone| then phone[i] else ".session"[i - |phone|];
        }
        FolderOfJoin(dir, n);
      }
    }
  }

  /** Where a finished session lands: `<sessions dir>/<country code>/<phone>.session`,
      or directly in the sessions directory when no country code is known. */
  lemma SessionPathLayout(sessionsDir: Path, phone: Phone, countries: map<string, Country>)
    requires sessionsDir != [] && sessionsDir[|sessionsDir| - 1] != '/'
    requires phone != [] && '/' !in phone
    ensures var code := GetCountryCode(phone, countries);
      SessionPath(sessionsDir, phone, countries)
        == (if code.Some? then sessionsDir + "/" + code.value + "/" else sessionsDir + "/") + phone + ".session"
  {
    var code := GetCountryCode(phone, countries);
    var name := phone + ".session";
    assert code.Some? ==> code.value != [] && code.value[0] != '/' && code.value[|code.value| - 1] != '/' by {
      if code.Some? {
        var k :| 1 <= k <= 4 && code.value == Prefix(phone, k);
        assert code.value[0] == phone[0] && code.value[|code.value| - 1] in phone;
      }
    }
    assert name != [] && name[0] != '/' by {
      assert name[0] == phone[0];
    }
    FolderLayout(sessionsDir, code, name);
  }

  lemma FolderLayout(sessionsDir: Path, code: Option<string>, name: Path)
    requires sessionsDir != [] && sessionsDir[|sessionsDir| - 1] != '/'
    requires name != [] && name[0] != '/'
    requires code.Some? ==> code.value != [] && code.value[0] != '/' && code.value[|code.value| - 1] != '/'
    ensures Join(CountryDir(sessionsDir, code), name)
      == if code.Some? then sessionsDir + "/" + code.value + "/" + name else sessionsDir + "/" + name
  {
    if code.None? {
      assert Join(CountryDir(sessionsDir, code), name) == sessionsDir + "/" + name;
    } else {
      var dir := sessionsDir + "/" + code.value;
      assert CountryDir(sessionsDir, code) == dir;
      assert dir[|dir| - 1] == code.value[|code.value| - 1];
    }
  }

  /** Two phone numbers never share a session file. */
  lemma DistinctPhonesDistinctFiles(sessionsDir: Path, p: Phone, q: Phone, countries: map<string, Country>)
    requires '/' !in p && '/' !in q && p != q
    ensures SessionPath(sessionsDir, p, countries) != SessionPath(sessionsDir, q, countries)
  {
    SuffixCancels(p, q, ".session");
  }

  lemma SuffixCancels(p: string, q: string, suffix: string)
    requires p != q
    ensures p + suffix != q + suffix
  {
    if |p| == |q| {
      var i :| 0 <= i < |p| && p[i] != q[i];
      assert (p + suffix)[i] != (q + suffix)[i];
    } else {
      assert |p + suffix| != |q + suffix|;
    }
  }

  /** `os.rename(old, new)` guarded by `os.path.exists(old)`, as `_save_session` does. */
  function RenameIfExists(files: map<Path, nat>, src: Path, dst: Path): (r: map<Path, nat>)
    ensures src in files ==> dst in r && r[dst] == files[src]
    ensures src in files && src != dst ==> src !in r
    ensures src !in files ==> r == files
    ensures forall p :: p != src && p != dst ==> (p in r <==> p in files) && (p in r ==> r[p] == files[p])
  {
    if src in files then (files - {src})[dst := files[src]] else files
  }

  /** Saving twice renames once: the second save finds no temporary file. */
  lemma SecondSaveIsNoOp(files: map<Path, nat>, src: Path, dst: Path)
    requires src != dst
    ensures RenameIfExists(RenameIfExists(files, src, dst), src, dst) == RenameIfExists(files, src, dst)
  {
  }

  // ----- Device exclusivity ------------------------------------------------

  /** One entry of `GetAuthorizationsRequest().authorizations`. */
  datatype Authorization = Authorization(hash: int, current: bool)

  /** What the provider answers while other devices are logged out:
      the first listing (`None`: the request raised), the position of a
      `ResetAuthorizationRequest` that raises, and the size of the second
      listing (`None`: that request raised). */
  datatype DeviceReplies = DeviceReplies(listing: Option<seq<Authorization>>, revokeFailsAt: Option<nat>, remaining: Option<nat>)

  /** The hashes of the non-current authorizations, in order. */
  function OtherDevices(s: seq<Authorization>): (r: seq<int>)
    ensures |r| <= |s|
    ensures forall i :: 0 <= i < |s| && !s[i].current ==> s[i].hash in r
    ensures forall h :: h in r ==> exists i :: 0 <= i < |s| && !s[i].current && s[i].hash == h
  {
    if s == [] then []
    else
      var rest := OtherDevices(s[..|s| - 1]);
      assert forall i :: 0 <= i < |s| - 1 ==> s[..|s| - 1][i] == s[i];
      if s[|s| - 1].current then rest else rest + [s[|s| - 1].hash]
  }

  /** The positions of the non-current authorizations of `s`. */
  function OtherPositions(s: seq<Authorization>): (r: set<int>) {
    set i | 0 <= i < |s| && !s[i].current
  }

  /** Each other device is revoked once: there are as many revocations as
      non-current authorizations. */
  lemma {:induction false} EachOtherDeviceRevokedOnce(s: seq<Authorization>)
    ensures |OtherDevices(s)| == |OtherPositions(s)|
    decreases |s|
  {
    if s == [] {
      assert OtherPositions(s) == {};
    } else {
      var n := |s| - 1;
      EachOtherDeviceRevokedOnce(s[..n]);
      OtherPositionsStep(s);
      OtherDevicesStep(s, n);
      assert s[..n + 1] == s;
    }
  }

  lemma OtherPositionsStep(s: seq<Authorization>)
    requires s != []
    ensures var n := |s| - 1;
      n !in OtherPositions(s[..n])
      && OtherPositions(s) == OtherPositions(s[..n]) + if s[n].current then {} else {n}
  {
    var n := |s| - 1;
    var p := s[..n];
    forall i ensures i in OtherPositions(s) <==> i in OtherPositions(p) + if s[n].current then {} else {n} {
      if 0 <= i < n {
        assert p[i] == s[i];
      }
    }
  }

  /** One more authorization adds its hash when it is not the current one. */
  lemma OtherDevicesStep(s: seq<Authorization>, i: nat)
    requires i < |s|
    ensures OtherDevices(s[..i + 1]) == OtherDevices(s[..i]) + if s[i].current then [] else [s[i].hash]
  {
    assert s[..i + 1][..i] == s[..i];
  }

  /** The position at which the revoking loop stops on an exception, if it does. */
  function RevokeFailure(s: seq<Authorization>, failsAt: Option<nat>): (r: Option<nat>) {
    if failsAt.Some? && failsAt.value < |s| && !s[failsAt.value].current then failsAt else None
  }

  // ----- Pre-reward validation -----------------------------------------------

  /** Whether an exception's text, lower-cased, contains "database". */
  datatype ExceptionKind = DatabaseError | OtherError

  datatype InvalidReason = FileMissing | FileTooSmall | FileInvalid | FallbackTooSmall | FallbackFailed | ValidationError

  datatype Validation = Valid | Invalid(reason: InvalidReason)

  /** What `validate_session_before_reward` meets besides the file sizes:
      an exception while computing the session path (it escapes to the
      caller), an exception from `os.stat`, whether the Telethon client
      connects, and an exception in the size check of the database fallback. */
  datatype ValidationEnv = ValidationEnv(
    pathFault: Option<ExceptionKind>,
    statFault: Option<ExceptionKind>,
    connectOk: bool,
    fallbackFault: bool)

  datatype ValidationResult = Returned(validation: Validation) | Raised(kind: ExceptionKind)

  predicate BypassApplies(size: nat, count: int) {
    ValidationBypassMode && count > DatabaseErrorThreshold && size > 500
  }

  /** The decision of `validate_session_before_reward` once the session path
      is known: `size` is the file's size (`None`: no such file) and `count`
      the database error counter; the result pairs the verdict with the new
      counter. */
  function DecideValidation(size: Option<nat>, count: int, env: ValidationEnv): (r: (Validation, int))
    ensures size.None? ==> r == (Invalid(FileMissing), count)
    ensures r.0 == Valid ==> size.Some?
    ensures size.Some? && BypassApplies(size.value, count) ==> r == (Valid, count)
    ensures size.Some? && !BypassApplies(size.value, count) && env.statFault.None? ==>
      r.1 == count && (r.0 == Valid <==> size.value >= 100 && (env.connectOk || size.value > 1000))
    ensures size.Some? && !BypassApplies(size.value, count) && env.statFault == Some(DatabaseError) ==>
      r.1 == count + 1 && (r.0 == Valid <==> env.fallbackFault || size.value > 500)
    ensures size.Some? && !BypassApplies(size.value, count) && env.statFault == Some(OtherError) ==>
      r.0 == Invalid(ValidationError) && r.1 == (if count > 0 then count - 1 else count)
    ensures count >= 0 ==> r.1 >= 0
  {
    if size.None? then (Invalid(FileMissing), count)
    else if BypassApplies(size.value, count) then (Valid, count)
    else
      match env.statFault
      case Some(DatabaseError) =>
        var c := count + 1;
        if env.fallbackFault then (if ValidationBypassMode then Valid else Invalid(FallbackFailed), c)
        else if size.value > 500 then (Valid, c)
        else (Invalid(FallbackTooSmall), c)
      case Some(OtherError) =>
        (Invalid(ValidationError), if count > 0 then Max(0, count - 1) else count)
      case None =>
        if size.value < 100 then (Invalid(FileTooSmall), count)
        else if env.connectOk then (Valid, count)
        else if size.value > 1000 then (Valid, count)
        else (Invalid(FileInvalid), count)
  }

  /** The whole of `validate_session_before_reward(phone)` as a function of the
      files, the counter and the environment: its result and the new counter. */
  function ValidationOf(files: map<Path, nat>, sessionsDir: Path, count: int, phone: Phone,
                        countries: map<string, Country>, env: ValidationEnv): (r: (ValidationResult, int))
    ensures env.pathFault.Some? ==> r == (Raised(env.pathFault.value), count)
    ensures r.0 == Returned(Valid) ==> SessionPath(sessionsDir, phone, countries) in files
    ensures count >= 0 ==> r.1 >= 0
  {
    if env.pathFault.Some? then (Raised(env.pathFault.value), count)
    else
      var path := SessionPath(sessionsDir, phone, countries);
      var d := DecideValidation(if path in files then Some(files[path]) else None, count, env);
      (Returned(d.0), d.1)
  }

  // ----- The manager -----------------------------------------------------------

  datatype Stage = AwaitingCode | AwaitingPassword

  /** One entry of `user_states`; the Telethon client itself is not modelled. */
  datatype SessionState = SessionState(
    phone: Phone,
    sessionPath: Path,
    phoneCodeHash: string,
    stage: Stage,
    countryCode: Option<string>)

  /** The `(status, result)` pairs the manager returns. */
  datatype Reply = CodeSent | PasswordNeeded | VerifiedAndSecured | Error(message: string)

  /** The provider's answer to `start_verification`: a code was sent, or an
      exception was raised before or after the temporary file was created. */
  datatype SendCodeOutcome =
    | CodeRequested(phoneCodeHash: string)
    | FailedBeforeTempFile(message: string)
    | FailedAfterTempFile(message: string)

  /** The provider's answer to `sign_in(code=...)`. */
  datatype SignInOutcome = SignedIn | PasswordRequired | SignInFailed(message: string)

  /** The provider's answer to `edit_2fa`: truthy, falsy, or an exception. */
  datatype TwoFaOutcome = TwoFaChanged | TwoFaRefused | TwoFaRaised(message: string)

  class SessionManager {
    /** `SESSIONS_DIR` */
    const sessionsDir: Path
    /** `self.user_states` */
    var userStates: map<UserId, SessionState>
    /** the session files on disk and their sizes */
    var files: map<Path, nat>
    /** the module-level `DATABASE_ERROR_COUNT` */
    var databaseErrorCount: int

    ghost predicate Valid()
      reads this
    {
      databaseErrorCount >= 0
    }

    constructor (sessionsDir: Path, files: map<Path, nat>)
      ensures Valid()
      ensures this.sessionsDir == sessionsDir && this.files == files
      ensures userStates == map[] && databaseErrorCount == 0
    {
      this.sessionsDir := sessionsDir;
      this.files := files;
      userStates := map[];
      databaseErrorCount := 0;
    }

    /** `start_verification`: on success the user's entry is replaced by a fresh
        one awaiting the code; an exception stores nothing, though a temporary
        file it created stays on disk. `fileSize` is the size of the temporary
        session file once the client has opened it. */
    method StartVerification(user: UserId, phone: Phone, countries: map<string, Country>,
                             tempName: string, fileSize: nat, outcome: SendCodeOutcome) returns (r: Reply)
      modifies this`userStates, this`files
      ensures outcome.CodeRequested? ==>
        && r == CodeSent
        && userStates == old(userStates)[user := SessionState(phone, TempPath(sessionsDir, phone, countries, tempName),
                                                              outcome.phoneCodeHash, AwaitingCode, GetCountryCode(phone, countries))]
        && files == old(files)[TempPath(sessionsDir, phone, countries, tempName) := fileSize]
      ensures outcome.FailedBeforeTempFile? ==>
        r == Error(outcome.message) && userStates == old(userStates) && files == old(files)
      ensures outcome.FailedAfterTempFile? ==>
        && r == Error(outcome.message) && userStates == old(userStates)
        && files == old(files)[TempPath(sessionsDir, phone, countries, tempName) := fileSize]
    {
      if outcome.FailedBeforeTempFile? {
        return Error(outcome.message);
      }
      var code := GetCountryCode(phone, countries);
      var temp := TempPath(sessionsDir, phone, countries, tempName);
      files := files[temp := fileSize];
      match outcome
      case FailedAfterTempFile(m) =>
        r := Error(m);
      case CodeRequested(hash) =>
        userStates := userStates[user := SessionState(phone, temp, hash, AwaitingCode, code)];
        r := CodeSent;
    }

    /** `logout_other_devices`: with at most one authorization nothing is
        revoked and the answer is True; otherwise every non-current
        authorization is revoked in turn and the answer is whether exactly one
        remains; any exception makes it False. Returns the revoked hashes. */
    method LogoutOtherDevices(d: DeviceReplies) returns (ok: bool, revoked: seq<int>)
      ensures d.listing.None? ==> !ok && revoked == []
      ensures d.listing.Some? && |d.listing.value| <= 1 ==> ok && revoked == []
      ensures d.listing.Some? && |d.listing.value| > 1 ==>
        match RevokeFailure(d.listing.value, d.revokeFailsAt)
        case Some(k) => !ok && revoked == OtherDevices(d.listing.value[..k])
        case None => revoked == OtherDevices(d.listing.value) && (ok <==> d.remaining == Some(1))
    {
      if d.listing.None? {
        return false, [];
      }
      var sessions := d.listing.value;
      if |sessions| <= 1 {
        return true, [];
      }
      revoked := [];
      var i := 0;
      while i < |sessions|
        invariant 0 <= i <= |sessions|
        invariant revoked == OtherDevices(sessions[..i])
        invariant RevokeFailure(sessions, d.revokeFailsAt).Some? ==> RevokeFailure(sessions, d.revokeFailsAt).value >= i
      {
        OtherDevicesStep(sessions, i);
        if !sessions[i].current {
          if d.revokeFailsAt == Some(i) {
            return false, revoked;
          }
          revoked := revoked + [sessions[i].hash];
        }
        i := i + 1;
      }
      assert sessions[..i] == sessions;
      ok := d.remaining == Some(1);
    }

    /** `_save_session`: `saveFault` is the text of an exception raised while
        saving (before anything is renamed); otherwise the temporary file, if
        it still exists, is moved to the session path. */
    method SaveSession(st: SessionState, countries: map<string, Country>, saveFault: Option<string>) returns (saved: bool)
      modifies this`files
      ensures saved == saveFault.None?
      ensures files == if saved then RenameIfExists(old(files), st.sessionPath, SessionPath(sessionsDir, st.phone, countries))
                       else old(files)
    {
      if saveFault.Some? {
        return false;
      }
      files := RenameIfExists(files, st.sessionPath, SessionPath(sessionsDir, st.phone, countries));
      saved := true;
    }

    /** `verify_code`: no entry means the session expired; a second-factor
        prompt moves the entry to awaiting the password; any other sign-in
        error deletes the temporary file. After a sign-in the 2FA password is
        set, other devices are logged out (their answer is not looked at) and
        the session is saved. The entry itself is never removed here. */
    method VerifyCode(user: UserId, countries: map<string, Country>, signIn: SignInOutcome,
                      twoFa: TwoFaOutcome, devices: DeviceReplies, saveFault: Option<string>) returns (r: Reply)
      modifies this`userStates, this`files
      ensures user !in old(userStates) ==>
        r == Error("Session expired") && userStates == old(userStates) && files == old(files)
      ensures user in old(userStates) ==>
        var st := old(userStates)[user];
        match signIn
        case PasswordRequired =>
          r == PasswordNeeded && userStates == old(userStates)[user := st.(stage := AwaitingPassword)] && files == old(files)
        case SignInFailed(m) =>
          r == Error(m) && userStates == old(userStates) && files == old(files) - {st.sessionPath}
        case SignedIn =>
          && userStates == old(userStates)
          && (r == VerifiedAndSecured <==> twoFa == TwoFaChanged && saveFault.None?)
          && files == if r == VerifiedAndSecured
                      then RenameIfExists(old(files), st.sessionPath, SessionPath(sessionsDir, st.phone, countries))
                      else old(files)
    {
      if user !in userStates {
        return Error("Session expired");
      }
      var st := userStates[user];
      match signIn
      case PasswordRequired =>
        userStates := userStates[user := st.(stage := AwaitingPassword)];
        r := PasswordNeeded;
      case SignInFailed(m) =>
        if st.sessionPath in files {
          files := files - {st.sessionPath};
        }
        r := Error(m);
      case SignedIn =>
        match twoFa
        case TwoFaRefused =>
          r := Error("Failed to set initial 2FA");
        case TwoFaRaised(m) =>
          r := Error("2FA setup failed: " + m);
        case TwoFaChanged =>
          var _, _ := LogoutOtherDevices(devices);
          var saved := SaveSession(st, countries, saveFault);
          r := if saved then VerifiedAndSecured else Error("2FA setup failed: " + saveFault.value);
    }

    /** `verify_password`: no entry means the session expired; a wrong password
        changes nothing, so the entry keeps waiting for the password. A right
        one updates the 2FA password, logs other devices out and saves. */
    method VerifyPassword(user: UserId, countries: map<string, Country>, passwordOk: bool,
                          twoFa: TwoFaOutcome, devices: DeviceReplies, saveFault: Option<string>) returns (r: Reply)
      modifies this`files
      ensures user !in userStates ==> r == Error("Session expired") && files == old(files)
      ensures user in userStates && !passwordOk ==>
        r == Error("Current 2FA password is incorrect.") && files == old(files)
      ensures (r == VerifiedAndSecured) <==> user in userStates && passwordOk && twoFa == TwoFaChanged && saveFault.None?
      ensures files == if r == VerifiedAndSecured
                       then RenameIfExists(old(files), userStates[user].sessionPath, SessionPath(sessionsDir, userStates[user].phone, countries))
                       else old(files)
    {
      if user !in userStates {
        return Error("Session expired");
      }
      var st := userStates[user];
      if !passwordOk {
        return Error("Current 2FA password is incorrect.");
      }
      match twoFa
      case TwoFaRefused =>
        r := Error("Failed to update 2FA password");
      case TwoFaRaised(m) =>
        r := Error("2FA update failed: " + m);
      case TwoFaChanged =>
        var _, _ := LogoutOtherDevices(devices);
        var saved := SaveSession(st, countries, saveFault);
        r := if saved then VerifiedAndSecured else Error("2FA update failed: " + saveFault.value);
    }

    /** `finalize_session`: False without an entry; otherwise saves the session
        and, when that succeeds, drops the user's entry. */
    method FinalizeSession(user: UserId, countries: map<string, Country>, saveFault: Option<string>) returns (ok: bool)
      modifies this`userStates, this`files
      ensures ok <==> user in old(userStates) && saveFault.None?
      ensures userStates == if ok then old(userStates) - {user} else old(userStates)
      ensures files == if ok
                       then RenameIfExists(old(files), old(userStates)[user].sessionPath, SessionPath(sessionsDir, old(userStates)[user].phone, countries))
                       else old(files)
    {
      if user !in userStates {
        return false;
      }
      ok := SaveSession(userStates[user], countries, saveFault);
      if ok {
        userStates := userStates - {user};
      }
    }

    /** `cleanup_session`: the entry goes whether or not the client disconnects. */
    method CleanupSession(user: UserId)
      modifies this`userStates
      ensures userStates == old(userStates) - {user}
    {
      userStates := userStates - {user};
    }

    /** `validate_session_before_reward`: the verdict of `ValidationOf`, with
        the database error counter updated as it says. */
    method ValidateSessionBeforeReward(phone: Phone, countries: map<string, Country>, env: ValidationEnv) returns (r: ValidationResult)
      requires Valid()
      modifies this`databaseErrorCount
      ensures Valid()
      ensures (r, databaseErrorCount) == ValidationOf(files, sessionsDir, old(databaseErrorCount), phone, countries, env)
    {
      if env.pathFault.Some? {
        return Raised(env.pathFault.value);
      }
      var path := SessionPath(sessionsDir, phone, countries);
      var d := DecideValidation(if path in files then Some(files[path]) else None, databaseErrorCount, env);
      databaseErrorCount := d.1;
      r := Returned(d.0);
    }
  }
}
