/** The phone-number flow of otp.py: the format filter and the intake checks
    of a typed phone number, the registry of background reward tasks, the
    hand-over of a verified account, and the background task that waits for
    the claim time, validates the session and pays the reward.

    Time is the task's own clock in whole seconds; provider calls and store
    writes take no time on it. A concurrent `/cancel` is the second
    `cancelAt` at which the task's cancel event becomes set. */
module Otp {
  import opened Common
  import opened Store
  import opened CountryLookup
  import opened Sessions

  // ----- Phone format ----------------------------------------------------------

  predicate IsDigit(c: char) { '0' <= c <= '9' }

  predicate AllDigits(s: string) {
    forall i :: 0 <= i < |s| ==> IsDigit(s[i])
  }

  /** `s` matches `^\+\d{1,4}\d{6,14}$` with the first group taking `k` digits. */
  predicate MatchesWithCodeLength(s: string, k: int) {
    1 <= k <= 4 && |s| >= 1 + k && s[0] == '+' && AllDigits(s[1..]) && 6 <= |s| - 1 - k <= 14
  }

  /** Whether the regular expression `PHONE_REGEX` matches the whole of `s`. */
  predicate MatchesPhoneRegex(s: string) {
    exists k :: 1 <= k <= 4 && MatchesWithCodeLength(s, k)
  }

  /** The test `PHONE_REGEX.match(s)` as a length check: a `+` and then 7 to 18 digits. */
  function IsPhoneNumber(s: string): (r: bool)
    ensures r <==> MatchesPhoneRegex(s)
  {
    if |s| >= 1 && s[0] == '+' && AllDigits(s[1..]) && 7 <= |s| - 1 <= 18 then
      assert MatchesWithCodeLength(s, if |s| - 15 >= 1 then |s| - 15 else 1);
      true
    else
      false
  }

  // ----- Intake of a phone number --------------------------------------------

  datatype IntakeRejection = NumberUsed | InvalidCountryCode | CountryNotSupported | NoCapacity

  datatype Intake = Accepted(code: string, country: Country) | Rejected(reason: IntakeRejection)

  /** The checks `handle_phone_number` makes before asking for a code, in
      their order: the number is unclaimed, it has a known country code, and
      that country has capacity left. */
  function CheckIntake(phone: Phone, used: map<Phone, UserId>, countries: map<string, Country>): (r: Intake)
    ensures r == Rejected(NumberUsed) <==> phone in used
    ensures phone !in used && phone != [] ==>
      (r == Rejected(InvalidCountryCode) <==> forall k :: 1 <= k <= 4 ==> Prefix(phone, k) !in countries)
    ensures r != Rejected(CountryNotSupported)
    ensures r.Accepted? ==>
      && phone !in used
      && Some(r.code) == GetCountryCode(phone, countries)
      && r.code in countries && r.country == countries[r.code]
      && r.country.Capacity() > 0
    ensures r == Rejected(NoCapacity) ==>
      exists k :: 1 <= k <= 4 && Prefix(phone, k) in countries && countries[Prefix(phone, k)].Capacity() <= 0
  {
    if phone in used then Rejected(NumberUsed)
    else
      var code := GetCountryCode(phone, countries);
      if code.None? || code.value == "" then Rejected(InvalidCountryCode)
      else if code.value !in countries then Rejected(CountryNotSupported)
      else if countries[code.value].Capacity() <= 0 then Rejected(NoCapacity)
      else Accepted(code.value, countries[code.value])
  }

  /** Once a reward has claimed a number, a new attempt with it is refused first thing. */
  lemma ClaimedNumberIsRefused(phone: Phone, used: map<Phone, UserId>, u: UserId, countries: map<string, Country>)
    ensures CheckIntake(phone, used[phone := u], countries) == Rejected(NumberUsed)
  {
  }

  /** A country with capacity under the longest matching prefix is enough to be accepted. */
  lemma KnownCountryWithCapacityIsAccepted(phone: Phone, used: map<Phone, UserId>, countries: map<string, Country>, k: int)
    requires phone !in used && |phone| >= 4 && 1 <= k <= 4
    requires Prefix(phone, k) in countries && countries[Prefix(phone, k)].Capacity() > 0
    requires forall j :: k < j <= 4 ==> Prefix(phone, j) !in countries
    ensures CheckIntake(phone, used, countries) == Accepted(Prefix(phone, k), countries[Prefix(phone, k)])
  {
    var code := GetCountryCode(phone, countries);
    var k' :| 1 <= k' <= 4 && code.value == Prefix(phone, k') && forall j :: k' < j <= 4 ==> Prefix(phone, j) !in countries;
    assert k' == k;
  }

  /** The user fields `handle_phone_number` writes once the code is sent. */
  function PendingPatch(phone: Phone, replyId: int, code: string): (p: UserPatch)
    ensures p.pendingPhone == Some(Some(phone)) && p.otpMsgId == Some(Some(replyId)) && p.countryCode == Some(Some(code))
    ensures p.balance.None? && p.sentAccounts.None?
  {
    UserPatch(None, None, Some(Some(phone)), Some(Some(replyId)), Some(Some(code)))
  }

  datatype PhoneReply = NotHandled | Refused(reason: IntakeRejection) | OtpPrompt | StartFailed(message: string)

  /** `handle_phone_number`, with its message filter: a text that is not a
      phone number once stripped is not handled. An accepted number starts a
      verification; only when the code was sent are the pending phone, the id
      of the prompt (`replyId`) and the country code stored on the user. */
  method HandlePhoneNumber(db: Db, sm: SessionManager, user: UserId, text: string,
                           tempName: string, fileSize: nat, outcome: SendCodeOutcome, replyId: int) returns (r: PhoneReply)
    modifies db`users, sm`userStates, sm`files
    ensures !IsPhoneNumber(Strip(text)) ==>
      r == NotHandled && db.users == old(db.users) && sm.userStates == old(sm.userStates) && sm.files == old(sm.files)
    ensures IsPhoneNumber(Strip(text)) && CheckIntake(Strip(text), db.usedNumbers, db.countries).Rejected? ==>
      && r == Refused(CheckIntake(Strip(text), db.usedNumbers, db.countries).reason)
      && db.users == old(db.users) && sm.userStates == old(sm.userStates) && sm.files == old(sm.files)
    ensures IsPhoneNumber(Strip(text)) && CheckIntake(Strip(text), db.usedNumbers, db.countries).Accepted? ==>
      var phone := Strip(text);
      var code := CheckIntake(phone, db.usedNumbers, db.countries).code;
      var temp := TempPath(sm.sessionsDir, phone, db.countries, tempName);
      && (r == OtpPrompt <==> outcome.CodeRequested?)
      && (!outcome.CodeRequested? ==> r == StartFailed(outcome.message))
      && db.users == (if outcome.CodeRequested? then Updated(old(db.users), user, PendingPatch(phone, replyId, code)) else old(db.users))
      && sm.userStates == (if outcome.CodeRequested?
                           then old(sm.userStates)[user := SessionState(phone, temp, outcome.phoneCodeHash, AwaitingCode, Some(code))]
                           else old(sm.userStates))
      && sm.files == (if outcome.FailedBeforeTempFile? then old(sm.files) else old(sm.files)[temp := fileSize])
  {
    var phone := Strip(text);
    if !IsPhoneNumber(phone) {
      return NotHandled;
    }
    var intake := CheckIntake(phone, db.usedNumbers, db.countries);
    if intake.Rejected? {
      return Refused(intake.reason);
    }
    var status := sm.StartVerification(user, phone, db.countries, tempName, fileSize, outcome);
    if status == CodeSent {
      var _ := db.UpdateUser(user, PendingPatch(phone, replyId, intake.code), true);
      r := OtpPrompt;
    } else {
      r := StartFailed(status.message);
    }
  }

  // ----- Registry of background tasks ------------------------------------------

  /** An entry of `background_threads`: whether its cancel event is set, and its phone. */
  datatype TaskEntry = TaskEntry(cancelSet: bool, phone: Phone)

  /** `background_threads` with the operations that take `thread_lock`. The
      `cancelSet` flag that `Cancel` raises is the task's cancel event; the
      reward task itself meets that event as the second `RewardEnv.cancelAt`
      at which it becomes set, so the flag and that second stand for one and
      the same `/cancel`. */
  class Registry {
    var threads: map<UserId, TaskEntry>

    constructor ()
      ensures threads == map[]
    {
      threads := map[];
    }

    /** A task registers itself under its user, replacing any older entry. */
    method Register(user: UserId, phone: Phone)
      modifies this`threads
      ensures threads == old(threads)[user := TaskEntry(false, phone)]
    {
      threads := threads[user := TaskEntry(false, phone)];
    }

    /** `cancel_background_verification`: sets the cancel event of the user's
        task and reports its phone; the entry stays until the task cleans up. */
    method Cancel(user: UserId) returns (found: bool, phone: Option<Phone>)
      modifies this`threads
      ensures found <==> user in old(threads)
      ensures found ==> phone == Some(old(threads)[user].phone)
                        && threads == old(threads)[user := old(threads)[user].(cancelSet := true)]
      ensures !found ==> phone == None && threads == old(threads)
    {
      if user in threads {
        var e := threads[user];
        threads := threads[user := e.(cancelSet := true)];
        return true, Some(e.phone);
      }
      return false, None;
    }

    /** `cleanup_background_thread`: drops the user's entry, whichever task
        wrote it, and returns its phone. */
    method Cleanup(user: UserId) returns (phone: Option<Phone>)
      modifies this`threads
      ensures threads == old(threads) - {user}
      ensures phone == if user in old(threads) then Some(old(threads)[user].phone) else None
    {
      if user in threads {
        phone := Some(threads[user].phone);
        threads := threads - {user};
      } else {
        phone := None;
      }
    }
  }

  /** Two tasks of one user: the second registration overwrites the first, so
      a cancel reaches only the second task and the first can still pay; the
      first task to finish then removes the entry, which a later cancel no
      longer reaches. */
  method StaleCleanupScenario(reg: Registry, user: UserId)
    returns (cancelled: bool, cancelledPhone: Option<Phone>, gone: Option<Phone>, laterFound: bool)
    modifies reg`threads
    ensures cancelled && cancelledPhone == Some("+15550000002")
    ensures gone == Some("+15550000002")
    ensures !laterFound && user !in reg.threads
  {
    reg.Register(user, "+15550000001");
    reg.Register(user, "+15550000002");
    cancelled, cancelledPhone := reg.Cancel(user);
    gone := reg.Cleanup(user);
    var laterPhone;
    laterFound, laterPhone := reg.Cancel(user);
  }

  /** A `/cancel` that arrives after the task has started but before it has
      registered finds nothing, and the task then registers uncancelled. */
  method EarlyCancelScenario(reg: Registry, user: UserId, phone: Phone) returns (found: bool)
    requires user !in reg.threads
    modifies reg`threads
    ensures !found
    ensures user in reg.threads && !reg.threads[user].cancelSet
  {
    var phoneFound;
    found, phoneFound := reg.Cancel(user);
    reg.Register(user, phone);
  }

  // ----- Hand-over of a verified account --------------------------------------------

  /** What `background_reward_process` captures from `process_successful_verification`:
      the user record read there (`snapshot`) is the one the reward is computed from. */
  datatype RewardTask = RewardTask(user: UserId, phone: Phone, price: real, claimTime: int, pendingId: nat, snapshot: User)

  datatype HandOver = NumberClaimed | CountryDataMissing | AccountReceived(task: RewardTask)

  /** The country key `process_successful_verification` looks up: the user's
      stored country code, else the first three characters of the phone. */
  function HandOverCountryKey(snapshot: User, phone: Phone): (key: string)
    ensures snapshot.countryCode.Some? ==> key == snapshot.countryCode.value
    ensures snapshot.countryCode.None? ==> key <= phone && |key| == if |phone| < 3 then |phone| else 3
  {
    snapshot.countryCode.GetOr(Prefix(phone, 3))
  }

  /** `process_successful_verification` up to starting the background task:
      a claimed number or a missing country stops it; otherwise the session
      is finalized (its result is not looked at), a pending-number row is added
      and the task to run is returned. */
  method ProcessSuccessfulVerification(db: Db, sm: SessionManager, user: UserId, phone: Phone, saveFault: Option<string>)
    returns (r: HandOver)
    modifies db`pendingNumbers, sm`userStates, sm`files
    ensures phone in db.usedNumbers ==>
      r == NumberClaimed && db.pendingNumbers == old(db.pendingNumbers)
      && sm.userStates == old(sm.userStates) && sm.files == old(sm.files)
    ensures phone !in db.usedNumbers && HandOverCountryKey(UserOrDefault(db.users, user), phone) !in db.countries ==>
      r == CountryDataMissing && db.pendingNumbers == old(db.pendingNumbers)
      && sm.userStates == old(sm.userStates) && sm.files == old(sm.files)
    ensures r.AccountReceived? <==>
      phone !in db.usedNumbers && HandOverCountryKey(UserOrDefault(db.users, user), phone) in db.countries
    ensures r.AccountReceived? ==>
      var snapshot := UserOrDefault(db.users, user);
      var country := db.countries[HandOverCountryKey(snapshot, phone)];
      var finalized := user in old(sm.userStates) && saveFault.None?;
      && r.task == RewardTask(user, phone, country.Price(), country.ClaimTime(), |old(db.pendingNumbers)|, snapshot)
      && db.pendingNumbers == old(db.pendingNumbers) + [PendingNumber(user, phone, country.Price(), country.ClaimTime(), Waiting)]
      && sm.userStates == (if finalized then old(sm.userStates) - {user} else old(sm.userStates))
      && sm.files == (if finalized
                      then RenameIfExists(old(sm.files), old(sm.userStates)[user].sessionPath,
                                          SessionPath(sm.sessionsDir, old(sm.userStates)[user].phone, db.countries))
                      else old(sm.files))
  {
    var snapshot := UserOrDefault(db.users, user);
    if db.IsUsed(phone) {
      return NumberClaimed;
    }
    var key := HandOverCountryKey(snapshot, phone);
    if key !in db.countries {
      return CountryDataMissing;
    }
    var country := db.countries[key];
    var _ := sm.FinalizeSession(user, db.countries, saveFault);
    var id := db.AddPendingNumber(user, phone, country.Price(), country.ClaimTime());
    r := AccountReceived(RewardTask(user, phone, country.Price(), country.ClaimTime(), id, snapshot));
  }

  // ----- The background reward task ------------------------------------------------

  /** `max(10, claim_time - 10)`: how long the task waits before validating. */
  function WaitTime(claimTime: int): (w: nat)
    ensures w >= 10 && w >= claimTime - 10
    ensures w == 10 || w == claimTime - 10
  {
    if claimTime - 10 >= 10 then claimTime - 10 else 10
  }

  /** The wait loop looks at the cancel event at every even second; a cancel
      set at second `c` is first seen at this one. */
  function FirstCheckAfter(c: nat): (t: nat)
    ensures c <= t <= c + 1 && t % 2 == 0
  {
    c + c % 2
  }

  /** Whether the cancel event is set at second `t`. */
  predicate CancelledBy(cancelAt: Option<nat>, t: int) {
    cancelAt.Some? && cancelAt.value <= t
  }

  /** The wait loop of `background_reward_process`: sleeps of at most two
      seconds until `wait` seconds have passed, looking at the cancel event
      before each. Returns the seconds waited, whether it stopped for a cancel,
      and the sleeps it made. */
  method WaitForClaim(wait: nat, cancelAt: Option<nat>) returns (elapsed: nat, cancelled: bool, sleeps: seq<int>)
    ensures cancelled <==> cancelAt.Some? && FirstCheckAfter(cancelAt.value) < wait
    ensures cancelled ==> elapsed == FirstCheckAfter(cancelAt.value)
    ensures !cancelled ==> elapsed == wait
    ensures forall i :: 0 <= i < |sleeps| ==> 1 <= sleeps[i] <= 2
    ensures Sum(sleeps) == elapsed
  {
    elapsed, cancelled, sleeps := 0, false, [];
    while elapsed < wait
      invariant elapsed <= wait
      invariant elapsed % 2 == 0 || elapsed == wait
      invariant cancelAt.Some? ==> FirstCheckAfter(cancelAt.value) >= elapsed
      invariant forall i :: 0 <= i < |sleeps| ==> 1 <= sleeps[i] <= 2
      invariant Sum(sleeps) == elapsed
      decreases wait - elapsed
    {
      if CancelledBy(cancelAt, elapsed) {
        cancelled := true;
        return;
      }
      var step := if wait - elapsed < 2 then wait - elapsed else 2;
      assert (sleeps + [step])[..|sleeps|] == sleeps;
      sleeps := sleeps + [step];
      elapsed := elapsed + step;
    }
  }

  /** How the task reads the validation: a verdict of valid, or an exception
      whose text mentions "database", lets it go on. */
  function PassesValidation(v: ValidationResult): (ok: bool)
    ensures ok <==> v == Returned(Valid) || v == Raised(DatabaseError)
  {
    match v
    case Returned(verdict) => verdict == Valid
    case Raised(kind) => kind == DatabaseError
  }

  /** Where a cancel stopped the task: in the wait loop, at the check before
      validation, or at the check before the reward. */
  datatype Checkpoint = DuringWait | BeforeValidation | BeforeReward

  datatype RewardOutcome =
    | Cancelled(at: Checkpoint)
    | ValidationFailed
    | MultipleDevices
    | BalanceNotUpdated
    | Rewarded
    | SystemError

  /** Whether the outcome marks the number used and the pending row successful. */
  predicate MarksNumber(r: RewardOutcome) {
    r == Rewarded || r == BalanceNotUpdated
  }

  /** The outcome of the task, taking the device check to be what its
      comments describe: log the other devices out, wait two seconds and
      count the devices still logged in (`devices`). `writeOk` is whether the
      store accepts the balance write. */
  function RewardOutcomeOf(wait: nat, cancelAt: Option<nat>, v: ValidationResult, devices: int, writeOk: bool): (r: RewardOutcome)
    ensures r == Rewarded <==>
      PassesValidation(v) && devices == 1 && writeOk && !CancelledBy(cancelAt, wait + 2)
    ensures MarksNumber(r) <==>
      PassesValidation(v) && devices == 1 && !CancelledBy(cancelAt, wait + 2)
    ensures r.Cancelled? <==>
      CancelledBy(cancelAt, wait) || (PassesValidation(v) && devices == 1 && CancelledBy(cancelAt, wait + 2))
    ensures r == Cancelled(DuringWait) <==> cancelAt.Some? && FirstCheckAfter(cancelAt.value) < wait
    ensures r == ValidationFailed <==> !CancelledBy(cancelAt, wait) && !PassesValidation(v)
    ensures r != SystemError
  {
    if cancelAt.Some? && FirstCheckAfter(cancelAt.value) < wait then Cancelled(DuringWait)
    else if CancelledBy(cancelAt, wait) then Cancelled(BeforeValidation)
    else if !PassesValidation(v) then ValidationFailed
    else if devices != 1 then MultipleDevices
    else if CancelledBy(cancelAt, wait + 2) then Cancelled(BeforeReward)
    else if writeOk then Rewarded
    else BalanceNotUpdated
  }

  /** The task as otp.py writes it. The `import time` inside the task makes
      `time` a local name of the whole function, so the first `time.sleep` of
      the wait loop raises; the outer handler reports a system error. With no
      wait the loop is skipped, and a valid session reaches
      `logout_all_devices`, which the session manager does not have. */
  function RewardOutcomeAsWritten(wait: nat, cancelAt: Option<nat>, v: ValidationResult): (r: RewardOutcome)
    ensures !MarksNumber(r)
    ensures wait > 0 ==> (r == SystemError <==> !CancelledBy(cancelAt, 0))
    ensures !CancelledBy(cancelAt, 0) && PassesValidation(v) ==> r == SystemError
  {
    if wait > 0 then
      if CancelledBy(cancelAt, 0) then Cancelled(DuringWait) else SystemError
    else if CancelledBy(cancelAt, 0) then Cancelled(BeforeValidation)
    else if !PassesValidation(v) then ValidationFailed
    else SystemError
  }

  /** The task with the import moved out of it but the device calls as
      written: `logout_all_devices` and `get_logged_in_device_count` are not
      methods of the session manager, so every session that passes
      validation ends in the outer handler's system error. */
  function RewardOutcomeWithoutDeviceMethods(wait: nat, cancelAt: Option<nat>, v: ValidationResult): (r: RewardOutcome)
    ensures !MarksNumber(r)
    ensures PassesValidation(v) && !CancelledBy(cancelAt, wait) ==> r == SystemError
    ensures r != SystemError ==> forall d, w :: r == RewardOutcomeOf(wait, cancelAt, v, d, w)
  {
    if cancelAt.Some? && FirstCheckAfter(cancelAt.value) < wait then Cancelled(DuringWait)
    else if CancelledBy(cancelAt, wait) then Cancelled(BeforeValidation)
    else if !PassesValidation(v) then ValidationFailed
    else SystemError
  }

  /** The default country (claim time 600), no cancel, a valid session on one
      device: the intended task pays, both written versions do not. */
  lemma AsWrittenWithholdsTheReward()
    ensures WaitTime(600) == 590
    ensures RewardOutcomeOf(WaitTime(600), None, Returned(Valid), 1, true) == Rewarded
    ensures RewardOutcomeAsWritten(WaitTime(600), None, Returned(Valid)) == SystemError
    ensures RewardOutcomeWithoutDeviceMethods(WaitTime(600), None, Returned(Valid)) == SystemError
  {
  }

  /** The user fields the reward writes: computed from the snapshot taken at
      hand-over, not from the record as it is when the reward is paid. */
  function RewardPatch(t: RewardTask): (p: UserPatch)
    ensures p.balance == Some(t.snapshot.balance + t.price)
    ensures p.sentAccounts == Some(t.snapshot.sentAccounts + 1)
    ensures p.pendingPhone == Some(None) && p.otpMsgId == Some(None) && p.countryCode.None?
  {
    UserPatch(Some(t.snapshot.balance + t.price), Some(t.snapshot.sentAccounts + 1), Some(None), Some(None), None)
  }

  /** A payment credits exactly the price when the record did not change since
      the hand-over; any balance change in between is overwritten. */
  lemma RewardCreditsThePrice(users: map<UserId, User>, t: RewardTask)
    ensures Updated(users, t.user, RewardPatch(t))[t.user].balance == t.snapshot.balance + t.price
    ensures UserOrDefault(users, t.user) == t.snapshot ==>
      Updated(users, t.user, RewardPatch(t))[t.user].balance == UserOrDefault(users, t.user).balance + t.price
  {
  }

  /** The commit of the task: the number is marked used, the pending row
      successful, and the user paid when the store accepts the write. */
  method CommitReward(db: Db, task: RewardTask, writeOk: bool) returns (outcome: RewardOutcome)
    modifies db`usedNumbers, db`pendingNumbers, db`users
    ensures outcome == if writeOk then Rewarded else BalanceNotUpdated
    ensures db.usedNumbers == old(db.usedNumbers)[task.phone := task.user]
    ensures db.pendingNumbers == WithStatus(old(db.pendingNumbers), task.pendingId, Success)
    ensures db.users == if writeOk then Updated(old(db.users), task.user, RewardPatch(task)) else old(db.users)
  {
    db.MarkNumberUsed(task.phone, task.user);
    db.UpdatePendingNumberStatus(task.pendingId, Success);
    var ok := db.UpdateUser(task.user, RewardPatch(task), writeOk);
    outcome := if ok then Rewarded else BalanceNotUpdated;
  }

  /** What the task meets while it runs: when the cancel event is set, the
      validation's environment, the devices left after logging the others
      out, and whether the balance write is accepted. */
  datatype RewardEnv = RewardEnv(cancelAt: Option<nat>, validation: ValidationEnv, devicesAfterLogout: int, balanceWriteOk: bool)

  /** `background_reward_process`, with the device check as intended: the
      outcome is `RewardOutcomeOf`; the number is marked used and the pending
      row successful exactly when the outcome says so, the user is paid only
      when rewarded, and the registry entry of the user is gone at the end. */
  method BackgroundRewardProcess(db: Db, sm: SessionManager, reg: Registry, task: RewardTask, env: RewardEnv)
    returns (outcome: RewardOutcome)
    requires sm.Valid()
    modifies db`usedNumbers, db`pendingNumbers, db`users, sm`databaseErrorCount, reg`threads
    ensures sm.Valid()
    ensures reg.threads == old(reg.threads) - {task.user}
    ensures var wait := WaitTime(task.claimTime);
      var v := ValidationOf(sm.files, sm.sessionsDir, old(sm.databaseErrorCount), task.phone, db.countries, env.validation);
      && outcome == RewardOutcomeOf(wait, env.cancelAt, v.0, env.devicesAfterLogout, env.balanceWriteOk)
      && sm.databaseErrorCount == (if CancelledBy(env.cancelAt, wait) then old(sm.databaseErrorCount) else v.1)
    ensures db.usedNumbers == if MarksNumber(outcome) then old(db.usedNumbers)[task.phone := task.user] else old(db.usedNumbers)
    ensures db.pendingNumbers == if MarksNumber(outcome) then WithStatus(old(db.pendingNumbers), task.pendingId, Success)
                                 else old(db.pendingNumbers)
    ensures db.users == if outcome == Rewarded then Updated(old(db.users), task.user, RewardPatch(task)) else old(db.users)
  {
    reg.Register(task.user, task.phone);
    var wait := WaitTime(task.claimTime);
    var elapsed, cancelled, _ := WaitForClaim(wait, env.cancelAt);
    if cancelled {
      outcome := Cancelled(DuringWait);
    } else if CancelledBy(env.cancelAt, elapsed) {
      outcome := Cancelled(BeforeValidation);
    } else {
      var v := sm.ValidateSessionBeforeReward(task.phone, db.countries, env.validation);
      if !PassesValidation(v) {
        outcome := ValidationFailed;
      } else if env.devicesAfterLogout != 1 {
        outcome := MultipleDevices;
      } else if CancelledBy(env.cancelAt, elapsed + 2) {
        outcome := Cancelled(BeforeReward);
      } else {
        outcome := CommitReward(db, task, env.balanceWriteOk);
      }
    }
    var _ := reg.Cleanup(task.user);
  }

  /** A validation that raises a "database" error, which lets the task go on,
      with no cancel, one device left and the balance write accepted. */
  const PayingEnv := RewardEnv(None, ValidationEnv(Some(DatabaseError), None, true, false), 1, true)

  /** The reward tasks of two users for one phone: the commit does not look
      at the used numbers, so both pay. */
  method RewardBoth(db: Db, sm: SessionManager, reg: Registry, t1: RewardTask, t2: RewardTask)
    returns (first: RewardOutcome, second: RewardOutcome)
    requires sm.Valid() && t1.user != t2.user && t1.phone == t2.phone
    modifies db`usedNumbers, db`pendingNumbers, db`users, sm`databaseErrorCount, reg`threads
    ensures first == Rewarded && second == Rewarded
    ensures db.usedNumbers == old(db.usedNumbers)[t1.phone := t2.user]
    ensures db.users == Updated(Updated(old(db.users), t1.user, RewardPatch(t1)), t2.user, RewardPatch(t2))
  {
    first := BackgroundRewardProcess(db, sm, reg, t1, PayingEnv);
    second := BackgroundRewardProcess(db, sm, reg, t2, PayingEnv);
  }

  /** One number verified by two users before either reward is committed:
      only the hand-over checks whether the number is used, and the
      commit does not check again, so both tasks pay the price and the
      number ends up marked as the second user's. */
  method DoubleClaimScenario(db: Db, sm: SessionManager, reg: Registry, a: UserId, b: UserId, phone: Phone)
    returns (first: RewardOutcome, second: RewardOutcome)
    requires sm.Valid() && a != b && phone !in db.usedNumbers
    requires HandOverCountryKey(UserOrDefault(db.users, a), phone) in db.countries
    requires HandOverCountryKey(UserOrDefault(db.users, b), phone) in db.countries
    modifies db`usedNumbers, db`pendingNumbers, db`users, sm`userStates, sm`files, sm`databaseErrorCount, reg`threads
    ensures first == Rewarded && second == Rewarded
    ensures db.usedNumbers == old(db.usedNumbers)[phone := b]
    ensures var ua := UserOrDefault(old(db.users), a);
      a in db.users && db.users[a].balance == ua.balance + db.countries[HandOverCountryKey(ua, phone)].Price()
    ensures var ub := UserOrDefault(old(db.users), b);
      b in db.users && db.users[b].balance == ub.balance + db.countries[HandOverCountryKey(ub, phone)].Price()
  {
    var h1 := ProcessSuccessfulVerification(db, sm, a, phone, None);
    var h2 := ProcessSuccessfulVerification(db, sm, b, phone, None);
    first, second := RewardBoth(db, sm, reg, h1.task, h2.task);
  }

  /** A cancel set at or before the end of the wait always stops the task
      before it validates, and the loop notices it at most a second late. */
  lemma CancelBeforeValidationStopsTask(wait: nat, c: nat, v: ValidationResult, devices: int, writeOk: bool)
    requires c <= wait
    ensures RewardOutcomeOf(wait, Some(c), v, devices, writeOk) in {Cancelled(DuringWait), Cancelled(BeforeValidation)}
    ensures RewardOutcomeOf(wait, Some(c), v, devices, writeOk) == Cancelled(DuringWait) ==> FirstCheckAfter(c) <= c + 1
    ensures RewardOutcomeOf(wait, Some(c), v, devices, writeOk) == Cancelled(BeforeValidation) ==> wait <= c + 1
  {
  }
}
