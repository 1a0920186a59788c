# Phone-number selling bot: a Dafny model of its core

The bot pays users for Telegram accounts. A user sends a phone number. The bot
checks it and logs into the account through a one-time code and, if needed, a
second-factor password. It then sets its own 2FA password, logs the other
devices out and files the session under `<sessions>/<country code>/<phone>.session`.
A background task waits `max(10, claim_time - 10)` seconds, where the claim
time is the country's. It then checks the session again and pays the country's
price. Users turn their balance into withdrawal requests
tied to a "leader card". An admin settles all requests of one card with
`/paycard`.

This project models that core in Dafny and proves properties of the model:

- `common.dfy` (`Common`): Python's whitespace set, `str.strip`, and small helpers.
- `store.dfy` (`Store`): the records of the store and a `Db` class with the
  store operations the core calls. The store module itself is not part of
  this model; its operations are taken as sequential upserts and appends.
- `country_lookup.dfy` (`CountryLookup`): the country-code search shared by
  otp.py and telegram_otp.py.
- `sessions.dfy` (`Sessions`): the `SessionManager` class of telegram_otp.py.
  It covers session paths, the logins in progress, logging the other devices
  out, and the pre-reward validation with its module-level error counter and
  bypass mode.
- `otp.py` is modelled in `otp.dfy` (`Otp`): the phone filter, the intake
  checks, the registry of background tasks, the hand-over of a verified
  account and the background reward task.
- `withdraw.dfy` (`Withdraw`) and `paycard.dfy` (`Paycard`): the withdrawal
  request flow and the admin payout.

Provider answers (Telegram), file-system faults and store write results are
parameters of the operations that meet them. The file system is a map from
path to file size. The background task runs on its own clock in whole seconds
and only its sleeps take time. A concurrent `/cancel` is the second at which
the task's cancel event becomes set. Balances are `real`.

Two facts about the code that the model keeps:
- A failed `start_verification` can leave its temporary session file on disk.
  A successful one replaces the user's entry and leaves an earlier temporary
  file behind.
- `verify_code` and `verify_password` ignore the answer of
  `logout_other_devices`. A failed logout does not fail the verification.

## Model

| member | source | states |
|---|---|---|
| Common.Strip | withdraw.py:44 | the result neither starts nor ends with whitespace and is no longer than the input |
| Common.StripOfPadded | paycard.py:24 | stripping removes exactly the whitespace padding around a stripped text |
| Store.Updated | paycard.py:38 | `update_user` upserts: the user gets the patched record, created from the defaults when missing, and every other user is unchanged |
| Store.PendingByCard | paycard.py:25 | every returned row is pending for the card and comes from the table; each pending row of the card is returned exactly as many times as it occurs in the table |
| Store.ApproveByCard | paycard.py:46 | same length; exactly the card's pending rows become approved, all other rows are unchanged |
| Store.ApproveLeavesNonePending | paycard.py:46 | after approval no pending row is left for the card |
| Store.WithStatus | otp.py:372 | only the row with the given id changes, and only its status |
| Store.Db.MarkNumberUsed | otp.py:369 | the phone now maps to the user who claimed it |
| Store.Db.AddPendingNumber | otp.py:235 | one waiting row is appended and its id is its position |
| Store.Db.UpdatePendingNumberStatus | otp.py:372 | the pending-number table is `WithStatus` of the old one: only the row with that id gets the new status |
| Store.Db.ApproveWithdrawalsByCard | paycard.py:46 | the withdrawals table is `ApproveByCard` of the old one |
| Store.Db.UpdateUser | otp.py:376-386 | a write that succeeds upserts the patched user, a refused one changes nothing |
| Store.Db.LogWithdrawal | withdraw.py:53 | one pending withdrawal of the user, amount and card is appended |
| CountryLookup.Prefix | otp.py:88 | the result is a prefix of the input of length min(k, length) |
| CountryLookup.LongestKnownPrefix | otp.py:87-91 | the result is a known prefix of at most n characters with no longer known one; None exactly when none is known |
| CountryLookup.FindCountryCode | telegram_otp.py:18-26 | trying the lengths 4, 3, 2, 1 in turn and stopping at the first known prefix finds the longest known prefix |
| CountryLookup.GetCountryCode | otp.py:86-91 | the result is a known prefix of length 1 to 4 with no longer known prefix; None exactly when no such prefix is known; every known prefix is at most as long as the result |
| CountryLookup.LongerCodeWins | telegram_otp.py:18-26 | "+447911123456" with both "+44" and "+4" known resolves to "+44" |
| Sessions.Join | telegram_otp.py:33 | `os.path.join`: an absolute second part replaces the first; after a first part not ending in `/` one `/` is put between them |
| Sessions.CountryDir | telegram_otp.py:28-36 | no or an empty country code gives the sessions directory; otherwise the folder's name is the country code |
| Sessions.SessionPath | telegram_otp.py:38-42 | the session file is named after the phone plus ".session", whichever country folder it is in |
| Sessions.TempPath | telegram_otp.py:47-52 | the temporary file is named `tmp_<random>.session` and lies in the folder the finished session is moved into |
| Sessions.SessionPathLayout | telegram_otp.py:28-42 | a finished session lands in `<sessions>/<code>/<phone>.session`, or in `<sessions>/` when no code is known |
| Sessions.DistinctPhonesDistinctFiles | telegram_otp.py:38-42 | two different phone numbers never share a session file |
| Sessions.RenameIfExists | telegram_otp.py:183-184 | an existing temporary file moves to the final path with its size; a missing one changes nothing; other paths are untouched |
| Sessions.SecondSaveIsNoOp | telegram_otp.py:177-185 | saving a session a second time changes nothing |
| Sessions.OtherDevices | telegram_otp.py:161-163 | the revoked hashes are exactly those of the non-current authorizations |
| Sessions.EachOtherDeviceRevokedOnce | telegram_otp.py:161-163 | there are exactly as many revocations as non-current authorizations, so each other device is revoked once |
| Sessions.DecideValidation | telegram_otp.py:192-281 | missing file is invalid; bypass once over 3 errors with more than 500 bytes; file-based checks at 100 and 1000 bytes; a database fault adds one error and falls back to the 500-byte check or the bypass; another fault removes one error, never below zero |
| Sessions.ValidationOf | telegram_otp.py:187-281 | a fault computing the path escapes; a valid verdict implies the session file exists; the error counter never goes negative |
| Sessions.SessionManager.constructor | telegram_otp.py:15-16 | no login in progress and an error count of zero |
| Sessions.SessionManager.StartVerification | telegram_otp.py:44-67 | on a sent code the user's entry awaits the code with the temporary path and the country code; on an error nothing is stored, but a temporary file already created stays |
| Sessions.SessionManager.LogoutOtherDevices | telegram_otp.py:153-175 | true with at most one authorization; otherwise every other device is revoked in order, the answer is whether exactly one remains, and an exception stops the loop and answers false |
| Sessions.SessionManager.SaveSession | telegram_otp.py:177-185 | a save that does not raise moves the temporary file to the session path; a save that raises changes nothing |
| Sessions.SessionManager.VerifyCode | telegram_otp.py:69-96 | no entry means "Session expired"; a 2FA prompt moves the entry to awaiting the password; a sign-in error deletes the temporary file; success exactly when 2FA was set and the save worked, and only then is the file moved |
| Sessions.SessionManager.VerifyPassword | telegram_otp.py:98-119 | no entry means "Session expired"; a wrong password changes nothing; success exactly when the password is right, 2FA was updated and the save worked, and only then is the file moved |
| Sessions.SessionManager.FinalizeSession | telegram_otp.py:121-133 | true exactly when there is an entry and the save works; then the entry is dropped and the file moved, otherwise nothing changes |
| Sessions.SessionManager.CleanupSession | telegram_otp.py:135-151 | the user's entry is gone |
| Sessions.SessionManager.ValidateSessionBeforeReward | telegram_otp.py:187-281 | the verdict and the new error counter are those of `ValidationOf`; the counter stays non-negative |
| Otp.IsPhoneNumber | otp.py:43 | true exactly when the whole text matches `^\+\d{1,4}\d{6,14}$` for some split of the digits |
| Otp.CheckIntake | otp.py:105-125 | used numbers are refused first; then a number with no known prefix; "country not supported" never happens; an accepted number has the longest known code and a country with capacity |
| Otp.ClaimedNumberIsRefused | otp.py:109-111 | once a number is marked used, intake refuses it as used |
| Otp.KnownCountryWithCapacityIsAccepted | otp.py:86-125 | an unused number whose longest known prefix has capacity is accepted with that country |
| Otp.HandlePhoneNumber | otp.py:99-144 | texts that are not phone numbers once stripped are not handled; refusals change nothing; after an accepted number the verification is started and the pending phone, prompt id and country code are stored only when the code was sent |
| Otp.Registry.Register | otp.py:243-248 | the user's entry is replaced by a fresh one that is not cancelled |
| Otp.Registry.Cancel | otp.py:58-71 | found exactly when the user has a task; then its cancel flag is set and its phone returned, and the entry stays |
| Otp.Registry.Cleanup | otp.py:73-81 | the user's entry is gone and its phone, if any, returned |
| Otp.StaleCleanupScenario | otp.py:243-248 | after a user's second task registers over the first one's entry, a cancel (otp.py:58-71) reaches only the second phone, so the first task is out of reach; the first cleanup then removes the entry and a later cancel finds nothing |
| Otp.EarlyCancelScenario | otp.py:58-71 | a cancel before the task has registered finds nothing, and the task then registers (otp.py:243-248) with its cancel flag clear |
| Otp.PendingPatch | otp.py:136-140 | sets the pending phone, the prompt message id and the country code, and leaves balance and account count alone |
| Otp.HandOverCountryKey | otp.py:213 | the user's stored country code when there is one, else the phone's first three characters |
| Otp.ProcessSuccessfulVerification | otp.py:205-235 | a used number or a missing country stops it with nothing changed; otherwise a waiting pending row is added and the task takes the country's price and claim time and the user record as read now; the session is finalized when possible |
| Otp.WaitTime | otp.py:252 | max(10, claim time - 10) |
| Otp.FirstCheckAfter | otp.py:256-259 | the loop sees a cancel at the first even second not before it, at most one second late |
| Otp.WaitForClaim | otp.py:252-282 | stops for a cancel exactly when it is seen before the wait ends, at that check; otherwise waits exactly the wait time, in sleeps of one or two seconds that add up to it |
| Otp.PassesValidation | otp.py:290-304 | the task goes on exactly for a valid verdict or an exception that mentions "database" |
| Otp.RewardOutcomeOf | otp.py:238-386 | rewarded exactly when validation passes, one device remains, the write works and no cancel is set by two seconds after the wait; the number is marked exactly when the write is also attempted; cancellation and validation failure as checked in order; never a system error |
| Otp.RewardOutcomeAsWritten | otp.py:340 | as written the task never pays and never marks the number; unless cancelled at second 0 it ends in a system error |
| Otp.RewardOutcomeWithoutDeviceMethods | otp.py:338-343 | with the device calls as written, a session that passes validation ends in a system error; otherwise the outcome is the intended one |
| Otp.AsWrittenWithholdsTheReward | otp.py:338-343 | for claim time 600, no cancel and a valid one-device session, the intended task pays and both written versions end in a system error |
| Otp.RewardPatch | otp.py:374-381 | the new balance is the snapshot balance plus the price, sent accounts plus one, pending phone and prompt id cleared |
| Otp.CommitReward | otp.py:367-386 | the number is marked used by the user, the pending row is made successful, and the user is paid when the store accepts the write |
| Otp.RewardCreditsThePrice | otp.py:374-381 | the paid balance is the snapshot's plus the price; it is the current balance plus the price only if the record did not change |
| Otp.BackgroundRewardProcess | otp.py:238-419 | the outcome is `RewardOutcomeOf`; the number is marked and the pending row made successful exactly when that outcome says so; the user is paid only when rewarded; the error counter moves only if validation ran; the registry entry is gone at the end |
| Otp.RewardBoth | otp.py:366-381 | two reward tasks of different users for one phone both pay, and the number ends up marked as the second user's |
| Otp.DoubleClaimScenario | otp.py:209 | two users who verify the same number before either reward is committed are both handed over and both paid their price |
| Otp.CancelBeforeValidationStopsTask | otp.py:258-287 | a cancel set by the end of the wait stops the task before validation, at most a second after it was set |
| Withdraw.CheckWithdrawConditions | withdraw.py:16-22 | no error exactly when the balance is at least 1.0 and nothing is pending; the minimum is checked first |
| Withdraw.LoggedWithdrawalBlocksNext | withdraw.py:20-21 | after a withdrawal is logged, the next request of its user is refused |
| Withdraw.WithdrawFlow.constructor | withdraw.py:14 | no request is waiting |
| Withdraw.WithdrawFlow.HandleWithdraw | withdraw.py:24-38 | an error changes nothing; otherwise the balance is remembered while the card is awaited; every remembered balance passes the minimum |
| Withdraw.WithdrawFlow.HandleLeaderCardInput | withdraw.py:40-66 | only users awaiting a card are handled; an unknown card keeps the request; a known one logs one pending withdrawal of the remembered balance (at least 1.0) and forgets the request |
| Paycard.SplitOnce | paycard.py:19 | at most two parts, none empty or starting with whitespace, the first without any whitespace |
| Paycard.ParseCard | paycard.py:19-24 | a card name is never empty and never padded |
| Paycard.SplitOfCommand | paycard.py:19 | a command word, whitespace and a rest split into the word and the rest |
| Paycard.ParseCardOfCommand | paycard.py:19-24 | `/paycard`, whitespace, a card name and trailing blanks parse to that card name |
| Paycard.CommandAloneHasNoCard | paycard.py:19-22 | a command word alone, however padded, is a usage error |
| Paycard.Deducted | paycard.py:37 | max(0, balance - amount) |
| Paycard.ApplyDeductions | paycard.py:31-38 | the loop touches only the users of the withdrawals, creating missing ones, and changes nothing but balances |
| Paycard.DeductionsClosedForm | paycard.py:31-38 | deducting several non-negative amounts one by one, each clamped at zero, is deducting their total once and clamping; users with no withdrawal in the list are unchanged |
| Paycard.DeductedBalancesAreNonNegative | paycard.py:37 | every user the loop touches ends with a non-negative balance |
| Paycard.DeductAll | paycard.py:31-38 | the users table is the in-order fold of the deductions |
| Paycard.HandlePaycard | paycard.py:13-48 | non-admins and a missing card change nothing; no pending rows change nothing; otherwise the card's pending rows are deducted in table order and then all approved |
| Paycard.SecondPaycardFindsNothing | paycard.py:25-28 | a second `/paycard <card>` from an admin answers that nothing is pending, and the table is the one the first call approved |

## Left out

- Telegram itself (TeleBot replies, message edits, notifications to the user and the admin channel, translations): only the decisions behind the messages are modelled.
- `require_channel_membership` (utils.py) is not part of this model: it creates missing users and turns away non-members before every handler runs.
- `handle_otp_reply` (otp.py:146-181) is not modelled. It only handles replies to the code prompt, and refuses a user without a `pending_phone` (otp.py:162-164). After `verify_code` succeeds it hands over the user's stored `pending_phone` (otp.py:171).
- `handle_2fa_password` (otp.py:183-203) is not modelled. It fires only while the user's entry is in `awaiting_password` (otp.py:183-185). After `verify_password` succeeds it hands over the phone of the session entry (otp.py:198).
- Threads, the asyncio loop and `thread_lock`: each operation runs as one step. One race the registry permits is an overwritten entry: a user's second task replaces the first one's entry (otp.py:243-248), so a cancel (otp.py:58-71) reaches only the second task and the first can still pay; `Otp.StaleCleanupScenario` shows this. Another is the window between the thread's start (otp.py:423) and its registration (otp.py:243), in which a cancel reaches the older entry or nothing; `Otp.EarlyCancelScenario` shows the second case. The reward commit does not re-check whether the number was claimed meanwhile. So when two users verify one number before either reward is committed, both are paid, as in the code; `Otp.DoubleClaimScenario` shows this.
- Time: `time.sleep` is the task clock. Provider and store calls take no time. The session file's age check (telegram_otp.py:219-223) only logs and is not modelled.
- Python's `\d` also accepts non-ASCII digits. `Otp.IsPhoneNumber` accepts ASCII digits only.
- The creation of folders by `_ensure_country_session_dir` is not modelled, only the folder's path.
- `Store.Db`: the store module's own failures are not modelled, except a refused `update_user` in the reward. Exceptions from other store calls during the reward (otp.py:401-406) and in `process_successful_verification` (otp.py:425-428) are left out.
- Each store write in the `/paycard` loop is taken to succeed, and a failing user notification there is ignored as in the code.
- `Otp.BackgroundRewardProcess`: the device count after logging the others out is an input, because the methods otp.py calls for it do not exist (see Findings). The method also waits as if `time` were the module's, so it leaves out the UnboundLocalError that the `import time` at otp.py:340 causes; `Otp.RewardOutcomeAsWritten` models that failure.
- `Otp.RewardCreditsThePrice`: the credit is computed from the user record read at hand-over. A balance change while the task waits is overwritten, as in the code.
- Balances are exact reals; floating-point rounding is not modelled.

## Findings

| source | as written | input that shows it | evidently intended | confidence | as-written member | corrected member |
|---|---|---|---|---|---|---|
| otp.py:340 | `import time` inside `background_reward_process` makes `time` a local name of the whole function. The `time.sleep` of the wait loop (otp.py:281) therefore raises UnboundLocalError, and the outer handler reports a system error | claim time 600, no cancel, a valid session on one device: the task raises at its first sleep and never pays | use the module-level `time` (otp.py:32) and wait the claim time | not executed | Otp.RewardOutcomeAsWritten | Otp.RewardOutcomeOf |
| otp.py:338-343 | after validation the task calls `session_manager.logout_all_devices` and `get_logged_in_device_count`, which `SessionManager` (telegram_otp.py) does not define. The AttributeError ends in the outer handler's system error | the same input with the import moved out: validation passes, then the task raises and never pays | log the other devices out and count the remaining ones, paying only when one is left | not executed | Otp.RewardOutcomeWithoutDeviceMethods | Otp.RewardOutcomeOf |
