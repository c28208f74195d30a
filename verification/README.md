# KeepMeAlive: a verified model

KeepMeAlive keeps a Windows session awake. It signs in with a rotating OAuth credential, keeps that
credential, a license and its settings in one of two storage locations, and can shut the computer down
at a set time. This project models the state machines behind that and proves what they promise, in
Dafny; `dafny verify dfyconfig.toml` checks all of it.

* **Disk** (`Disks.dfy`): a map from paths to contents and one Windows credential. Every file-system
  primitive may fail, and a ghost trace records what a process stopped after each primitive leaves
  behind. `AtomicFile` is the sequence of primitives the source runs.
* **Protected store and grants** (`Texts.dfy`, `ProtectedStore.dfy`, `SecretStore.dfy`, `Grants.dfy`,
  `Authentication.dfy`, `Lifecycles.dfy`): what logout, migration, refresh and sign-in do to the session,
  its backup, the recovery record and the license of both locations. The functions say what an operation
  does when nothing fails; the classes run it step by step and say what holds when it fails or is stopped.
  `Lifecycles` ties whole runs of the services to runs of grant steps.
* **Settings** (`Settings.dfy`, `SettingsViewModel.dfy`): load with fallback, save, migration with its
  commit point, and the settings page that commits one draft to four places or rolls it back.
* **Scheduler** (`Scheduling.dfy`, `ScheduledActionService.dfy`): a transition system over generations,
  stale callbacks, restarts and a persisted record, and the class whose locked sections are its steps.
* **Rate limiter** (`RateLimiter.dfy`): the bounded map of the backend against a table that never forgets.
* **Queries** (`PercentEncoding.dfy`, `Continuation.dfy`, `Callback.dfy`): UTF-8, percent-encoding
  (section 2.1 of RFC 3986) and form encoding (section 5 of the WHATWG URL Standard), the OAuth query
  carried from page to page, and the sign-in callback (section 4.1.2 of RFC 6749).
* **Keep-alive engine and its editors** (`KeepAliveEngine.dfy`, `DashboardViewModel.dfy`): the timed loop
  with its power request, and the re-entrant text and number setters. The three fields of the editor have
  the same setters up to name and range and are one member here, indexed by the field.

Randomness, clocks, replies of servers, failures of Windows calls and what other threads do in between are
parameters or nondeterministic choices. HTTP is its outcome; DPAPI is the identity; a JSON text is its value;
the SHA-256 of a legacy record is an injective constructor; a local time is an instant or nothing.

Some things the code does differently from what one would expect of it are stated as they are:

* Load and the settings page do not catch InvalidDataException, which is not an IOException. A settings
  file that parses but does not validate makes Load fail (KeepMeAlive/Services/SettingsService.cs:69), and
  a draft with an unsupported value makes TrySave throw rather than return false, unless its schedule is
  refused before (KeepMeAlive/ViewModels/SettingsViewModel.cs:137-138).
* The flag that preserves a damaged primary is not reset by a migration
  (KeepMeAlive/Services/SettingsService.cs:89-93). `SettingsFiles.SaveRecoverableExactlyWhen` says exactly
  when a stopped Save loses nothing, and `SettingsFiles.StaleFlagLosesSettings` gives a disk on which it
  does. Saving before migrating, as the settings page does, keeps the flag true;
  `SettingsServices.AnyRun` says what it takes otherwise.
* The engine acts on a read of its keep-awake flag early in a turn and reports at the end of it.
  `KeepAliveLoop.PowerFollowsTheFlag` says exactly when the power request matches the flag at the status, and
  `KeepAliveLoop.FlagMissedForATurn` shows two missed calls.
* A timer callback can run between the steps of TrySave. When it decides the old action after the new
  schedule has been saved, it disarms the saved one, and TrySave returns true with an armed action whose
  record is disabled (`SettingsPage.CallbackDisarmsDraft`). When a rollback comes to Restore with the new action
  still armed, its callback disarms the restored record (`SettingsPage.CallbackDisarmsOriginal`).
  `SettingsPage.SettingsViewModel.TrySave` says exactly when either happens.
* Schedule reads the clock before it takes the lock (KeepMeAlive/Services/ScheduledActionService.cs:50-56), so a
  schedule for a time that a callback executes in between is accepted and executed a second time:
  `Scheduling.RearmedExactlyWhen` and `Scheduling.OldGuardExecutesTwice`. Restore, which cancels first, never does this.
* A timer callback reads the clock twice. `Scheduling.SlowReadMisses` shows that punctual callbacks can miss
  an action when the time between the two reads is long.
* A listener that assigns a number while a text is being edited leaves that text behind; no view does.
  `Dashboard.AssignmentKeepsLinkExactlyWhen` says which assignments do, and `Dashboard.ListenerBreaksLink` gives one.

## Model

| member | source | states |
|---|---|---|
| Lifecycles.SignOutErasesEveryTokenOfTheGrant | KeepMeAlive/Services/AuthenticationService.cs:108-170 | From a store without sessions, or one holding copies of one legacy record (one without a session id, whatever members its JSON has or lacks), after any sequence of token requests, sign-ins, sign-outs, license changes and migrations in both directions: signing out while the active session can be read leaves, in either location, no readable session, backup or recovery entry of that grant and none holding any refresh token it was ever issued. |
| Lifecycles.ActsAreARun | KeepMeAlive/Services/AuthenticationService.cs:79-170 | Whatever the services are asked, what they leave on disk is, apart from the settings files, what the corresponding run of grant steps leaves. |
| Lifecycles.TokenCallIsARun | KeepMeAlive/Services/AuthenticationService.cs:79-105 | Every token request, with every reply of the server and the API, amounts to nothing, a refresh, a refresh and a logout, or a logout. |
| Lifecycles.AgreeMigrated | KeepMeAlive/Services/SettingsService.cs:101-137 | A storage migration moves the protected files exactly as a grant migration step does; the settings file it writes does not matter to them. |
| Grants.LogoutErasesEveryTokenOfTheGrant | KeepMeAlive/Services/SecretStore.cs:71-123 | The same, for every run of sign-in, refresh, migration, license and logout steps on the store alone. |
| Grants.LogoutErasesGrant | KeepMeAlive/Services/SecretStore.cs:71-92 | In any state where every stored session is known to the ledger of issued tokens, logout erases the grant of the active session and every token the ledger lists for it. |
| Grants.StepKeepsInvariant | KeepMeAlive/Services/SecretStore.cs:62-123 | Every step keeps: each stored session, backup or recovery entry is empty or carries a token issued to its own family, and no token belongs to two families. |
| Grants.RunKeepsInvariant | KeepMeAlive/Services/SecretStore.cs:62-123 | So does every run. |
| Grants.RefreshKeepsFamily | KeepMeAlive/Services/OAuthSession.cs:15-21 | A rotated session belongs to the family of the record it was refreshed from, a legacy record without an id included. |
| Grants.LedgerOnlyGrows | KeepMeAlive/Services/AuthenticationService.cs:150-162 | The ledger never forgets: a token a grant was issued stays listed under that grant. |
| ProtectedStore.LogoutFrame | KeepMeAlive/Services/SecretStore.cs:71-92 | Logout is a frame: licenses, unreadable inactive files, inactive sessions and recoveries of other families and every unrelated file are unchanged, nothing is created, and a changed recovery record lost its "session" entry and nothing else. |
| ProtectedStore.LogoutErasesExactly | KeepMeAlive/Services/SecretStore.cs:81-88 | In the location that is not active logout changes a session, backup or recovery file if and only if its session and the active one are both complete records and agree in issuer, client, API and id, two records without an id in the refresh token: another grant of the same deployment, and what cannot be told, stays. |
| Sessions.ParsedExactlyWhen | KeepMeAlive/Services/OAuthSession.cs:6-13 | Which JSON documents are session records, member by member: absent and null members are empty, others are strings. |
| ProtectedStore.LogoutErasesFamily | KeepMeAlive/Services/SecretStore.cs:75-90 | After logout the active session and its backup are gone, no readable entry anywhere is of the family of the former active session, and active recovery records hold no session. |
| ProtectedStore.LogoutTwiceIsOnce | KeepMeAlive/Services/AuthenticationService.cs:113-116 | Clearing the store twice, as signing out from a corrupt record does, is clearing it once. |
| ProtectedStore.CopySucceedsExactlyWhen | KeepMeAlive/Services/SecretStore.cs:98-115 | Without I/O failures secrets are copied if and only if both locations can be read and the source license is stored trimmed; then the target license and session equal those of the source. |
| ProtectedStore.PutsKeepPrevious | KeepMeAlive/Services/SecretStore.cs:135-164 | What a license, session or recovery file held before it is replaced is then its backup; deleting one deletes its backup too. |
| SecretStores.SecretStore.DeleteSession | KeepMeAlive/Services/SecretStore.cs:71-92 | Without failures exactly the logout described by LogoutFrame and LogoutErasesExactly; stopped or failing anywhere, every file is untouched or as after a complete logout, and nothing else goes before the active session and its backup. |
| SecretStores.SecretStore.PurgeEverywhere | KeepMeAlive/Services/SecretStore.cs:78-90 | The nested loops over locations and suffixes reach every copy. |
| SecretStores.SecretStore.CopyTo | KeepMeAlive/Services/SecretStore.cs:94-123 | Ends with the target equal to the source, or throws: before it touched anything, or with the old license (trimmed) and session back in place unless a file operation of the rollback failed too; at every point where it can be stopped only secrets of the target have changed, and if its license or session did, its recovery file holds a JSON object with exactly the old license and the old session. |
| SecretStores.SecretStore.RedactRecoverySession | KeepMeAlive/Services/SecretStore.cs:185-196 | Removes only the "session" entry of a record to be purged, writes no backup that would keep it, and leaves the old or the new record at every step. |
| SecretStores.SecretStore.SaveSession | KeepMeAlive/Services/SecretStore.cs:62-69 | Replaces the session of the location in force as a whole, old or new at every step; an empty session signs out, through the stages of a logout. |
| SecretStores.SecretStore.SaveLicenseKey | KeepMeAlive/Services/SecretStore.cs:38-55 | Stores the license trimmed, or deletes it when blank; stopped anywhere, every file is as before or as after. |
| SecretStores.SecretStore.ReplaceSession | KeepMeAlive/Services/SecretStore.cs:135-140 | Writes or deletes the session of one location. |
| SecretStores.SecretStore.DeleteProtected | KeepMeAlive/Services/SecretStore.cs:160-164 | Deletes a protected file and its backup and nothing else. |
| SecretStores.SecretStore.GetSession | KeepMeAlive/Services/SecretStore.cs:57-60 | The session of the location the bootstrap files name; none when it cannot be read. |
| AtomicFile.Write | KeepMeAlive/Services/AtomicFile.cs:17-46 | Whichever step fails or is the last to run, the file and its backup are all old or all new; after a write that is to preserve it the replaced file is the backup, after any other the backup is as before; a write without failures leaves no temporary file. |
| Texts.WhiteSpaceExactly | KeepMeAlive/Services/SecretStore.cs:42-44 | Blank texts and trimming are about the 25 characters that Unicode calls white space. |
| RuntimeModes.GetConfiguredStorageMode | KeepMeAlive/Services/AppRuntimeModeService.cs:44-57 | The first readable record of the bootstrap file, its backup and the legacy file, or else the default. |
| RuntimeModes.SetConfiguredStorageMode | KeepMeAlive/Services/AppRuntimeModeService.cs:60-65 | The bootstrap record is replaced atomically; should the new one be damaged or lost later, the mode is again what it was before, unless the replaced record could not be read. |
| RuntimeModes.PreviousModeIsKept | KeepMeAlive/Services/AppRuntimeModeService.cs:44-57 | The same of the functions: the backup of a replaced record is found again. |
| RuntimeModes.ModeOfFirstStart | KeepMeAlive/Services/AppRuntimeModeService.cs:44-57 | Without any record the mode is portable exactly in the portable distribution. |
| RuntimeModes.CommitsStayApart | KeepMeAlive/Services/AppRuntimeModeService.cs:60-65 | What an installation in the profile commits is never found by a portable one. |
| SettingsServices.AnyRun | KeepMeAlive/Services/SettingsService.cs:46-137 | After every completed run of Load, Save and MigrateStorage in any order, whatever failed in it, the settings in memory are valid and equal to what a fresh Load returns, unless a Save of the run lost them; that takes a failed file operation and a Save after a migration made on its own, not as part of saving and migrating. An unreadable primary stays flagged throughout. |
| SettingsServices.SettingsService.Load | KeepMeAlive/Services/SettingsService.cs:46-78 | Finds exactly what is on disk: the valid primary, else the valid backup, else defaults; a file that parses but does not validate makes the exception escape; the preserve flag is set if and only if the primary is damaged. |
| SettingsServices.SettingsService.Save | KeepMeAlive/Services/SettingsService.cs:81-98 | Passes only through the old disk, the disk with the damaged primary moved aside, and the new disk; with memory in agreement with the disk and a truthful preserve flag, every one of them gives the next Load exactly the old settings or exactly the new ones; memory changes exactly when the write succeeded. Should the saved primary become unreadable or disappear later, a fresh Load returns exactly the settings that were in force before the Save; a flagged primary is still there under its new name. Whatever the flag, memory and a fresh Load agree afterwards if and only if it is not the case that the write failed after moving aside a primary that was needed. Licenses and sessions are untouched. |
| SettingsFiles.PreviousSettingsSurvive | KeepMeAlive/Services/SettingsService.cs:86-97 | Exactly when the settings in force before a Save come back if the saved primary is damaged or lost later: a flagged primary that was moved aside was not needed, and one that was replaced could be read (or the defaults were in force). |
| SettingsFiles.DamagedPrimaryIsKept | KeepMeAlive/Services/SettingsService.cs:89-93 | A primary that is moved aside keeps its contents, and the backup is not overwritten. |
| SettingsFiles.LoadsExactly | KeepMeAlive/Services/SettingsService.cs:46-78 | What Load returns by what the two files hold: a primary that validates, else, if it cannot be read, a backup that validates, else, if neither can be read, the defaults; it fails exactly when the file it comes to parses and does not validate. |
| SettingsFiles.FirstStart | KeepMeAlive/Services/SettingsService.cs:46-78 | On an empty disk Load returns the defaults, value by value, in the default location. |
| SettingsFiles.SaveRecoverableExactlyWhen | KeepMeAlive/Services/SettingsService.cs:81-98 | A Save stopped at any step leaves the next Load with exactly the old settings or exactly the candidate if and only if moving the flagged primary aside is harmless (the backup, or the defaults, give the old settings) or what Load falls back to is the candidate itself. |
| SettingsFiles.DamagedPrimaryIsHarmless | KeepMeAlive/Services/SettingsService.cs:69-73 | That condition holds whenever the flag tells the truth, that is, whenever the flagged primary is really unreadable. |
| SettingsFiles.StaleFlagLosesSettings | KeepMeAlive/Services/SettingsService.cs:89-93 | A concrete disk on which it does not: settings recovered from a backup are migrated and in force, and the next Save under a flag that is still set, stopped after moving the good primary aside, leaves defaults. |
| SettingsServices.StaleFlagSurvivesMigration | KeepMeAlive/Services/SettingsService.cs:46-137 | On that disk Load sets the flag, the migration succeeds unless a file operation fails, and the flag is then still set and no longer true. |
| SettingsFiles.StageLoads | KeepMeAlive/Services/SettingsService.cs:86-97 | What a fresh Load returns at each of the stages of a Save. |
| SettingsServices.SettingsService.MigrateStorage | KeepMeAlive/Services/SettingsService.cs:101-137 | Stopped between any two file primitives: before the bootstrap write a restart loads the old settings from an untouched source; after it, the same settings (with the new storage mode) from a target whose license and session equal those of the source. Memory moves exactly when it returns true; without I/O failures the whole resulting disk is stated. |
| SettingsFiles.MigrationSucceedsExactlyWhen | KeepMeAlive/Services/SettingsService.cs:111-130 | Without I/O failures a migration succeeds if and only if the secrets of both locations can be read and the source license is stored trimmed. |
| SettingsFiles.UncommittedIsSafe | KeepMeAlive/Services/SettingsService.cs:113-119 | Anything done to the target alone leaves the source in force, with its settings, license and session. |
| SettingsFiles.CommittedIsSafe | KeepMeAlive/Services/SettingsService.cs:120-126 | Once the target is complete, writing the bootstrap record puts it in force with the settings and secrets of the source. |
| SettingsPage.SettingsViewModel.TrySave | KeepMeAlive/ViewModels/SettingsViewModel.cs:101-159 | All or nothing: true means settings, field by field, storage mode, startup registration, schedule and theme all match the draft, and what the page does not edit is unchanged; false means, the rollback steps succeeding, all but the theme match the original, the schedule as Restore gives it. When nothing fails it returns true if and only if the schedule is not refused and can be armed, the draft holds no unsupported value, and the location can be reached. Timer callbacks may run in every gap: without I/O failures an applied draft is matched if and only if none of them decided the previously armed action between saving the drafted schedule and arming it, or the draft schedules nothing; after a rollback the original is matched if and only if none struck just before Restore while the original could still be restored. An applied schedule fires in the drafted minute of the drafted day, at the instant that Restore would read from the persisted time. A refused schedule changes nothing; an accepted one with an unsupported value in the draft always throws, and changes nothing unless a callback struck. The rollback is complete unless one more step fails after the first failure. |
| SettingsPage.ValidatedExactlyWhen | KeepMeAlive/ViewModels/SettingsViewModel.cs:187-207 | An enabled schedule is accepted for a time if and only if that is the drafted hour and minute of the drafted day (at the persisted second if that lies in the same minute), ahead of now, and denotes one instant; it is refused if and only if there is no such time. |
| SettingsPage.ClockTimeExactly | KeepMeAlive/ViewModels/SettingsViewModel.cs:190 | A text is read as a time of day if and only if it is two digits of the hour, a colon and two digits of the minute. |
| SettingsPage.CandidateSavesDraft | KeepMeAlive/ViewModels/SettingsViewModel.cs:109-118 | The candidate is exactly the settings that have each field the page edits from the draft and each other one from the original. |
| SettingsPage.SettingsViewModel.MatchedExactlyWhen | KeepMeAlive/ViewModels/SettingsViewModel.cs:121-135 | What a callback that overtakes the saved schedule changes: the persisted schedule of an enabled draft, and nothing else. |
| SettingsPage.CallbackDisarmsDraft | KeepMeAlive/ViewModels/SettingsViewModel.cs:121-135 | Input for it: whatever is armed is due, its callback runs right after the draft has been saved, and nothing fails; TrySave returns true with the drafted action armed and its record disabled. |
| SettingsPage.SettingsViewModel.AttemptedExactlyWhen | KeepMeAlive/ViewModels/SettingsViewModel.cs:119-158 | Both conditions at once: what it takes, without failed file operations, for an applied draft to be matched and for a rolled-back original to be matched. |
| SettingsPage.SettingsViewModel.RollBack | KeepMeAlive/ViewModels/SettingsViewModel.cs:143-150 | Brings back the original location, settings, registration and schedule, with callbacks after the migration back and before Restore, unless a callback strikes just before Restore while the original could still be restored: that one disarms the saved original. |
| SettingsPage.CallbackDisarmsOriginal | KeepMeAlive/ViewModels/SettingsViewModel.cs:143-150 | Input for that: an action that is due is still armed, its callback runs just before Restore, and nothing fails; an original schedule that is still ahead is lost. |
| SettingsPage.SettingsViewModel.OvertakenByAnotherAction | KeepMeAlive/ViewModels/SettingsViewModel.cs:143-150 | With a clock that does not go back it is never the original action itself that does this, but one that is due earlier. |
| SettingsPage.SettingsViewModel.RestoreSchedule | KeepMeAlive/ViewModels/SettingsViewModel.cs:150 | What Restore leaves after the callbacks just before it: the schedule of the saved settings as Restore gives it, except that one struck while that was restorable. |
| SettingsPage.SettingsViewModel.CommitSettings | KeepMeAlive/ViewModels/SettingsViewModel.cs:121-125 | Save then migrate, with callbacks after either: afterwards the settings in memory are those on disk whatever failed, after a change of location the way back is open, and only a callback that struck can have disarmed the action. |
| Scheduling.AtMostOneExecution | KeepMeAlive/Services/ScheduledActionService.cs:48-199 | Over every interleaving of Schedule, Cancel, Restore, Dispose, restarts and arbitrarily delayed, duplicated or stale callbacks, each accepted Schedule is executed at most once, with its own action and by the callback of its own generation. |
| Scheduling.ExecutedInTime | KeepMeAlive/Services/ScheduledActionService.cs:127-165 | With a monotone clock every execution is decided within 30 s after its due time. |
| Scheduling.RestoreNeverRearms | KeepMeAlive/Services/ScheduledActionService.cs:85-115 | In every run with a monotone clock, what Restore arms is due after every execution decided before, whatever callbacks, cancellations and restarts happen between its Cancel and its arming. |
| Scheduling.RearmedExactlyWhen | KeepMeAlive/Services/ScheduledActionService.cs:48-70 | A plain Schedule arms a due time that has already been executed if and only if its guard, which is read outside the lock, read the clock before that time. |
| Scheduling.OldGuardExecutesTwice | KeepMeAlive/Services/ScheduledActionService.cs:48-70 | A run with a monotone clock in which it does: the callback executes between the guard and the lock of a second Schedule for the same time, and that time is executed again. |
| Scheduling.NoExecutionAfterRetirement | KeepMeAlive/Services/ScheduledActionService.cs:127-134 | Once cancelled, replaced, disposed or lost in a restart, an accepted schedule is never executed by any later callback. |
| Scheduling.NothingAfterDispose | KeepMeAlive/Services/ScheduledActionService.cs:118-125 | After Dispose no schedule is accepted and none executed for as long as the process lives, whatever is called. |
| Scheduling.DecidedIsNotRestored | KeepMeAlive/Services/ScheduledActionService.cs:85-165 | Once an action has been executed or missed and its disarming saved, no Restore arms it again, in this process or after any restart, until the schedule is configured anew. |
| Scheduling.PunctualActionIsExecuted | KeepMeAlive/Services/ScheduledActionService.cs:48-70 | After an accepted Schedule, with each callback coming no earlier than the delay that Schedule or the callback before it asked for, each at most 30 s late when it decides (counted with the time the callback before took from its check to its decision), and disarming possible: the action, left alone, is executed exactly once and never counted as missed, after at most max(1, ceil(remaining / 60 s)) callbacks. |
| ScheduledActions.RunPunctually | KeepMeAlive/Services/ScheduledActionService.cs:48-168 | The same of the service and the timer it sets: unless a file operation fails, the executor is called exactly once, with the scheduled action and with the record on disk already disarmed, and the timer is then off. |
| Scheduling.RearmedDelay | KeepMeAlive/Services/ScheduledActionService.cs:136-139 | An early callback asks for all of the remaining time, or for one minute if that is less. |
| Scheduling.SlowReadMisses | KeepMeAlive/Services/ScheduledActionService.cs:136-142 | That the time between the two clock reads of a callback has to be counted: callbacks that each decide within 30 s of when they were asked for can still miss the action. |
| Scheduling.RestoreMatchesRecord | KeepMeAlive/Services/ScheduledActionService.cs:85-115 | After Restore the persisted action is armed if and only if it is enabled, supported and still ahead; otherwise nothing is armed and an enabled record is disarmed if that can be saved. |
| Scheduling.NextDelay | KeepMeAlive/Services/ScheduledActionService.cs:185-190 | The timer is never asked for less than zero or more than one minute. |
| ScheduledActions.ScheduledActionService.OnTimer | KeepMeAlive/Services/ScheduledActionService.cs:127-168 | A callback does to the service what the transition system says, and executes the decided action and nothing else; when it calls the executor, a fresh Load already finds the action disarmed. |
| ScheduledActions.ScheduledActionService.Schedule | KeepMeAlive/Services/ScheduledActionService.cs:48-70 | Replaces whatever was armed under a new generation, or refuses and changes nothing. |
| ScheduledActions.ScheduledActionService.Restore | KeepMeAlive/Services/ScheduledActionService.cs:85-115 | Arms the persisted action or disarms it, also in the persisted settings. |
| ScheduledActions.ScheduledActionService.TryPersistDisarmed | KeepMeAlive/Services/ScheduledActionService.cs:170-183 | True only when the settings in memory and on disk have the action disarmed; false only when a file operation failed, and then the settings are as before. |
| ScheduledActions.ScheduledActionService.Dispose | KeepMeAlive/Services/ScheduledActionService.cs:118-125 | Disarms and refuses every later Schedule. |
| TokenLifecycle.RotationIsNeverLost | KeepMeAlive/Services/AuthenticationService.cs:79-170 | After any refresh answered by an acceptable token response, the stored credential is the token of the response (the old one when omitted) in the same family whatever the API check does, except that 401 or 403 leaves nothing of the grant in store or memory. |
| TokenLifecycle.AnswersExactly | KeepMeAlive/Services/AuthenticationService.cs:79-105 | What every token request answers and changes, by the fields of what is stored and replied: the cached token with more than 60 s left, an error, no session, or a token; a store that cannot be read and a response that is refused are errors that change nothing, and a denied refresh and a text that is no record sign out. |
| TokenLifecycle.UsableExactly | KeepMeAlive/Services/AuthenticationService.cs:135-148 | A stored record is used if and only if its issuer, client and API are those of the deployment and it has a refresh token. |
| TokenLifecycle.AcceptableExactly | KeepMeAlive/Services/AuthenticationService.cs:152-157 | Which token responses are refused: no access token, another token type, a lifetime outside 1 to 86 400 s, or neither a new nor an old refresh token. |
| TokenLifecycle.SignInStoresTheGrant | KeepMeAlive/Services/AuthenticationService.cs:150-170 | A sign-in stores the refresh token of the response for this deployment under the new id, unless there is no response or it is refused; then nothing changes. |
| TokenLifecycle.CachedTokenWasServed | KeepMeAlive/Services/AuthenticationService.cs:163-169 | In every run of token requests, sign-ins and sign-outs, a cached access token was obtained from the server by a call of the run that asked for it, passed its API check and returned it, with the expiry of that response, and no call since has replaced or cleared it. |
| TokenLifecycle.CachedTokenHasTimeLeft | KeepMeAlive/Services/AuthenticationService.cs:85 | Every token returned without a request was obtained and returned by such an earlier call and has more than 60 s left. |
| TokenLifecycle.FewRefreshes | KeepMeAlive/Services/AuthenticationService.cs:79-105 | For any number of serialized requests whose refreshes succeed with a lifetime of at least E > 60 s under a monotone clock, a span of T contains at most 1 + floor(T / (E - 60 s)) refresh requests. |
| TokenLifecycle.PostsAreSpaced | KeepMeAlive/Services/AuthenticationService.cs:79-105 | Successive refresh requests of such a run are at least E - 60 s apart. |
| Authentication.AuthenticationService.GetAccessToken | KeepMeAlive/Services/AuthenticationService.cs:79-105 | The critical section does what the token lifecycle says when no file operation fails; when one does, it throws, and memory is unchanged or empty. At every step on disk nothing new is stored, or the rotated credential, or a logout is under way. |
| Authentication.CallCredential | KeepMeAlive/Services/AuthenticationService.cs:79-170 | So wherever a token request fails or is stopped, the active credential is the old one, the rotated one of the response, or gone. |
| Authentication.AuthenticationService.ReadSession | KeepMeAlive/Services/AuthenticationService.cs:135-148 | A usable session is returned as it is stored, an unreadable file fails, and text that is not a session record is cleared away. |
| Authentication.AuthenticationService.AcceptTokens | KeepMeAlive/Services/AuthenticationService.cs:150-170 | The rotated token is stored before the API check, and memory changes only after the check passed; at every step on disk the old credential, the rotated one, or a stage of the logout after a refused check. |
| Authentication.AuthenticationService.CompleteSignIn | KeepMeAlive/Services/AuthenticationService.cs:38-77 | Signing in to a configured deployment does what the token lifecycle says when no file operation fails, under a new family; when one does, it throws, and at every step on disk nothing new is stored, or the new credential, or a logout is under way. |
| Authentication.AuthenticationService.SignOut | KeepMeAlive/Services/AuthenticationService.cs:108-133 | Memory is empty in every case; the store is cleared as logout describes, or left at a stage of it when a file operation fails; the token offered for revocation is exactly that of a usable session of a configured deployment. |
| RateLimiter.LimiterRefinesReference | backend/src/app.ts:43-57 | On every trace with non-decreasing times the lazily swept map gives each request the verdict of a per-user window table that never evicts. |
| RateLimiter.BusyExactlyWhenFull | backend/src/app.ts:44-49 | Busy if and only if more than 10 000 distinct users have a live window. |
| RateLimiter.TableIsBounded | backend/src/app.ts:44-53 | The map never holds more than 10 001 entries, on any trace. |
| RateLimiter.AtMostLimitPerWindow | backend/src/app.ts:50-57 | At most 60 accepted requests in each window of a user, and windows of a user do not overlap. |
| RateLimiter.AtMostTwoWindowsInAnySpan | backend/src/app.ts:50-57 | At most 120 accepted requests of a user in any span of 60 000 ms, ends included. |
| RateLimiter.RetryAfterInRange | backend/src/app.ts:54-57 | Retry-After is between 1 and 60. |
| RateLimiter.WaitingIsRewarded | backend/src/app.ts:54-57 | After waiting that long the next request of the user is accepted unless the service is busy, whatever other users did. |
| RateLimiter.EarlierIsLimited | backend/src/app.ts:54-57 | Retry-After asks for no second too many: one second earlier the next request is still limited, or the service is busy. |
| RateLimiter.LimitedExactlyWhen | backend/src/app.ts:50-57 | A request is limited if and only if the service is not busy and exactly 60 requests of the user have been accepted in its window, which opened less than 60 s ago. |
| RateLimiter.Limiter.Handle | backend/src/app.ts:43-58 | The middleware, sweeping its map entry by entry, computes that verdict and that map. |
| Continuation.QuerySurvivesTravel | backend/src/pages.ts:1-16 | For every query and any number of pages, each reached through authContinuationUrl and read by readOAuthQuery, with other parameters appended as text or by a form serializer (none named keepmealive_oauth, client_id or redirect_uri), the recovered query is exactly the first one. |
| Continuation.SignedQuerySurvives | backend/src/pages.ts:1-16 | The signed query of the first page, which names client and redirect and no wrapper, comes back byte for byte after the first reading and any such journey. |
| Continuation.RejectedExactlyOnConflict | backend/src/pages.ts:4-7 | A query is rejected if and only if, among its pieces, there are two wrappers or a wrapper and a client_id or redirect_uri, wherever they stand and however their names are encoded. |
| Continuation.ReadsExactly | backend/src/pages.ts:4-9 | What is returned for every search string: without a wrapper the query itself if it names both client_id and redirect_uri, else the empty one; with one, an error or the text in the wrapper. |
| Continuation.ContinuationCarries | backend/src/pages.ts:12-16 | The search part of a continuation URL carries its query and nothing it could be confused with, after the URL setter has re-encoded it. |
| Continuation.SearchIsPlain | backend/src/pages.ts:12-16 | Whatever a search is set to, it holds no white space, control character, quote, angle bracket, number sign or character beyond ASCII. |
| Continuation.NoQueryNoSearch | backend/src/pages.ts:9-16 | Without a query the destination gets no search, and the empty query is read there. |
| Continuation.SerializeReadsBack | backend/src/pages.ts:3-4 | Parsing undoes form serializing for every list of pairs. |
| PercentEncoding.TakeEncoded | backend/src/pages.ts:3-4 | The UTF-8 decoder reads back every encoded character whatever follows. |
| PercentEncoding.TakesOnlyEncodings | backend/src/pages.ts:3-4 | A character is decoded exactly where its encoding stands: overlong forms, surrogates and values out of range are not. |
| PercentEncoding.InvalidIsReplaced | backend/src/pages.ts:3-4 | What cannot be decoded is replaced by U+FFFD: a single byte, or the longest beginning of an encoding that stands there. |
| PercentEncoding.OctetExactly | KeepMeAlive/Services/OAuthProtocol.cs:26 | A percent-encoded octet is a percent sign and two hexadecimal digits of either case, and nothing else is. |
| PercentEncoding.OtherTextIsLeftAlone | KeepMeAlive/Services/OAuthProtocol.cs:26 | Text without octets is read as it is, stray percent signs included. |
| PercentEncoding.FaithfulDecodes | backend/src/pages.ts:3-4 | Form decoding undoes every faithful printer on every string. |
| PercentEncoding.EscapingIsFaithful | backend/src/pages.ts:14 | Every percent-encoder that leaves only unreserved characters alone is faithful. |
| PercentEncoding.UnescapeReadsBack | KeepMeAlive/Services/OAuthProtocol.cs:26 | Uri.UnescapeDataString undoes every percent-encoder that does not leave the percent sign alone. |
| Callback.CodeComesBackExactly | KeepMeAlive/Services/OAuthProtocol.cs:21-41 | For every list of parameters and every percent-encoder of them: a repeated name is rejected and nothing else is rejected as malformed; the code comes back if and only if names are distinct, the state matches, the code is not blank and no error is present; a missing or wrong state is told apart. |
| Callback.InvalidExactlyWhen | KeepMeAlive/Services/OAuthProtocol.cs:24-31 | Any query is rejected as malformed if and only if, empty pieces aside, one has no equals sign or its decoded name repeats an earlier one. |
| Callback.MarksAreIgnored | KeepMeAlive/Services/OAuthProtocol.cs:24 | Question marks in front of a query make no difference. |
| Callback.ReadCode | KeepMeAlive/Services/OAuthProtocol.cs:21-41 | The loop that fills the dictionary computes that outcome. |
| Callback.CollectPrinted | KeepMeAlive/Services/OAuthProtocol.cs:24-30 | The dictionary of a printed query is the map of its parameters, or nothing when a name repeats. |
| KeepAliveLoop.PulsesAreSpaced | KeepMeAlive/Services/KeepAliveEngine.cs:63-66 | In every run the k-th pulse after another starts at least k times max(20, interval - 15) seconds after that one ended, so there is no burst after a pause, and every pulse belongs to a turn that found the session available. |
| KeepAliveLoop.PulsesWhenDue | KeepMeAlive/Services/KeepAliveEngine.cs:62-66 | As long as the loop goes on, a turn pulses if and only if the session is available and the time has come: the start, or the interval plus the jitter drawn after the last pulse, but at least 20 s, after the end of that one. |
| KeepAliveLoop.GapIsBounded | KeepMeAlive/Services/KeepAliveEngine.cs:50-69 | From any turn on for as long as the session stays available, whatever happened before: with turns at most `period` apart every pulse after the first of these turns starts less than interval + 15 s + period after the end of the one before, and no turn leaves a pulse overdue; exact one-second turns give interval + 16 s. |
| KeepAliveLoop.PowerFollowsTheFlag | KeepMeAlive/Services/KeepAliveEngine.cs:53-68 | At each status the power request is held exactly when keep-awake and available if and only if the session is away or the flag is still what the deciding read of the turn saw (the first read to acquire, the second to keep); the status announces a pulse that is still to come. |
| KeepAliveLoop.UnchangedFlagIsFollowed | KeepMeAlive/Services/KeepAliveEngine.cs:53-68 | A flag that nobody changes after the first read of a turn is followed. |
| KeepAliveLoop.FlagMissedForATurn | KeepMeAlive/Services/KeepAliveEngine.cs:54-68 | Two concrete turns whose status does not match the flag: a SetKeepAwake call between the two reads, and one during the pulse. |
| KeepAliveLoop.FlagIsTheLastCall | KeepMeAlive/Services/KeepAliveEngine.cs:30-60 | After every completed turn the flag is what the last SetKeepAwake call asked for, or, without one, what the options say. |
| KeepAliveLoop.ReportsFollowTicks | KeepMeAlive/Services/KeepAliveEngine.cs:50-70 | One status per turn, for the turn it belongs to. |
| KeepAliveLoop.LoopsOnExactlyWhen | KeepMeAlive/Services/KeepAliveEngine.cs:47-86 | The loop goes on exactly as long as no power call that a turn makes fails, no pulse that is due fails, and no status handler throws. |
| KeepAliveLoop.EndedInOneTurn | KeepMeAlive/Services/KeepAliveEngine.cs:73-86 | A run that ended did so in one turn: with an error status for a failed call or a listed exception of a handler, with an exception for any other. |
| KeepAliveLoop.KeepAliveEngine.RunAsync | KeepMeAlive/Services/KeepAliveEngine.cs:36-93 | The loop does what the turns say; on every exit the power request is released, or the final status reports that it could not be; invalid options and a second run are rejected, and a rejected run changes nothing, also in the middle of a running one. |
| KeepAliveLoop.KeepAliveEngine.TakeTurn | KeepMeAlive/Services/KeepAliveEngine.cs:50-70 | One turn of the loop, with a rival run and SetKeepAwake calls before, between and after its reads of the flag. |
| KeepAliveLoop.KeepAliveEngine.RequestPower | KeepMeAlive/Services/KeepAliveEngine.cs:54-61 | The two branches that acquire and release the request. |
| Dashboard.AnyRun | KeepMeAlive/ViewModels/DashboardViewModel.Input.cs:13-109 | After any sequence of edits, number assignments, saves and discards: if listeners of the changes have only edited texts (from the start, or since and including some discard), a text that reads as a number equals its number. With listeners that assign numbers too, this holds exactly while no stray assignment is outstanding. Linked fields and an empty InputError imply that the options validate; a draft not marked as unsaved holds the saved values (if no listener reacted during a discard). |
| Dashboard.AssignmentKeepsLinkExactlyWhen | KeepMeAlive/ViewModels/DashboardViewModel.cs:174-189 | Among assignments made while a text is edited, the strays, those the text does not read as, are exactly the ones that break the link. |
| Dashboard.ListenerBreaksLink | KeepMeAlive/ViewModels/DashboardViewModel.Input.cs:13-40 | A concrete one: editing the interval from 60 to 30 with a listener that assigns 40 when the draft becomes unsaved leaves the text 30 with the number 40. |
| Dashboard.TextSetKeeps | KeepMeAlive/ViewModels/DashboardViewModel.Input.cs:13-82 | Whatever listeners do, re-entrantly and to any depth, a text setter keeps track of the links: exactly the strayed fields are unlinked, the edited field is linked unless a listener strays it, listeners that only edit texts stray nothing, and outside of loading no change goes unrecorded. |
| Dashboard.NumberSetKeeps | KeepMeAlive/ViewModels/DashboardViewModel.cs:174-189 | So does a number setter, with only the assignment itself as a possible stray when listeners only edit texts. |
| Dashboard.TextSetQuietly | KeepMeAlive/ViewModels/DashboardViewModel.Input.cs:13-82 | Without listeners: the text is as typed, the number is what it reads as or unchanged, the other fields are as before, and the draft is marked. |
| Dashboard.NumberSetQuietly | KeepMeAlive/ViewModels/DashboardViewModel.cs:174-189 | Without listeners: a new number outside of an edit rewrites its own text and nothing else. |
| Dashboard.DiscardedKeeps | KeepMeAlive/ViewModels/DashboardViewModel.cs:122-135 | A discard links the fields again from any draft, linked or not, as long as listeners only edit texts. |
| Dashboard.DiscardedQuietly | KeepMeAlive/ViewModels/DashboardViewModel.cs:122-135 | Without listeners it shows exactly the saved numbers as they print, whatever the draft was. |
| Dashboard.InputDraft.SetText | KeepMeAlive/ViewModels/DashboardViewModel.Input.cs:13-82 | The text setters of the object, re-entrant through its listeners, leave the draft that TextSet gives, which is what the lemmas on TextSet are about. |
| Dashboard.InputDraft.SetNumber | KeepMeAlive/ViewModels/DashboardViewModel.cs:174-189 | The number setters likewise leave the draft that NumberSet gives. |
| Dashboard.InputDraft.ResetInputText | KeepMeAlive/ViewModels/DashboardViewModel.Input.cs:93-98 | Printing all three fields anew likewise leaves the draft that TextsReset gives, a step of every discard. |
| Dashboard.DashboardViewModel.DiscardChanges | KeepMeAlive/ViewModels/DashboardViewModel.cs:122-135 | From any draft, linked or not, it leaves links that are tracked, none of them strayed if listeners only edit texts, and the printed saved values if none reacts. |
| Dashboard.DashboardViewModel.ApplySettings | KeepMeAlive/ViewModels/DashboardViewModel.cs:91-119 | True if and only if there was no input error, the drafted options validate and no file operation failed; then the saved settings are those options on top of the former ones, and otherwise they are untouched. |
| Dashboard.NoErrorMeansValidOptions | KeepMeAlive/ViewModels/DashboardViewModel.Input.cs:85-91 | With linked fields, no input error if and only if every text reads as its number; then the options validate exactly when the method is defined. |
| Dashboard.FirstErrorIsReported | KeepMeAlive/ViewModels/DashboardViewModel.Input.cs:85-91 | The reported field is the first of the three whose text is no number in range. |
| Dashboard.StoredOptionsValidate | KeepMeAlive/Services/SettingsService.cs:142-151 | The settings store accepts exactly the options that the engine accepts, with a known theme and action. |
| Dashboard.OptionsKeepTheRest | KeepMeAlive/ViewModels/DashboardViewModel.cs:91-119 | Applying options leaves every other setting as it was. |
| Dashboard.ShownReadsBack | KeepMeAlive/ViewModels/DashboardViewModel.Input.cs:93-98 | What a discard prints reads back as the saved numbers, without an input error. |
| NumberTexts.ReadPrinted | KeepMeAlive/ViewModels/DashboardViewModel.Input.cs:107-109 | A printed number reads back if and only if it is in range. |
| NumberTexts.SpaceIsIgnored | KeepMeAlive/ViewModels/DashboardViewModel.Input.cs:107-109 | White space around a text does not change what it reads as. |
| NumberTexts.DigitsAreRead | KeepMeAlive/ViewModels/DashboardViewModel.Input.cs:107-109 | Digits in range, with white space around them (and NUL characters behind them, which the parser skips), read as their value. |
| NumberTexts.NothingElseIsRead | KeepMeAlive/ViewModels/DashboardViewModel.Input.cs:107-109 | Every text that reads as a number is of that form. |
| NumberTexts.LeadingZero | KeepMeAlive/ViewModels/DashboardViewModel.Input.cs:107-109 | A leading zero does not change the value. |
| Dashboard.Invariant | KeepMeAlive/ViewModels/DashboardViewModel.Input.cs:93-109 | The invariant format prints and reads faithfully for all three fields. |

## Left out

- Views, themes, tray, dialogs, LastError and status texts, notifications, idle display: presentation only. Applying the theme is a step of TrySave that may fail.
- HTTP, browser launch, the loopback listener, metadata validation, token verification, the account repository and the SQL store: I/O, present only as outcomes.
- Transient read failures of a good file: a file is readable or it is not for as long as its contents stay. With them a migration could fail in its read-back, and GetConfiguredStorageMode could pass over a good record.
- File.Replace and File.Move are atomic primitives, and a write that reported success is durable.
- Temporary files left by a stopped write, and what `.bak` files hold after a rollback of CopyTo: the code promises nothing about them.
- Undefined StorageMode values, DeleteAll, startup command matching, safeAuthDestination, authPage, packaging and deployment: single-branch code that would add only easy members.
- JSON layout: texts are told apart up to layout, and a null member is a missing one. GUIDs are arbitrary numbers that may collide with existing names, in which case the write fails.
- Scheduling.World: a Schedule is one step at its lock, with the earlier clock reading of its guard as a parameter; its unlocked part changes nothing.
- SettingsPage.SettingsViewModel.TrySave: callbacks of the newly armed action, between arming it and returning, are those of any armed action and are not repeated here. A rollback does not bring back the former theme, and neither does the code.
- ScheduledActions.ScheduledActionService.Schedule: the local time is resolved to an instant by a partial function, without the time-zone rules; persisted times are parsed and printed by two functions, in whole seconds.
- TokenLifecycle.FewRefreshes: expiry is the recorded one; what the server does to a token is not modelled.
- Authentication.AuthenticationService.CompleteSignIn: the browser and the code exchange are one reply; only the token part is modelled.
- Lifecycles.SignOutErasesEveryTokenOfTheGrant: runs in which a file operation fails are left to the step-by-step contracts of the store; the application itself does not promise erasure then.
- Grants.Genuine: the server gives new grants fresh ids, issues no blank refresh token and never one refresh token to two grants.
- Continuation.ContinuationSearch: the path handed to authContinuationUrl has no query of its own, as in every call of the source.
- Callback.CodeComesBackExactly: names are percent-encoded without '+', which the source does not read as a space in names.
- KeepAliveLoop.KeepAliveEngine.RunAsync: a run that never ends is every finite part of it. Of several SetKeepAwake calls between two reads, or between the last read and the status, only the last is kept.
- Dashboard.InputDraft.SetKeepAwakeEnabled: passing the flag on to a running engine, and starting and stopping it, are not modelled here.
- Real parallelism inside a locked section: each lock or gate body is one step, except where the steps on disk are what is being proved about.
