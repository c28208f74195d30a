/** The settings page: one draft, committed to four places or rolled back (SettingsViewModel.cs). */
module SettingsPage {
  import opened Options
  import opened Disks
  import opened Preferences
  import opened Scheduling
  import opened SettingsFiles
  import opened ProtectedStore
  import opened SettingsServices
  import opened ScheduledActions

  datatype Draft = Draft(
    theme: Theme,
    startOnBoot: bool,
    showNotifications: bool,
    startMinimizedToTray: bool,
    enableAutomaticUpdateChecks: bool,
    enableStartupAccountSync: bool,
    scheduledActionEnabled: bool,
    scheduledAction: ScheduledAction,
    scheduledActionTime: string,
    scheduledDate: Option<int>,      // in days of the local clock
    scheduledTime: string,
    storageMode: StorageMode)

  // ----- the drafted schedule -----

  const MINUTE := 60
  const DAY := 86400

  predicate Digit(c: char) { '0' <= c <= '9' }

  function TwoDigits(tens: char, ones: char): int {
    10 * (tens as int - '0' as int) + (ones as int - '0' as int)
  }

  /** `TimeSpan.TryParseExact` with "hh:mm", in minutes. */
  function ClockTime(s: string): Option<int> {
    if |s| == 5 && Digit(s[0]) && Digit(s[1]) && s[2] == ':' && Digit(s[3]) && Digit(s[4])
       && TwoDigits(s[0], s[1]) < 24 && TwoDigits(s[3], s[4]) < 60
    then Some(60 * TwoDigits(s[0], s[1]) + TwoDigits(s[3], s[4])) else None
  }

  datatype ScheduleCheck = Unscheduled | Refused | FireAt(local: int)

  /** `ValidateSchedule`. A drafted minute that is the persisted one keeps the persisted seconds. */
  function ValidateSchedule(d: Draft, persisted: Option<int>, localNow: int, zone: int -> Option<int>): ScheduleCheck {
    if !d.scheduledActionEnabled then Unscheduled
    else if d.scheduledDate.None? || ClockTime(d.scheduledTime).None? then Refused
    else
      var whole := DAY * d.scheduledDate.value + MINUTE * ClockTime(d.scheduledTime).value;
      var local := if persisted.Some? && persisted.value / MINUTE == whole / MINUTE then persisted.value else whole;
      if local <= localNow || zone(local).None? then Refused else FireAt(local)
  }

  /** A time of day as it is entered: two digits each for hour and minute. */
  function Entered(hour: nat, minute: nat): string
    requires hour < 24 && minute < 60
  {
    [DigitOf(hour / 10), DigitOf(hour % 10), ':', DigitOf(minute / 10), DigitOf(minute % 10)]
  }

  function DigitOf(n: nat): char
    requires n < 10
  {
    '0' + n as char
  }

  /** A text is a time of day exactly when it is one as entered. */
  lemma ClockTimeExactly(s: string, hour: nat, minute: nat)
    requires hour < 24 && minute < 60
    ensures ClockTime(s) == Some(60 * hour + minute) <==> s == Entered(hour, minute)
    ensures ClockTime(s).Some? ==> 0 <= ClockTime(s).value < 1440
  {
  }

  /** `local` is the drafted time of the drafted day, at the persisted second if that is in the drafted minute. */
  ghost predicate DraftedAt(d: Draft, persisted: Option<int>, local: int) {
    d.scheduledDate.Some? &&
    exists hour: nat, minute: nat | hour < 24 && minute < 60 :: StartsAt(d, persisted, local, hour, minute)
  }

  predicate StartsAt(d: Draft, persisted: Option<int>, local: int, hour: nat, minute: nat)
    requires hour < 24 && minute < 60 && d.scheduledDate.Some?
  {
    var start := 86_400 * d.scheduledDate.value + 3_600 * hour + 60 * minute;
    && d.scheduledTime == Entered(hour, minute)
    && local == (if persisted.Some? && start <= persisted.value < start + 60 then persisted.value else start)
  }

  /** The time is the drafted one, ahead of now, and at exactly one instant. */
  ghost predicate CanFire(d: Draft, persisted: Option<int>, local: int, localNow: int, zone: int -> Option<int>) {
    DraftedAt(d, persisted, local) && local > localNow && zone(local).Some?
  }

  /** The same by division, as the program finds it. */
  predicate DraftedByMinutes(d: Draft, persisted: Option<int>, local: int) {
    && d.scheduledDate.Some? && ClockTime(d.scheduledTime).Some?
    && var whole := DAY * d.scheduledDate.value + MINUTE * ClockTime(d.scheduledTime).value;
       local == (if persisted.Some? && persisted.value / MINUTE == whole / MINUTE then persisted.value else whole)
  }

  lemma DraftedAtExactly(d: Draft, persisted: Option<int>, local: int)
    ensures DraftedAt(d, persisted, local) <==> DraftedByMinutes(d, persisted, local)
  {
    if DraftedByMinutes(d, persisted, local) {
      MinutesAreDrafted(d, persisted, local);
    }
    if DraftedAt(d, persisted, local) {
      var hour: nat, minute: nat :| hour < 24 && minute < 60 && StartsAt(d, persisted, local, hour, minute);
      DraftedInMinutes(d, persisted, local, hour, minute);
    }
  }

  lemma DraftedInMinutes(d: Draft, persisted: Option<int>, local: int, hour: nat, minute: nat)
    requires hour < 24 && minute < 60 && d.scheduledDate.Some? && StartsAt(d, persisted, local, hour, minute)
    ensures DraftedByMinutes(d, persisted, local)
  {
    ClockTimeExactly(d.scheduledTime, hour, minute);
    SameMinute(persisted, d.scheduledDate.value, hour, minute);
  }

  lemma MinutesAreDrafted(d: Draft, persisted: Option<int>, local: int)
    requires DraftedByMinutes(d, persisted, local)
    ensures DraftedAt(d, persisted, local)
  {
    ClockTimeExactly(d.scheduledTime, 0, 0);
    var minutes := ClockTime(d.scheduledTime).value;
    var hour, minute := minutes / 60, minutes % 60;
    ClockTimeExactly(d.scheduledTime, hour, minute);
    SameMinute(persisted, d.scheduledDate.value, hour, minute);
    assert StartsAt(d, persisted, local, hour, minute);
  }

  lemma SameMinute(persisted: Option<int>, date: int, hour: nat, minute: nat)
    ensures var whole := DAY * date + MINUTE * (60 * hour + minute);
            && whole == 86_400 * date + 3_600 * hour + 60 * minute
            && (persisted.Some? ==> (persisted.value / MINUTE == whole / MINUTE <==> whole <= persisted.value < whole + 60))
  {
    var whole := DAY * date + MINUTE * (60 * hour + minute);
    assert whole == MINUTE * (1440 * date + 60 * hour + minute);
    assert whole / MINUTE == 1440 * date + 60 * hour + minute;
  }

  /**
    An enabled draft fires at `local` exactly when that is the drafted time, still ahead, and denotes one
    instant; otherwise it is refused.
   */
  lemma ValidatedExactlyWhen(d: Draft, persisted: Option<int>, localNow: int, zone: int -> Option<int>, local: int)
    ensures var check := ValidateSchedule(d, persisted, localNow, zone);
            && (check.Unscheduled? <==> !d.scheduledActionEnabled)
            && (check == FireAt(local) <==> d.scheduledActionEnabled && CanFire(d, persisted, local, localNow, zone))
            && (check.Refused? <==> d.scheduledActionEnabled && !exists time :: CanFire(d, persisted, time, localNow, zone))
  {
    var check := ValidateSchedule(d, persisted, localNow, zone);
    DraftedAtExactly(d, persisted, local);
    if check.FireAt? {
      DraftedAtExactly(d, persisted, check.local);
      assert CanFire(d, persisted, check.local, localNow, zone);
    }
    if d.scheduledActionEnabled && exists time :: CanFire(d, persisted, time, localNow, zone) {
      var time :| CanFire(d, persisted, time, localNow, zone);
      DraftedAtExactly(d, persisted, time);
    }
  }

  /** The registration for starting with Windows. A failed attempt may leave anything. */
  class StartupService {
    var startOnBoot: bool
    var minimized: bool
    ghost var failures: nat

    method SetStartup(enabled: bool, minimize: bool) returns (ok: bool)
      modifies this
      ensures failures == old(failures) + if ok then 0 else 1
      ensures ok ==> startOnBoot == enabled && minimized == minimize
    {
      ok := *;
      if ok {
        startOnBoot, minimized := enabled, minimize;
      } else {
        startOnBoot, minimized := *, *;
        failures := failures + 1;
      }
    }
  }

  /** What is shown in the chosen theme; applying one may fail. */
  class ThemeService {
    var theme: Theme
    ghost var failures: nat

    method Apply(chosen: Theme) returns (ok: bool)
      modifies this
      ensures failures == old(failures) + if ok then 0 else 1
      ensures ok ==> theme == chosen
    {
      ok := *;
      if ok {
        theme := chosen;
      } else {
        failures := failures + 1;
      }
    }
  }

  /** The draft on top of the settings it was made from, with the time of the schedule as it is persisted. */
  function Candidate(draft: Draft, original: AppSettings, time: string): AppSettings {
    original.(theme := draft.theme, startOnBoot := draft.startOnBoot, showNotifications := draft.showNotifications,
              startMinimizedToTray := draft.startMinimizedToTray, enableAutomaticUpdateChecks := draft.enableAutomaticUpdateChecks,
              enableStartupAccountSync := draft.enableStartupAccountSync, scheduledActionEnabled := draft.scheduledActionEnabled,
              scheduledActionType := draft.scheduledAction, scheduledActionTime := time)
  }

  /**
    Settings that save the draft, field by field: what the page edits is as drafted, what it does not edit is as
    in the original. `enabled` is whether they say that an action is scheduled.
   */
  predicate SavesDraft(saved: AppSettings, d: Draft, original: AppSettings, time: string, enabled: bool) {
    && saved.theme == d.theme && saved.startOnBoot == d.startOnBoot && saved.showNotifications == d.showNotifications
    && saved.startMinimizedToTray == d.startMinimizedToTray && saved.storageMode == d.storageMode
    && saved.enableAutomaticUpdateChecks == d.enableAutomaticUpdateChecks
    && saved.enableStartupAccountSync == d.enableStartupAccountSync
    && saved.scheduledActionEnabled == enabled && saved.scheduledActionType == d.scheduledAction && saved.scheduledActionTime == time
    && saved.keepAliveMethod == original.keepAliveMethod && saved.intervalSeconds == original.intervalSeconds
    && saved.keepAwakeEnabled == original.keepAwakeEnabled && saved.virtualKeyCode == original.virtualKeyCode
    && saved.mousePixelDelta == original.mousePixelDelta
  }

  lemma CandidateSavesDraft(saved: AppSettings, d: Draft, original: AppSettings, time: string, enabled: bool)
    ensures SavesDraft(saved, d, original, time, enabled) <==>
            saved == Candidate(d, original, time).(storageMode := d.storageMode, scheduledActionEnabled := enabled)
  {
  }

  /** The draft holds a value that the settings store refuses. */
  predicate Unsupported(draft: Draft) {
    draft.theme.UnknownTheme? || draft.scheduledAction.Undefined?
  }

  /** Propagated: an exception outside the filter, for settings that do not validate or a disposed scheduler. */
  datatype Outcome = Applied | NotApplied | Propagated

  // ----- timer callbacks between the steps -----

  /** A callback that the timer thread runs: the generation it was created for, and its two clock reads. */
  datatype Pending = Pending(generation: nat, checkedAt: int, decidedAt: int)

  /** The callback finds its action armed and due, and decides it. */
  predicate Strikes(s: Schedule, c: Pending) {
    !s.disposed && s.armed.Some? && c.generation == s.generation && c.checkedAt >= s.armed.value.dueAt
  }

  ghost predicate Struck(s: Schedule, cs: seq<Pending>) {
    exists i :: 0 <= i < |cs| && Strikes(s, cs[i])
  }

  lemma StruckConcat(s: Schedule, a: seq<Pending>, b: seq<Pending>)
    ensures Struck(s, a + b) <==> Struck(s, a) || Struck(s, b)
  {
    if Struck(s, a) {
      var i :| 0 <= i < |a| && Strikes(s, a[i]);
      assert Strikes(s, (a + b)[i]);
    }
    if Struck(s, b) {
      var i :| 0 <= i < |b| && Strikes(s, b[i]);
      assert Strikes(s, (a + b)[|a| + i]);
    }
  }

  /** The callbacks that run in the gaps of one TrySave. */
  datatype Callbacks = Callbacks(
    afterRead: seq<Pending>, afterSave: seq<Pending>, afterMigrate: seq<Pending>,
    beforeRollback: seq<Pending>, afterReturn: seq<Pending>, beforeRestore: seq<Pending>)

  /** A callback decides the action armed before, once the drafted schedule has been saved and before it is armed. */
  ghost predicate Overtaken(s: Schedule, callbacks: Callbacks) {
    !Struck(s, callbacks.afterRead) && Struck(s, callbacks.afterSave + callbacks.afterMigrate)
  }

  lemma NothingArmedIsStruck(s: Schedule, cs: seq<Pending>)
    requires s.armed.None?
    ensures !Struck(s, cs)
  {
  }

  // ----- what can be seen of the page and of the places it commits to -----

  /** The draft, the settings store, the scheduler, the startup registration and the theme, with what has failed in each. */
  datatype Page = Page(
    draft: Draft,
    unsaved: bool,
    saved: AppSettings,
    mode: StorageMode,
    flagged: bool,                   // the primary is to be preserved by the next Save
    disk: Snapshot,
    faults: nat,
    schedule: Schedule,
    startOnBoot: bool,
    minimized: bool,
    missedRegistrations: nat,
    theme: Theme,
    missedThemes: nat)

  /** How many file operations, startup registrations and themes have failed so far. */
  function Failures(p: Page): nat { p.faults + p.missedRegistrations + p.missedThemes }

  predicate Later(a: Page, b: Page) {
    && a.faults <= b.faults && a.missedRegistrations <= b.missedRegistrations && a.missedThemes <= b.missedThemes
    && a.schedule.disposed == b.schedule.disposed
  }

  /** At most the settings store has changed. */
  predicate OnlySettings(a: Page, b: Page) {
    b == a.(saved := b.saved, mode := b.mode, flagged := b.flagged, disk := b.disk, faults := b.faults) && Later(a, b)
  }

  /** At most the settings store and the scheduler have changed. */
  predicate OnlyStored(a: Page, b: Page) {
    OnlySettings(a.(schedule := b.schedule), b) && Later(a, b)
  }

  /** At most the places outside the settings store have changed, and the draft. */
  predicate OnlySystem(a: Page, b: Page) {
    && a.saved == b.saved && a.mode == b.mode && a.flagged == b.flagged && a.disk == b.disk && a.faults == b.faults && Later(a, b)
  }

  /** These settings are in force; a callback that overtook them disarms the action, if it can save that. */
  predicate SavedAmid(saved: AppSettings, s: AppSettings, overtaken: bool, failed: bool) {
    if overtaken then saved == s.(scheduledActionEnabled := false) || (failed && saved == s) else saved == s
  }

  /** Without failures a migration between these locations succeeds. */
  predicate CanMove(s: Snapshot, source: StorageMode, target: StorageMode) {
    source == target || Open(s, source, target)
  }

  lemma CanMoveStays(a: Snapshot, b: Snapshot, source: StorageMode, target: StorageMode)
    requires SameSecrets(a, b)
    ensures CanMove(a, source, target) <==> CanMove(b, source, target)
  {
  }

  /** After a change of location from `m` the way back is open. */
  predicate WayBack(p: Page, m: StorageMode) {
    p.mode != m ==> !p.flagged && CanMove(p.disk, p.mode, m)
  }

  /** Callbacks disarm the action that one of them strikes, and otherwise change nothing. */
  ghost predicate CallbacksRun(a: Page, b: Page, cs: seq<Pending>) {
    if Struck(a.schedule, cs) then
      && OnlyStored(a, b) && a.mode == b.mode && (b.flagged ==> a.flagged) && SameSecrets(a.disk, b.disk)
      && b.schedule.armed.None? && SavedAmid(b.saved, a.saved, true, b.faults > a.faults)
    else b == a
  }

  lemma CallbacksRunOn(a: Page, b: Page, c: Page, xs: seq<Pending>, ys: seq<Pending>)
    requires CallbacksRun(a, b, xs) && CallbacksRun(b, c, ys)
    ensures CallbacksRun(a, c, xs + ys)
  {
    StruckConcat(a.schedule, xs, ys);
  }

  lemma CallbacksKeepTheWay(a: Page, b: Page, cs: seq<Pending>, m: StorageMode)
    requires CallbacksRun(a, b, cs)
    ensures CanMove(a.disk, a.mode, m) <==> CanMove(b.disk, b.mode, m)
    ensures WayBack(a, m) ==> WayBack(b, m)
  {
    if b != a {
      CanMoveStays(a.disk, b.disk, a.mode, m);
    }
  }

  /** `Save`. */
  ghost predicate Saves(a: Page, b: Page, candidate: AppSettings, outcome: Outcome) {
    && OnlySettings(a, b) && a.mode == b.mode && SameSecrets(a.disk, b.disk)
    && (outcome == Propagated <==> !Validates(candidate)) && (outcome == Propagated ==> b == a)
    && (outcome == Applied ==> !b.flagged && b.saved == candidate.(storageMode := b.mode))
    && (outcome == NotApplied ==> b.faults > a.faults)
  }

  /** `MigrateStorage` out of settings that have just been saved, with the callbacks that run after it. */
  ghost predicate Moves(a: Page, b: Page, target: StorageMode, cs: seq<Pending>, ok: bool) {
    && OnlyStored(a, b) && WayBack(b, a.mode)
    && (b.schedule == a.schedule || b.schedule.armed.None?)
    && (b.faults == a.faults ==> (ok <==> CanMove(a.disk, a.mode, target)))
    && (ok ==> b.mode == target
               && SavedAmid(b.saved, a.saved.(storageMode := target), Struck(a.schedule, cs), b.faults > a.faults))
  }

  /** Saving the candidate and migrating, with callbacks after either. */
  ghost predicate CommitsSettings(a: Page, b: Page, candidate: AppSettings, target: StorageMode, cs: seq<Pending>, outcome: Outcome) {
    && OnlyStored(a, b) && WayBack(b, a.mode)
    && (b.schedule == a.schedule || b.schedule.armed.None?)
    && (outcome == Propagated <==> !Validates(candidate)) && (outcome == Propagated ==> b == a)
    && (b.faults == a.faults ==> (outcome == Applied <==> Validates(candidate) && CanMove(a.disk, a.mode, target)))
    && (outcome == Applied ==> b.mode == target
                               && SavedAmid(b.saved, candidate.(storageMode := target), Struck(a.schedule, cs), b.faults > a.faults))
  }

  /** At most one of the two groups of callbacks disarms the action. */
  lemma SavedAmidBoth(a: Page, s: Page, c: Page, b: Page, candidate: AppSettings, target: StorageMode,
                      afterSave: seq<Pending>, afterMigrate: seq<Pending>)
    requires Saves(a, s, candidate, Applied) && CallbacksRun(s, c, afterSave) && Moves(c, b, target, afterMigrate, true)
    ensures SavedAmid(b.saved, candidate.(storageMode := target), Struck(a.schedule, afterSave) || Struck(a.schedule, afterMigrate),
                      b.faults > a.faults)
  {
    var moved := c.saved.(storageMode := target);
    if Struck(s.schedule, afterSave) {
      NothingArmedIsStruck(c.schedule, afterMigrate);
      assert b.saved == moved;
    } else {
      assert c == s && moved == candidate.(storageMode := target);
    }
  }

  lemma SavedAndMoved(a: Page, s: Page, c: Page, b: Page, candidate: AppSettings, target: StorageMode,
                      afterSave: seq<Pending>, afterMigrate: seq<Pending>, ok: bool)
    requires Saves(a, s, candidate, Applied) && CallbacksRun(s, c, afterSave) && Moves(c, b, target, afterMigrate, ok)
    ensures CommitsSettings(a, b, candidate, target, afterSave + afterMigrate, if ok then Applied else NotApplied)
  {
    StruckConcat(a.schedule, afterSave, afterMigrate);
    CanMoveStays(a.disk, s.disk, a.mode, target);
    CallbacksKeepTheWay(s, c, afterSave, target);
    if ok {
      SavedAmidBoth(a, s, c, b, candidate, target, afterSave, afterMigrate);
    }
  }

  /** Returning to the original location and saving the original, as far as they succeed. */
  ghost predicate SettingsRestored(a: Page, b: Page, original: AppSettings, afterReturn: seq<Pending>, complete: bool) {
    && OnlyStored(a, b)
    && (b.schedule == a.schedule || (Struck(a.schedule, afterReturn) && b.schedule.armed.None?))
    && (if complete then b.saved == original && b.mode == original.storageMode else b.faults > a.faults)
  }

  lemma ReturnedAndSaved(a: Page, c: Page, b: Page, original: AppSettings, afterReturn: seq<Pending>, returned: bool, saved: bool)
    requires OnlySettings(a, c) && if returned then c.mode == original.storageMode else c.faults > a.faults
    requires SettingsRestored(c, b, original.(storageMode := c.mode), afterReturn, saved)
    ensures SettingsRestored(a, b, original, afterReturn, returned && saved)
  {
  }

  /**
    How a rollback went: whether every step of it succeeded, and the page when the rollback began and
    when it came to Restore, before the callbacks that run just before that.
   */
  datatype Undoing = Undoing(complete: bool, failed: Page, restoring: Page)

  method MigrateSettings(settings: SettingsService, target: StorageMode) returns (ok: bool)
    requires settings.Consistent() && !settings.preserveDamaged
    modifies settings, settings.secrets.disk
    ensures settings.Consistent() && !settings.preserveDamaged
    ensures settings.mode == if ok then target else old(settings.mode)
    ensures ok ==> settings.current == old(settings.current).(storageMode := target)
    ensures ok ==> CanMove(settings.secrets.disk.Now(), target, old(settings.mode))
    ensures settings.secrets.disk.faults >= old(settings.secrets.disk.faults)
    ensures settings.secrets.disk.faults == old(settings.secrets.disk.faults) ==>
              (ok <==> CanMove(old(settings.secrets.disk.Now()), old(settings.mode), target))
  {
    ok := settings.MigrateStorage(target);
  }

  class SettingsViewModel {
    const settings: SettingsService
    const scheduler: ScheduledActionService
    const startup: StartupService
    const theme: ThemeService
    var draft: Draft
    var hasUnsavedChanges: bool

    constructor (settings: SettingsService, scheduler: ScheduledActionService, startup: StartupService, theme: ThemeService, draft: Draft)
      requires scheduler.settings == settings && scheduler.executor.observed == settings
      ensures this.settings == settings && this.scheduler == scheduler && this.startup == startup && this.theme == theme
      ensures this.draft == draft && !hasUnsavedChanges
    {
      this.settings := settings;
      this.scheduler := scheduler;
      this.startup := startup;
      this.theme := theme;
      this.draft := draft;
      hasUnsavedChanges := false;
    }

    ghost function View(): Page
      reads this, settings, settings.secrets.disk, scheduler, startup, theme
    {
      Page(draft, hasUnsavedChanges,
           settings.current, settings.mode, settings.preserveDamaged, settings.secrets.disk.Now(), settings.secrets.disk.faults,
           scheduler.State(), startup.startOnBoot, startup.minimized, startup.failures, theme.theme, theme.failures)
    }

    /** What a fresh Load finds is what is in memory, and the preserve flag tells the truth. */
    ghost predicate Sound()
      reads settings, settings.secrets.disk
    {
      && scheduler.settings == settings && scheduler.executor.observed == settings
      && settings.Consistent() && settings.FlagIsTrue()
    }

    // ----- what applying a draft should leave -----

    /** The time persisted with the draft: the validated one of an enabled schedule, otherwise the draft's own. */
    function PersistedTime(d: Draft, check: ScheduleCheck): string {
      if check.FireAt? then scheduler.calendar.format(check.local) else d.scheduledActionTime
    }

    /** What ValidateSchedule says of the draft. */
    function Check(p: Page, localNow: int): ScheduleCheck {
      ValidateSchedule(p.draft, scheduler.calendar.parse(p.saved.scheduledActionTime), localNow, scheduler.zone)
    }

    /** The action that the drafted schedule arms. */
    function Drafted(d: Draft, check: ScheduleCheck): Option<Armed> {
      if check.FireAt? && scheduler.zone(check.local).Some?
      then Some(Armed(d.scheduledAction, scheduler.zone(check.local).value)) else None
    }

    /** The persisted form of a local time reads back as it; what is armed is then what Restore would arm. */
    predicate PrintsFaithfully(local: int) {
      scheduler.calendar.parse(scheduler.calendar.format(local)) == Some(local)
    }

    /** The drafted schedule, if there is one, can be armed by a guard that reads the clock at `scheduledAt`. */
    predicate CanArm(s: Schedule, d: Draft, check: ScheduleCheck, scheduledAt: int) {
      check.FireAt? ==>
        !s.disposed && !d.scheduledAction.Undefined?
        && scheduler.zone(check.local).Some? && scheduler.zone(check.local).value > scheduledAt
    }

    /** The draft can be applied: it is supported, and neither its location nor its schedule is in the way. */
    predicate CanApply(p: Page, check: ScheduleCheck, scheduledAt: int) {
      !Unsupported(p.draft) && CanArm(p.schedule, p.draft, check, scheduledAt) && CanMove(p.disk, p.mode, p.draft.storageMode)
    }

    /** Settings, storage location, startup registration and scheduler are those of the draft, which fires at `check`. */
    predicate MatchesDraft(p: Page, d: Draft, original: AppSettings, check: ScheduleCheck) {
      MatchesDraftAmid(p, d, original, check, false, false)
    }

    /**
      As MatchesDraft, unless a callback overtook the saved settings: then it has disarmed the action they arm, if
      it could save that.
     */
    predicate MatchesDraftAmid(p: Page, d: Draft, original: AppSettings, check: ScheduleCheck, overtaken: bool, failed: bool) {
      var time := if check.FireAt? then scheduler.calendar.format(check.local) else d.scheduledActionTime;
      && p.mode == d.storageMode
      && (if overtaken
          then SavesDraft(p.saved, d, original, time, false)
               || (failed && SavesDraft(p.saved, d, original, time, d.scheduledActionEnabled))
          else SavesDraft(p.saved, d, original, time, d.scheduledActionEnabled))
      && p.startOnBoot == d.startOnBoot && p.minimized == d.startMinimizedToTray
      && (if check.FireAt? && scheduler.zone(check.local).Some?
          then p.schedule.armed == Some(Armed(d.scheduledAction, scheduler.zone(check.local).value)) else p.schedule.armed.None?)
    }

    /** Without a failed file operation the draft is matched unless a callback overtook the schedule it enables. */
    lemma MatchedExactlyWhen(p: Page, d: Draft, original: AppSettings, check: ScheduleCheck, overtaken: bool)
      requires MatchesDraftAmid(p, d, original, check, overtaken, false)
      ensures MatchesDraft(p, d, original, check) <==> !(overtaken && d.scheduledActionEnabled)
    {
    }

    /** What a scheduler can be found in after an attempt to apply the draft: as before, idle, or armed as drafted. */
    predicate ArmedAmid(s: Schedule, before: Schedule, d: Draft, check: ScheduleCheck) {
      s == before || s.armed.None? || s.armed == Drafted(d, check)
    }

    /** The draft of `a`, made from `original`, has been applied. */
    predicate AppliedDraft(a: Page, b: Page, original: AppSettings, check: ScheduleCheck, overtaken: bool) {
      && b.draft == a.draft.(scheduledActionTime := PersistedTime(a.draft, check)) && !b.unsaved && b.theme == a.draft.theme
      && MatchesDraftAmid(b, a.draft, original, check, overtaken, b.faults > a.faults)
    }

    // ----- what rolling back should leave -----

    function RecordOf(s: AppSettings): Record {
      Record(s.scheduledActionEnabled, s.scheduledActionType, scheduler.Resolve(s.scheduledActionTime))
    }

    /** All four are those of the original, with the schedule as Restore gives it at `now`. */
    predicate MatchesOriginal(p: Page, original: AppSettings, now: int) {
      BackTo(p, original) && ScheduleRestored(p, original, now)
    }

    /** Settings, location and startup registration are those of the original, but the action may be disarmed. */
    predicate BackTo(p: Page, original: AppSettings) {
      && p.mode == original.storageMode
      && (p.saved == original || p.saved == original.(scheduledActionEnabled := false))
      && p.startOnBoot == original.startOnBoot && p.minimized == original.startMinimizedToTray
    }

    /** What Restore leaves of the saved schedule of `s`. */
    predicate ScheduleRestored(p: Page, s: AppSettings, now: int) {
      var record := RecordOf(s);
      && (p.saved == s || (record.enabled && !Restorable(record, now) && p.saved == s.(scheduledActionEnabled := false)))
      && p.schedule.armed == (if Restorable(record, now) then Some(Armed(record.action, record.due.value)) else None)
    }

    /** A callback has disarmed the original. */
    predicate DisarmedOriginal(p: Page, original: AppSettings) {
      BackTo(p, original) && p.saved == original.(scheduledActionEnabled := false) && p.schedule.armed.None?
    }

    /** A callback strikes just before Restore, when the original action could still be restored. */
    ghost predicate OriginalOvertaken(restoring: Page, original: AppSettings, restoredAt: int, beforeRestore: seq<Pending>) {
      Struck(restoring.schedule, beforeRestore) && Restorable(RecordOf(original), restoredAt)
    }

    /** What a complete rollback leaves. */
    ghost predicate Undone(p: Page, original: AppSettings, restoredAt: int, beforeRestore: seq<Pending>, restoring: Page) {
      if OriginalOvertaken(restoring, original, restoredAt, beforeRestore)
      then DisarmedOriginal(p, original) || (p.faults > restoring.faults && MatchesOriginal(p, original, restoredAt))
      else MatchesOriginal(p, original, restoredAt)
    }

    /** Without a failed file operation since, the original is matched unless a callback overtook it. */
    lemma UndoneExactlyWhen(p: Page, original: AppSettings, restoredAt: int, beforeRestore: seq<Pending>, restoring: Page)
      requires Undone(p, original, restoredAt, beforeRestore, restoring) && p.faults == restoring.faults
      ensures MatchesOriginal(p, original, restoredAt) <==> !OriginalOvertaken(restoring, original, restoredAt, beforeRestore)
    {
    }

    /** With a clock that does not go back, the original action itself cannot overtake its own restoring. */
    lemma OvertakenByAnotherAction(restoring: Page, original: AppSettings, restoredAt: int, beforeRestore: seq<Pending>)
      requires forall c :: c in beforeRestore ==> c.checkedAt <= restoredAt
      requires OriginalOvertaken(restoring, original, restoredAt, beforeRestore)
      ensures restoring.schedule.armed.Some? && restoring.schedule.armed.value.dueAt < RecordOf(original).due.value
    {
      var i :| 0 <= i < |beforeRestore| && Strikes(restoring.schedule, beforeRestore[i]);
      assert beforeRestore[i] in beforeRestore;
    }

    /** Restore and the callbacks just before it. */
    ghost predicate ScheduleUndone(a: Page, b: Page, cs: seq<Pending>, restoredAt: int, escaped: bool) {
      && OnlyStored(a, b) && a.mode == b.mode && (escaped ==> a.schedule.disposed)
      && (!escaped ==>
            if Struck(a.schedule, cs) && Restorable(RecordOf(a.saved), restoredAt)
            then (b.saved == a.saved.(scheduledActionEnabled := false) && b.schedule.armed.None?)
                 || (b.faults > a.faults && ScheduleRestored(b, a.saved, restoredAt))
            else ScheduleRestored(b, a.saved, restoredAt))
    }

    /** A rollback from `a` to `b`. */
    ghost predicate RollsBack(a: Page, b: Page, original: AppSettings, callbacks: Callbacks, restoredAt: int, escaped: bool, undoing: Undoing) {
      && undoing.failed == a && Later(a, undoing.restoring) && Later(undoing.restoring, b)
      && b.draft == a.draft && b.theme == a.theme
      && (undoing.restoring.schedule == a.schedule
          || (Struck(a.schedule, callbacks.afterReturn) && undoing.restoring.schedule.armed.None?))
      && (!undoing.complete ==> Failures(b) > Failures(a))
      && (escaped ==> a.schedule.disposed)
      && (undoing.complete && !escaped ==> Undone(b, original, restoredAt, callbacks.beforeRestore, undoing.restoring))
    }

    /** What the attempt to apply a draft made from `original` comes to, once its schedule has been validated. */
    ghost predicate Attempted(a: Page, b: Page, original: AppSettings, check: ScheduleCheck, overtaken: bool, callbacks: Callbacks,
                              scheduledAt: int, restoredAt: int, outcome: Outcome, undoing: Undoing) {
      && (b.draft == a.draft || b.draft == a.draft.(scheduledActionTime := PersistedTime(a.draft, check)))
      && Later(a, undoing.failed) && Later(undoing.failed, undoing.restoring) && Later(undoing.restoring, b)
      && (!undoing.complete ==> Failures(b) > Failures(undoing.failed))
      && (outcome == Applied ==> AppliedDraft(a, b, original, check, overtaken))
      && (Failures(b) == Failures(a) ==> (outcome == Applied <==> CanApply(a, check, scheduledAt)))
      && (outcome == NotApplied ==>
            && b.unsaved && ArmedAmid(undoing.restoring.schedule, a.schedule, a.draft, check)
            && (undoing.complete ==> Undone(b, original, restoredAt, callbacks.beforeRestore, undoing.restoring)))
      && (Unsupported(a.draft) ==> outcome == Propagated)
      && (outcome == Propagated ==> a.schedule.disposed || Unsupported(a.draft))
    }

    // ----- the settings part -----

    /** One callback of the timer. */
    method LetCallbackRun(c: Pending)
      requires Sound()
      modifies settings, settings.secrets.disk, scheduler, scheduler.executor
      ensures Sound() && CallbacksRun(old(View()), View(), [c])
    {
      ghost var s := scheduler.State();
      assert Struck(s, [c]) <==> Strikes(s, c) by {
        assert [c][0] == c;
      }
      var decision, saved := scheduler.OnTimer(c.generation, c.checkedAt, c.decidedAt);
    }

    method LetCallbacksRun(callbacks: seq<Pending>)
      requires Sound()
      modifies settings, settings.secrets.disk, scheduler, scheduler.executor
      ensures Sound() && CallbacksRun(old(View()), View(), callbacks)
    {
      for i := 0 to |callbacks|
        invariant Sound() && CallbacksRun(old(View()), View(), callbacks[..i])
      {
        ghost var before := View();
        LetCallbackRun(callbacks[i]);
        CallbacksRunOn(old(View()), before, View(), callbacks[..i], [callbacks[i]]);
        assert callbacks[..i + 1] == callbacks[..i] + [callbacks[i]];
      }
      assert callbacks[..|callbacks|] == callbacks;
    }

    method Save(candidate: AppSettings) returns (outcome: Outcome)
      requires Sound()
      modifies settings, settings.secrets.disk
      ensures Sound() && Saves(old(View()), View(), candidate, outcome)
    {
      var saved, id := settings.Save(candidate);
      outcome := match saved case Saved => Applied case InvalidData => Propagated case IoFailure => NotApplied;
    }

    method MigrateTo(target: StorageMode) returns (ok: bool)
      requires Sound() && !settings.preserveDamaged
      modifies settings, settings.secrets.disk
      ensures Sound() && Moves(old(View()), View(), target, [], ok) && View().schedule == old(View()).schedule
      ensures !settings.preserveDamaged
    {
      ok := MigrateSettings(settings, target);
    }

    /** Migrating, and the callbacks that run after it. */
    method Migrate(target: StorageMode, afterMigrate: seq<Pending>) returns (ok: bool)
      requires Sound() && !settings.preserveDamaged
      modifies settings, settings.secrets.disk, scheduler, scheduler.executor
      ensures Sound() && Moves(old(View()), View(), target, afterMigrate, ok)
    {
      ok := MigrateTo(target);
      if ok {
        ghost var moved := View();
        LetCallbacksRun(afterMigrate);
        CallbacksKeepTheWay(moved, View(), afterMigrate, old(settings.mode));
      }
    }

    /** The settings part of applying a draft: save, then migrate. */
    method CommitSettings(candidate: AppSettings, target: StorageMode, afterSave: seq<Pending>, afterMigrate: seq<Pending>)
      returns (outcome: Outcome)
      requires Sound()
      modifies settings, settings.secrets.disk, scheduler, scheduler.executor
      ensures Sound() && CommitsSettings(old(View()), View(), candidate, target, afterSave + afterMigrate, outcome)
    {
      outcome := Save(candidate);
      if outcome == Applied {
        outcome := MigrateSaved(candidate, target, afterSave, afterMigrate, old(View()));
      }
    }

    /** The same once the candidate has been saved. */
    method MigrateSaved(candidate: AppSettings, target: StorageMode, afterSave: seq<Pending>, afterMigrate: seq<Pending>, ghost a: Page)
      returns (outcome: Outcome)
      requires Sound() && Saves(a, View(), candidate, Applied)
      modifies settings, settings.secrets.disk, scheduler, scheduler.executor
      ensures Sound() && CommitsSettings(a, View(), candidate, target, afterSave + afterMigrate, outcome) && outcome != Propagated
    {
      LetCallbacksRun(afterSave);
      ghost var before := View();
      var migrated := Migrate(target, afterMigrate);
      outcome := if migrated then Applied else NotApplied;
      SavedAndMoved(a, old(View()), before, View(), candidate, target, afterSave, afterMigrate, migrated);
    }

    /** Return to the original location. */
    method ReturnTo(originalMode: StorageMode) returns (ok: bool)
      requires Sound() && WayBack(View(), originalMode)
      modifies settings, settings.secrets.disk
      ensures Sound() && OnlySettings(old(View()), View())
      ensures if ok then settings.mode == originalMode else settings.secrets.disk.faults > old(settings.secrets.disk.faults)
    {
      ok := true;
      if settings.mode != originalMode {
        ok := MigrateTo(originalMode);
      }
    }

    // ----- TrySave -----

    /**
      `TrySave`. A drafted schedule is validated first, and an applied one fires in the drafted minute of the
      drafted day. When nothing fails the draft is applied if and only if it can be. The rollback is complete
      unless one more step fails after those that had failed before it.
     */
    method TrySave(localNow: int, callbacks: Callbacks, scheduledAt: int, restoredAt: int)
      returns (outcome: Outcome, ghost undoing: Undoing)
      requires Sound()
      modifies this, settings, settings.secrets.disk, scheduler, scheduler.executor, startup, theme
      ensures Sound()
      ensures var a, b := old(View()), View(); var check := Check(a, localNow);
              && (b.draft == a.draft || b.draft == a.draft.(scheduledActionTime := PersistedTime(a.draft, check)))
              && (check.FireAt? ==>
                    CanFire(a.draft, scheduler.calendar.parse(a.saved.scheduledActionTime), check.local, localNow, scheduler.zone))
              && (check.Refused? ==> outcome == NotApplied && b == a)
      ensures outcome == Applied ==>
                var a, b := old(View()), View(); var check := Check(a, localNow);
                && AppliedDraft(a, b, a.saved, check, Overtaken(a.schedule, callbacks))
                && (b.faults == a.faults ==>
                      (MatchesDraft(b, a.draft, a.saved, check) <==>
                       !(Overtaken(a.schedule, callbacks) && a.draft.scheduledActionEnabled)))
                && (check.FireAt? && PrintsFaithfully(check.local) ==>
                      b.schedule.armed == Some(Armed(a.draft.scheduledAction, scheduler.Resolve(b.draft.scheduledActionTime).value)))
      ensures var a, b := old(View()), View(); var check := Check(a, localNow);
              Failures(b) == Failures(a) ==> (outcome == Applied <==> !check.Refused? && CanApply(a, check, scheduledAt))
      ensures var a, b := old(View()), View(); var check := Check(a, localNow);
              !check.Refused? && outcome == NotApplied ==>
                && b.unsaved
                && ArmedAmid(undoing.restoring.schedule, a.schedule, a.draft, check)
                && (undoing.complete ==>
                      && Undone(b, a.saved, restoredAt, callbacks.beforeRestore, undoing.restoring)
                      && (b.faults == undoing.restoring.faults ==>
                            (MatchesOriginal(b, a.saved, restoredAt) <==>
                             !OriginalOvertaken(undoing.restoring, a.saved, restoredAt, callbacks.beforeRestore))))
      ensures var a, b := old(View()), View(); var check := Check(a, localNow);
              && (!check.Refused? && Unsupported(a.draft) ==> outcome == Propagated && (!Struck(a.schedule, callbacks.afterRead) ==> b == a))
              && (outcome == Propagated ==> a.schedule.disposed || Unsupported(a.draft))
      ensures var a, b := old(View()), View();
              && Later(a, undoing.failed) && Later(undoing.failed, undoing.restoring) && Later(undoing.restoring, b)
              && (!undoing.complete ==> Failures(b) > Failures(undoing.failed))
    {
      ghost var a := View();
      var check := Validate(localNow);
      undoing := Undoing(true, a, a);
      if check.Refused? { return NotApplied, undoing; }
      outcome, undoing := ApplyDraft(check, callbacks, scheduledAt, restoredAt);
      AttemptedExactlyWhen(a, View(), check, callbacks, scheduledAt, restoredAt, outcome, undoing);
    }

    lemma AttemptedExactlyWhen(a: Page, b: Page, check: ScheduleCheck, callbacks: Callbacks, scheduledAt: int, restoredAt: int,
                               outcome: Outcome, undoing: Undoing)
      requires Attempted(a, b, a.saved, check, Overtaken(a.schedule, callbacks), callbacks, scheduledAt, restoredAt, outcome, undoing)
      ensures outcome == Applied && b.faults == a.faults ==>
                (MatchesDraft(b, a.draft, a.saved, check) <==> !(Overtaken(a.schedule, callbacks) && a.draft.scheduledActionEnabled))
      ensures outcome == NotApplied && undoing.complete && b.faults == undoing.restoring.faults ==>
                (MatchesOriginal(b, a.saved, restoredAt) <==>
                 !OriginalOvertaken(undoing.restoring, a.saved, restoredAt, callbacks.beforeRestore))
      ensures outcome == Applied && check.FireAt? && scheduler.zone(check.local).Some? && PrintsFaithfully(check.local) ==>
                b.schedule.armed == Some(Armed(a.draft.scheduledAction, scheduler.Resolve(b.draft.scheduledActionTime).value))
    {
      if outcome == Applied && b.faults == a.faults {
        MatchedExactlyWhen(b, a.draft, a.saved, check, Overtaken(a.schedule, callbacks));
      }
      if outcome == NotApplied && undoing.complete && b.faults == undoing.restoring.faults {
        UndoneExactlyWhen(b, a.saved, restoredAt, callbacks.beforeRestore, undoing.restoring);
      }
    }

    method Validate(localNow: int) returns (check: ScheduleCheck)
      ensures check == Check(View(), localNow)
      ensures check.FireAt? ==>
                CanFire(draft, scheduler.calendar.parse(settings.current.scheduledActionTime), check.local, localNow, scheduler.zone)
    {
      var persisted := scheduler.calendar.parse(settings.current.scheduledActionTime);
      check := ValidateSchedule(draft, persisted, localNow, scheduler.zone);
      if check.FireAt? {
        ValidatedExactlyWhen(draft, persisted, localNow, scheduler.zone, check.local);
      }
    }

    /** `TrySave` once the schedule of the draft has been validated. */
    method ApplyDraft(check: ScheduleCheck, callbacks: Callbacks, scheduledAt: int, restoredAt: int)
      returns (outcome: Outcome, ghost undoing: Undoing)
      requires Sound() && (check.FireAt? ==> scheduler.zone(check.local).Some?)
      modifies this, settings, settings.secrets.disk, scheduler, scheduler.executor, startup, theme
      ensures Sound() && var a, b := old(View()), View();
              && Attempted(a, b, a.saved, check, Overtaken(a.schedule, callbacks), callbacks, scheduledAt, restoredAt, outcome, undoing)
              && (Unsupported(a.draft) && !Struck(a.schedule, callbacks.afterRead) ==> b == a)
    {
      var original := settings.current;
      LetCallbacksRun(callbacks.afterRead);
      ghost var read := View();
      outcome, undoing := CommitOrUndo(original, check, callbacks, scheduledAt, restoredAt);
      ReadAndAttempted(old(View()), read, View(), check, callbacks, scheduledAt, restoredAt, outcome, undoing);
    }

    lemma ReadAndAttempted(a: Page, read: Page, b: Page, check: ScheduleCheck, callbacks: Callbacks,
                           scheduledAt: int, restoredAt: int, outcome: Outcome, undoing: Undoing)
      requires CallbacksRun(a, read, callbacks.afterRead)
      requires Attempted(read, b, a.saved, check, Struck(read.schedule, callbacks.afterSave + callbacks.afterMigrate), callbacks,
                         scheduledAt, restoredAt, outcome, undoing)
      ensures Attempted(a, b, a.saved, check, Overtaken(a.schedule, callbacks), callbacks, scheduledAt, restoredAt, outcome, undoing)
    {
      if Struck(a.schedule, callbacks.afterRead) {
        NothingArmedIsStruck(read.schedule, callbacks.afterSave + callbacks.afterMigrate);
        CallbacksKeepTheWay(a, read, callbacks.afterRead, a.draft.storageMode);
      }
    }

    /** Committing the draft made from `original`, or rolling back to it. */
    method CommitOrUndo(original: AppSettings, check: ScheduleCheck, callbacks: Callbacks, scheduledAt: int, restoredAt: int)
      returns (outcome: Outcome, ghost undoing: Undoing)
      requires Sound() && (check.FireAt? ==> scheduler.zone(check.local).Some?)
      requires Validates(original) && original.storageMode == settings.mode
      modifies this, settings, settings.secrets.disk, scheduler, scheduler.executor, startup, theme
      ensures Sound() && var a, b := old(View()), View();
              && Attempted(a, b, original, check, Struck(a.schedule, callbacks.afterSave + callbacks.afterMigrate), callbacks,
                           scheduledAt, restoredAt, outcome, undoing)
              && (Unsupported(a.draft) ==> b == a)
    {
      outcome := Commit(draft, original, check, callbacks, scheduledAt);
      undoing := Undoing(true, View(), View());
      if outcome == NotApplied {
        outcome, undoing := Undo(original, callbacks, restoredAt);
      }
    }

    /** What the try block of `TrySave` comes to. NotApplied: one of its steps threw an exception the filter lists. */
    ghost predicate Commits(a: Page, b: Page, original: AppSettings, check: ScheduleCheck, callbacks: Callbacks,
                            scheduledAt: int, outcome: Outcome) {
      && (b.draft == a.draft || b.draft == a.draft.(scheduledActionTime := PersistedTime(a.draft, check)))
      && Later(a, b) && WayBack(b, original.storageMode)
      && (outcome == Applied ==>
            AppliedDraft(a, b, original, check, Struck(a.schedule, callbacks.afterSave + callbacks.afterMigrate)))
      && (Failures(b) == Failures(a) ==> (outcome == Applied <==> CanApply(a, check, scheduledAt)))
      && ArmedAmid(b.schedule, a.schedule, a.draft, check)
      && (Unsupported(a.draft) ==> outcome == Propagated && b == a)
      && (outcome == Propagated ==> a.schedule.disposed || Unsupported(a.draft))
    }

    method Commit(d: Draft, original: AppSettings, check: ScheduleCheck, callbacks: Callbacks, scheduledAt: int) returns (outcome: Outcome)
      requires Sound() && (check.FireAt? ==> scheduler.zone(check.local).Some?)
      requires d == draft && Validates(original) && original.storageMode == settings.mode
      modifies this, settings, settings.secrets.disk, scheduler, scheduler.executor, startup, theme
      ensures Sound() && Commits(old(View()), View(), original, check, callbacks, scheduledAt, outcome)
    {
      outcome := CommitSettings(Candidate(d, original, PersistedTime(d, check)), d.storageMode, callbacks.afterSave, callbacks.afterMigrate);
      if outcome == Applied {
        ghost var stored := View();
        outcome := Activate(d, check, scheduledAt);
        StoredAndActivated(old(View()), stored, View(), original, check, callbacks, scheduledAt, outcome);
      } else {
        NotStored(old(View()), View(), original, check, callbacks, scheduledAt, outcome);
      }
    }

    lemma StoredAndActivated(a: Page, c: Page, b: Page, original: AppSettings, check: ScheduleCheck, callbacks: Callbacks,
                             scheduledAt: int, outcome: Outcome)
      requires CommitsSettings(a, c, Candidate(a.draft, original, PersistedTime(a.draft, check)), a.draft.storageMode,
                               callbacks.afterSave + callbacks.afterMigrate, Applied)
      requires Activates(c, b, check, scheduledAt, outcome)
      requires Validates(original) && original.storageMode == a.mode
      ensures Commits(a, b, original, check, callbacks, scheduledAt, outcome)
    {
      var cs := callbacks.afterSave + callbacks.afterMigrate;
      if outcome == Applied {
        StoredAndApplied(a, c, b, original, check, cs, scheduledAt);
      }
      assert !Unsupported(a.draft) by {
        assert Validates(Candidate(a.draft, original, PersistedTime(a.draft, check)));
      }
      assert b.schedule == c.schedule || b.schedule.armed.None? || b.schedule.armed == Drafted(a.draft, check);
    }

    lemma StoredAndApplied(a: Page, c: Page, b: Page, original: AppSettings, check: ScheduleCheck, cs: seq<Pending>, scheduledAt: int)
      requires CommitsSettings(a, c, Candidate(a.draft, original, PersistedTime(a.draft, check)), a.draft.storageMode, cs, Applied)
      requires Activates(c, b, check, scheduledAt, Applied)
      ensures AppliedDraft(a, b, original, check, Struck(a.schedule, cs))
    {
      CandidateSavesDraft(b.saved, a.draft, original, PersistedTime(a.draft, check), a.draft.scheduledActionEnabled);
      CandidateSavesDraft(b.saved, a.draft, original, PersistedTime(a.draft, check), false);
    }

    lemma NotStored(a: Page, b: Page, original: AppSettings, check: ScheduleCheck, callbacks: Callbacks, scheduledAt: int, outcome: Outcome)
      requires CommitsSettings(a, b, Candidate(a.draft, original, PersistedTime(a.draft, check)), a.draft.storageMode,
                               callbacks.afterSave + callbacks.afterMigrate, outcome)
      requires outcome != Applied && Validates(original) && original.storageMode == a.mode
      ensures Commits(a, b, original, check, callbacks, scheduledAt, outcome)
    {
    }

    /** What the steps outside the settings store come to: startup registration, scheduler, theme. */
    predicate Activates(a: Page, b: Page, check: ScheduleCheck, scheduledAt: int, outcome: Outcome) {
      && OnlySystem(a, b)
      && (b.draft == a.draft || b.draft == a.draft.(scheduledActionTime := PersistedTime(a.draft, check)))
      && (outcome == Applied ==>
            && b.startOnBoot == a.draft.startOnBoot && b.minimized == a.draft.startMinimizedToTray
            && b.schedule.armed == Drafted(a.draft, check) && b.theme == a.draft.theme
            && b.draft == a.draft.(scheduledActionTime := PersistedTime(a.draft, check)) && !b.unsaved)
      && (outcome == Propagated ==> a.schedule.disposed)
      && (Failures(b) == Failures(a) ==> (outcome == Applied <==> CanArm(a.schedule, a.draft, check, scheduledAt)))
      && ArmedAmid(b.schedule, a.schedule, a.draft, check)
    }

    method Activate(d: Draft, check: ScheduleCheck, scheduledAt: int) returns (outcome: Outcome)
      requires d == draft && (check.FireAt? ==> scheduler.zone(check.local).Some?)
      modifies this, scheduler, startup, theme
      ensures Activates(old(View()), View(), check, scheduledAt, outcome)
    {
      outcome := NotApplied;
      var registered := startup.SetStartup(d.startOnBoot, d.startMinimizedToTray);
      ghost var c := View();
      assert OnlySystem(old(View()), c) && c.schedule == old(View()).schedule && c.draft == d;
      if registered {
        outcome := ArmAndShow(d, check, scheduledAt);
      }
    }

    method ArmAndShow(d: Draft, check: ScheduleCheck, scheduledAt: int) returns (outcome: Outcome)
      requires d == draft && (check.FireAt? ==> scheduler.zone(check.local).Some?)
      modifies this, scheduler, theme
      ensures var a, b := old(View()), View();
              && b == a.(draft := b.draft, unsaved := b.unsaved, schedule := b.schedule, theme := b.theme, missedThemes := b.missedThemes)
              && (outcome == Applied ==>
                    && b.schedule.armed == Drafted(d, check) && b.theme == d.theme && !b.unsaved
                    && b.draft == d.(scheduledActionTime := PersistedTime(d, check)))
              && (b.draft == d || b.draft == d.(scheduledActionTime := PersistedTime(d, check)))
              && Later(a, b)
              && (outcome == Propagated ==> a.schedule.disposed)
              && (b.missedThemes == a.missedThemes ==> (outcome == Applied <==> CanArm(a.schedule, d, check, scheduledAt)))
              && ArmedAmid(b.schedule, a.schedule, d, check)
    {
      outcome := ArmDrafted(d, check, scheduledAt);
      if outcome == Applied {
        ghost var armed := View();
        var shown := ShowDraft(d, check);
        outcome := if shown then Applied else NotApplied;
      }
    }

    method ArmDrafted(d: Draft, check: ScheduleCheck, scheduledAt: int) returns (outcome: Outcome)
      requires check.FireAt? ==> scheduler.zone(check.local).Some?
      modifies scheduler
      ensures var a, b := old(View()), View();
              && b == a.(schedule := b.schedule) && b.schedule.disposed == a.schedule.disposed
              && (outcome == Applied <==> CanArm(a.schedule, d, check, scheduledAt))
              && (outcome == Propagated ==> a.schedule.disposed)
              && (if outcome == Applied then b.schedule.armed == Drafted(d, check) else b == a)
    {
      if check.FireAt? {
        var armedAt: int := *;
        var arming := scheduler.Schedule(d.scheduledAction, check.local, scheduledAt, armedAt);
        return match arming case Accepted => Applied case Rejected => NotApplied case AlreadyDisposed => Propagated;
      }
      scheduler.Cancel();
      return Applied;
    }

    method ShowDraft(d: Draft, check: ScheduleCheck) returns (ok: bool)
      modifies this, theme
      ensures var a, b := old(View()), View();
              && b == a.(draft := a.draft.(scheduledActionTime := PersistedTime(d, check)),
                         theme := b.theme, missedThemes := b.missedThemes, unsaved := !ok && a.unsaved)
              && (ok ==> b.theme == d.theme) && b.missedThemes == a.missedThemes + if ok then 0 else 1
    {
      draft := draft.(scheduledActionTime := PersistedTime(d, check));
      ok := theme.Apply(d.theme);
      if ok {
        hasUnsavedChanges := false;
      }
    }

    // ----- rolling back -----

    /** The same after the callbacks that run just before it. */
    method Undo(original: AppSettings, callbacks: Callbacks, restoredAt: int) returns (outcome: Outcome, ghost undoing: Undoing)
      requires Sound() && WayBack(View(), original.storageMode) && Validates(original)
      modifies this`hasUnsavedChanges, settings, settings.secrets.disk, scheduler, scheduler.executor, startup
      ensures Sound() && outcome != Applied
      ensures var a, b := old(View()), View();
              && b.draft == a.draft && b.theme == a.theme
              && Later(a, undoing.failed) && Later(undoing.failed, undoing.restoring) && Later(undoing.restoring, b)
              && (!undoing.complete ==> Failures(b) > Failures(undoing.failed))
              && (undoing.restoring.schedule == a.schedule || undoing.restoring.schedule.armed.None?)
              && (outcome == Propagated ==> a.schedule.disposed)
              && (outcome == NotApplied ==>
                    b.unsaved && (undoing.complete ==> Undone(b, original, restoredAt, callbacks.beforeRestore, undoing.restoring)))
    {
      LetCallbacksRun(callbacks.beforeRollback);
      CallbacksKeepTheWay(old(View()), View(), callbacks.beforeRollback, original.storageMode);
      outcome, undoing := Catch(original, callbacks, restoredAt);
    }

    /** The catch block of `TrySave`. */
    method Catch(original: AppSettings, callbacks: Callbacks, restoredAt: int) returns (outcome: Outcome, ghost undoing: Undoing)
      requires Sound() && WayBack(View(), original.storageMode) && Validates(original)
      modifies this`hasUnsavedChanges, settings, settings.secrets.disk, scheduler, scheduler.executor, startup
      ensures Sound() && outcome != Applied
      ensures var a, b := old(View()), View();
              && RollsBack(a, b, original, callbacks, restoredAt, outcome == Propagated, undoing)
              && (outcome == NotApplied ==> b.unsaved)
    {
      var escaped;
      escaped, undoing := RollBack(original, callbacks, restoredAt);
      ghost var c := View();
      outcome := Conclude(escaped);
      StillRollsBack(old(View()), c, View(), original, callbacks, restoredAt, escaped, undoing);
    }

    method Conclude(escaped: bool) returns (outcome: Outcome)
      modifies this`hasUnsavedChanges
      ensures View() == old(View()).(unsaved := old(hasUnsavedChanges) || !escaped)
      ensures outcome == if escaped then Propagated else NotApplied
    {
      if escaped { return Propagated; }
      hasUnsavedChanges := true;
      return NotApplied;
    }

    lemma StillRollsBack(a: Page, c: Page, b: Page, original: AppSettings, callbacks: Callbacks, restoredAt: int, escaped: bool, undoing: Undoing)
      requires RollsBack(a, c, original, callbacks, restoredAt, escaped, undoing) && b == c.(unsaved := b.unsaved)
      ensures RollsBack(a, b, original, callbacks, restoredAt, escaped, undoing)
    {
    }

    /** The steps of rolling back. A callback that strikes just before Restore disarms the saved original. */
    method RollBack(original: AppSettings, callbacks: Callbacks, restoredAt: int) returns (escaped: bool, ghost undoing: Undoing)
      requires Sound() && WayBack(View(), original.storageMode) && Validates(original)
      modifies settings, settings.secrets.disk, scheduler, scheduler.executor, startup
      ensures Sound() && RollsBack(old(View()), View(), original, callbacks, restoredAt, escaped, undoing)
    {
      var saved;
      ghost var complete;
      saved, complete := RestoreSettings(original, callbacks.afterReturn);
      undoing := Undoing(false, old(View()), View());
      escaped := false;
      if saved {
        escaped, undoing := RestoreSystem(original, complete, callbacks.beforeRestore, restoredAt, old(View()));
      }
    }

    /** The settings part of rolling back: return to the original location, then save the original. */
    method RestoreSettings(original: AppSettings, afterReturn: seq<Pending>) returns (saved: bool, ghost complete: bool)
      requires Sound() && WayBack(View(), original.storageMode) && Validates(original)
      modifies settings, settings.secrets.disk, scheduler, scheduler.executor
      ensures Sound() && SettingsRestored(old(View()), View(), original, afterReturn, complete) && (complete ==> saved)
    {
      var returned := ReturnTo(original.storageMode);
      ghost var before := View();
      saved := SaveOriginal(original, afterReturn);
      complete := returned && saved;
      assert SettingsRestored(before, View(), original.(storageMode := before.mode), afterReturn, saved);
      ReturnedAndSaved(old(View()), before, View(), original, afterReturn, returned, saved);
    }

    /** Saving the original, after the callbacks that run just before it. */
    method SaveOriginal(original: AppSettings, afterReturn: seq<Pending>) returns (saved: bool)
      requires Sound() && Validates(original)
      modifies settings, settings.secrets.disk, scheduler, scheduler.executor
      ensures Sound()
      ensures SettingsRestored(old(View()), View(), original.(storageMode := old(settings.mode)), afterReturn, saved)
    {
      LetCallbacksRun(afterReturn);
      var outcome := Save(original);
      saved := outcome == Applied;
    }

    /** The steps of rolling back outside the settings store, once the settings have been saved. */
    method RestoreSystem(original: AppSettings, ghost complete: bool, beforeRestore: seq<Pending>, restoredAt: int, ghost failed: Page)
      returns (escaped: bool, ghost undoing: Undoing)
      requires Sound()
      requires if complete then View().saved == original else Failures(View()) > Failures(failed)
      modifies settings, settings.secrets.disk, scheduler, scheduler.executor, startup
      ensures Sound() && var a, b := old(View()), View();
              && undoing.failed == failed && undoing.restoring.schedule == a.schedule
              && Later(a, undoing.restoring) && Later(undoing.restoring, b) && b.draft == a.draft && b.theme == a.theme && b.unsaved == a.unsaved
              && (escaped ==> a.schedule.disposed)
              && (!undoing.complete ==> !complete || Failures(b) > Failures(a))
              && (undoing.complete && !escaped ==> Undone(b, original, restoredAt, beforeRestore, undoing.restoring))
    {
      var registered := startup.SetStartup(original.startOnBoot, original.startMinimizedToTray);
      undoing := Undoing(complete && registered, failed, View());
      escaped := false;
      if registered {
        escaped := RestoreSchedule(beforeRestore, restoredAt);
      }
    }

    /** `Restore`, after the callbacks that run just before it. */
    method RestoreSchedule(beforeRestore: seq<Pending>, restoredAt: int) returns (escaped: bool)
      requires Sound()
      modifies settings, settings.secrets.disk, scheduler, scheduler.executor
      ensures Sound() && ScheduleUndone(old(View()), View(), beforeRestore, restoredAt, escaped)
    {
      LetCallbacksRun(beforeRestore);
      escaped := Restore(restoredAt);
    }

    method Restore(restoredAt: int) returns (escaped: bool)
      requires Sound()
      modifies settings, settings.secrets.disk, scheduler
      ensures Sound() && var a, b := old(View()), View();
              && OnlyStored(a, b) && a.mode == b.mode && (escaped ==> a.schedule.disposed)
              && (!escaped ==> ScheduleRestored(b, a.saved, restoredAt))
    {
      ghost var s, record := scheduler.State(), RecordOf(settings.current);
      var armedAt: int := *;
      escaped := scheduler.Restore(restoredAt, armedAt);
      if !escaped {
        RestoredIsRestorable(s, record, restoredAt);
      }
    }
  }

  // ----- the two ways in which a callback gets in between -----

  /**
    Something is armed and due, and its callback decides it right after the draft has been saved. Unless
    something fails, TrySave applies a draft that enables a schedule and can be applied, with that schedule
    armed, and the saved settings say that there is none.
   */
  method CallbackDisarmsDraft(vm: SettingsViewModel, localNow: int, scheduledAt: int, restoredAt: int) returns (outcome: Outcome)
    requires vm.Sound() && vm.scheduler.isScheduled && !vm.scheduler.disposed && vm.scheduler.dueAt <= scheduledAt
    requires vm.Check(vm.View(), localNow).FireAt? && vm.CanApply(vm.View(), vm.Check(vm.View(), localNow), scheduledAt)
    modifies vm, vm.settings, vm.settings.secrets.disk, vm.scheduler, vm.scheduler.executor, vm.startup, vm.theme
    ensures var a, b := old(vm.View()), vm.View();
            Failures(b) == Failures(a) ==>
              && outcome == Applied && !b.saved.scheduledActionEnabled && b.schedule.armed.Some?
              && !vm.MatchesDraft(b, a.draft, a.saved, vm.Check(a, localNow))
  {
    var strike := Pending(vm.scheduler.generation, vm.scheduler.dueAt, vm.scheduler.dueAt);
    var callbacks := Callbacks([], [strike], [], [], [], []);
    assert Strikes(vm.scheduler.State(), (callbacks.afterSave + callbacks.afterMigrate)[0]);
    assert Overtaken(vm.scheduler.State(), callbacks);
    ghost var undoing;
    outcome, undoing := vm.TrySave(localNow, callbacks, scheduledAt, restoredAt);
  }

  /**
    An action that is due, such as that of a draft, is still armed when a rollback comes to Restore, and its
    callback decides it just before. Unless something fails, the original schedule is lost although it is ahead.
   */
  method CallbackDisarmsOriginal(vm: SettingsViewModel, original: AppSettings, restoredAt: int) returns (escaped: bool)
    requires vm.Sound() && vm.scheduler.isScheduled && !vm.scheduler.disposed && vm.scheduler.dueAt <= restoredAt
    requires WayBack(vm.View(), original.storageMode) && Validates(original) && Restorable(vm.RecordOf(original), restoredAt)
    modifies vm.settings, vm.settings.secrets.disk, vm.scheduler, vm.scheduler.executor, vm.startup
    ensures var a, b := old(vm.View()), vm.View();
            Failures(b) == Failures(a) ==>
              !escaped && vm.DisarmedOriginal(b, original) && !vm.MatchesOriginal(b, original, restoredAt)
  {
    var strike := Pending(vm.scheduler.generation, vm.scheduler.dueAt, vm.scheduler.dueAt);
    assert Strikes(vm.scheduler.State(), [strike][0]);
    ghost var undoing;
    escaped, undoing := vm.RollBack(original, Callbacks([], [], [], [], [], [strike]), restoredAt);
  }
}
