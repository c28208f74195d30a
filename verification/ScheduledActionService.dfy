/** The one-shot scheduler as a class, one method a locked section (ScheduledActionService.cs). */
module ScheduledActions {
  import opened Options
  import opened Preferences
  import opened Scheduling
  import opened SettingsFiles
  import opened SettingsServices

  /** A call of the native executor, with what a fresh Load would have found on disk at that moment. */
  datatype Attempt = Attempt(action: ScheduledAction, onDisk: LoadOutcome)

  /** The native executor; every attempt is recorded, and an attempt may fail. */
  class SystemActionExecutor {
    ghost const observed: SettingsService
    ghost var attempts: seq<Attempt>

    constructor (ghost observed: SettingsService)
      ensures this.observed == observed && attempts == []
    {
      this.observed := observed;
      attempts := [];
    }

    method Execute(action: ScheduledAction) returns (ok: bool)
      modifies this
      ensures attempts == old(attempts) + [Attempt(action, FreshLoad(observed.secrets.disk.Now().files, observed.secrets.portable))]
    {
      attempts := attempts + [Attempt(action, FreshLoad(observed.secrets.disk.Now().files, observed.secrets.portable))];
      ok := *;
    }
  }

  /** Persisted local times, in seconds of a local clock: `TryParseExact` and `ToString` with one format. */
  datatype Calendar = Calendar(parse: string -> Option<int>, format: int -> string)

  class ScheduledActionService {
    const settings: SettingsService
    const executor: SystemActionExecutor
    const calendar: Calendar
    const zone: int -> Option<int>         // a local time as an instant, if it denotes exactly one
    var generation: nat
    var timer: Option<int>                 // the delay last asked of the timer
    var dueAt: int
    var action: ScheduledAction
    var isScheduled: bool
    var disposed: bool

    constructor (settings: SettingsService, executor: SystemActionExecutor, calendar: Calendar, zone: int -> Option<int>)
      ensures this.settings == settings && this.executor == executor && this.calendar == calendar && this.zone == zone
      ensures State() == Scheduling.Schedule(0, None, false) && timer.None?
    {
      this.settings := settings;
      this.executor := executor;
      this.calendar := calendar;
      this.zone := zone;
      generation, timer, dueAt, action, isScheduled, disposed := 0, None, 0, Shutdown, false, false;
    }

    /** The instant a persisted local time denotes, if it denotes one. */
    function Resolve(time: string): Option<int> {
      if calendar.parse(time).Some? then zone(calendar.parse(time).value) else None
    }

    ghost function State(): Schedule
      reads this
    {
      Scheduling.Schedule(generation, if isScheduled then Some(Armed(action, dueAt)) else None, disposed)
    }

    /** The persisted schedule, as the settings in memory have it. */
    ghost function Persisted(): Record
      reads this, settings
    {
      Record(settings.current.scheduledActionEnabled, settings.current.scheduledActionType, Resolve(settings.current.scheduledActionTime))
    }

    /** `CancelCore`. */
    method CancelCore()
      modifies this
      ensures State() == Cleared(old(State())) && timer.None?
    {
      generation := generation + 1;
      timer := None;
      isScheduled := false;
    }

    /** `Schedule`: the guard reads the clock before the lock is taken, and the timer is set after. */
    method Schedule(newAction: ScheduledAction, executeAt: int, guardAt: int, lockedAt: int) returns (arming: Arming)
      modifies this
      ensures (State(), arming) == Arm(old(State()), newAction, zone(executeAt), guardAt)
      ensures arming == Accepted ==> timer == Some(NextDelay(zone(executeAt).value, lockedAt))
      ensures arming != Accepted ==> timer == old(timer)
    {
      var due := zone(executeAt);
      if due.None? || due.value <= guardAt || newAction.Undefined? { return Rejected; }
      if disposed { return AlreadyDisposed; }
      CancelCore();
      action := newAction;
      dueAt := due.value;
      isScheduled := true;
      timer := Some(NextDelay(dueAt, lockedAt));
      return Accepted;
    }

    method Cancel()
      modifies this
      ensures State() == Cleared(old(State())) && timer.None?
    {
      CancelCore();
    }

    method Dispose()
      modifies this
      ensures State() == Cleared(old(State())).(disposed := true) && timer.None?
    {
      disposed := true;
      CancelCore();
    }

    /** `TryPersistDisarmed`: when it succeeds, a fresh Load would find the action disarmed. */
    method TryPersistDisarmed() returns (saved: bool)
      requires Validates(settings.current)
      modifies settings, settings.secrets.disk
      ensures settings.current ==
                if saved then old(settings.current).(scheduledActionEnabled := false, storageMode := settings.mode)
                else old(settings.current)
      ensures settings.mode == old(settings.mode) && (settings.preserveDamaged ==> old(settings.preserveDamaged))
      ensures SameSecrets(old(settings.secrets.disk.Now()), settings.secrets.disk.Now())
      ensures settings.secrets.disk.faults >= old(settings.secrets.disk.faults)
      ensures !saved ==> settings.secrets.disk.faults > old(settings.secrets.disk.faults)
      ensures old(settings.Consistent() && settings.FlagIsTrue()) ==> settings.Consistent() && settings.FlagIsTrue()
    {
      var outcome, id := settings.Save(settings.current.(scheduledActionEnabled := false));
      saved := outcome == Saved;
    }

    /**
      `OnTimer`: the callback of the timer that was created for `forGeneration`. When the executor is called
      the disk is already as it is afterwards, with the action disarmed.
     */
    method OnTimer(forGeneration: nat, checkedAt: int, decidedAt: int) returns (decision: Decision, saved: bool)
      requires Validates(settings.current) && executor.observed == settings
      modifies this, settings, settings.secrets.disk, executor
      ensures (State(), decision) == Scheduling.OnTimer(old(State()), forGeneration, checkedAt, decidedAt, saved)
      ensures decision.Ignored? || decision.Rearmed? ==>
                settings.current == old(settings.current) && settings.secrets.disk.Now() == old(settings.secrets.disk.Now())
                && settings.preserveDamaged == old(settings.preserveDamaged)
                && settings.secrets.disk.faults == old(settings.secrets.disk.faults)
      ensures decision.Rearmed? ==> timer == Some(decision.delay)
      ensures decision.Ignored? ==> timer == old(timer)
      ensures !decision.Ignored? && !decision.Rearmed? ==> timer.None? && Persisted() == Disarmed(old(Persisted()), saved)
      ensures settings.mode == old(settings.mode) && (settings.preserveDamaged ==> old(settings.preserveDamaged))
      ensures SameSecrets(old(settings.secrets.disk.Now()), settings.secrets.disk.Now())
      ensures settings.secrets.disk.faults >= old(settings.secrets.disk.faults)
      ensures !decision.Ignored? && !decision.Rearmed? ==>
                settings.current == (if saved then old(settings.current).(scheduledActionEnabled := false, storageMode := settings.mode)
                                     else old(settings.current))
                && (!saved ==> settings.secrets.disk.faults > old(settings.secrets.disk.faults))
      ensures executor.attempts ==
                if decision.Fired? then old(executor.attempts) + [Attempt(decision.armed.action, OnDisk())] else old(executor.attempts)
      ensures old(settings.Consistent() && settings.FlagIsTrue()) ==> settings.Consistent() && settings.FlagIsTrue()
      ensures old(settings.Consistent() && settings.FlagIsTrue()) && decision.Fired? ==> DisarmedOnDisk()
    {
      saved := false;
      if disposed || !isScheduled || forGeneration != generation { return Ignored, saved; }
      if checkedAt < dueAt {
        timer := Some(NextDelay(dueAt, decidedAt));
        return Rearmed(timer.value), saved;
      }
      var missed := decidedAt - dueAt > GRACE;
      var decided := Armed(action, dueAt);
      CancelCore();
      decision, saved := Decide(decided, missed);
    }

    /** The part of `OnTimer` that decides: disarm first, then execute. */
    method Decide(decided: Armed, missed: bool) returns (decision: Decision, saved: bool)
      requires Validates(settings.current) && executor.observed == settings
      modifies settings, settings.secrets.disk, executor
      ensures decision == if !saved then Unsaved else if missed then Missed else Fired(decided)
      ensures Persisted() == Disarmed(old(Persisted()), saved)
      ensures settings.mode == old(settings.mode) && (settings.preserveDamaged ==> old(settings.preserveDamaged))
      ensures SameSecrets(old(settings.secrets.disk.Now()), settings.secrets.disk.Now())
      ensures settings.secrets.disk.faults >= old(settings.secrets.disk.faults)
      ensures settings.current == (if saved then old(settings.current).(scheduledActionEnabled := false, storageMode := settings.mode)
                                   else old(settings.current))
      ensures !saved ==> settings.secrets.disk.faults > old(settings.secrets.disk.faults)
      ensures executor.attempts ==
                if decision.Fired? then old(executor.attempts) + [Attempt(decided.action, OnDisk())] else old(executor.attempts)
      ensures old(settings.Consistent() && settings.FlagIsTrue()) ==>
                settings.Consistent() && settings.FlagIsTrue() && (decision.Fired? ==> DisarmedOnDisk())
    {
      saved := TryPersistDisarmed();
      decision := Conclude(decided, missed, saved);
    }

    /** A process that starts now finds no action armed. */
    ghost predicate DisarmedOnDisk()
      reads settings, settings.secrets.disk
    {
      OnDisk().Loaded? && !OnDisk().settings.scheduledActionEnabled
    }

    /** The end of `OnTimer`, once disarming has been saved or not. */
    method Conclude(decided: Armed, missed: bool, saved: bool) returns (decision: Decision)
      requires executor.observed == settings
      modifies executor
      ensures decision == if !saved then Unsaved else if missed then Missed else Fired(decided)
      ensures executor.attempts ==
                if decision.Fired? then old(executor.attempts) + [Attempt(decision.armed.action, OnDisk())] else old(executor.attempts)
    {
      if !saved { return Unsaved; }
      if missed { return Missed; }
      var executed := executor.Execute(decided.action);
      return Fired(decided);
    }

    /** What a fresh Load would find on disk. */
    ghost function OnDisk(): LoadOutcome
      reads settings, settings.secrets.disk
    {
      FreshLoad(settings.secrets.disk.Now().files, settings.secrets.portable)
    }

    /** `Restore`. `escaped` is the ObjectDisposedException of a disposed service. */
    method Restore(now: int, lockedAt: int) returns (escaped: bool)
      requires Validates(settings.current)
      modifies this, settings, settings.secrets.disk
      ensures State() == RestoredSchedule(old(State()), old(Persisted()), now)
      ensures timer == if State().armed.Some? then Some(NextDelay(State().armed.value.dueAt, lockedAt)) else None
      ensures escaped <==> old(disposed) && Restorable(old(Persisted()), now)
      ensures settings.mode == old(settings.mode)
      ensures settings.secrets.disk.faults >= old(settings.secrets.disk.faults)
      ensures settings.current == old(settings.current) ||
              (old(Persisted()).enabled && !Restorable(old(Persisted()), now)
               && settings.current == old(settings.current).(scheduledActionEnabled := false, storageMode := settings.mode))
      ensures old(settings.Consistent() && settings.FlagIsTrue()) ==> settings.Consistent() && settings.FlagIsTrue()
    {
      Cancel();
      var current := settings.current;
      if !current.scheduledActionEnabled { return false; }
      var executeAt := calendar.parse(current.scheduledActionTime);
      if executeAt.Some? {
        var arming := Schedule(current.scheduledActionType, executeAt.value, now, lockedAt);
        if arming == Accepted { return false; }
        if arming == AlreadyDisposed { return true; }
      }
      CancelCore();
      var saved := TryPersistDisarmed();
      return false;
    }
  }

  /** The service while it waits: its timer has been asked for what is left of the time, or for a minute of it. */
  ghost predicate Waiting(service: ScheduledActionService, armed: Armed, now: int)
    reads service
  {
    && !service.disposed && service.State().armed == Some(armed)
    && service.timer == Some(NextDelay(armed.dueAt, now))
  }

  /** Settings and executor are those of the service, and what is in memory is what is on disk. */
  ghost predicate Sound(service: ScheduledActionService)
    reads service.settings, service.settings.secrets.disk
  {
    service.executor.observed == service.settings && service.settings.Consistent() && service.settings.FlagIsTrue()
  }

  /**
    Schedule and the callbacks of the timer it sets, each as late as `wakes` says after the delay that was last
    asked for. With punctual callbacks and no failing file operation the action is executed exactly once, with
    the record on disk disarmed before, and the timer is then off.
   */
  method RunPunctually(service: ScheduledActionService, action: ScheduledAction, executeAt: int, guardAt: int, lockedAt: int, wakes: seq<Wake>)
    requires Sound(service) && !service.disposed && !action.Undefined?
    requires service.zone(executeAt).Some? && guardAt < service.zone(executeAt).value && lockedAt <= service.zone(executeAt).value
    requires Punctual(wakes, 0) && |wakes| >= Callbacks(service.zone(executeAt).value - lockedAt)
    modifies service, service.settings, service.settings.secrets.disk, service.executor
    ensures service.timer.None? && service.State().armed.None?
    ensures service.settings.secrets.disk.faults == old(service.settings.secrets.disk.faults) ==>
              && service.executor.attempts == old(service.executor.attempts) + [Attempt(action, service.OnDisk())]
              && service.DisarmedOnDisk()
  {
    var arming := service.Schedule(action, executeAt, guardAt, lockedAt);
    ghost var armed := Armed(action, service.zone(executeAt).value);
    var now, i := lockedAt, 0;
    ghost var spent := 0;
    while service.timer.Some?
      invariant Sound(service) && i <= |wakes|
      invariant service.settings.secrets.disk.faults >= old(service.settings.secrets.disk.faults)
      invariant service.timer.Some? ==>
                  && Waiting(service, armed, now) && service.executor.attempts == old(service.executor.attempts)
                  && now <= armed.dueAt + spent && Punctual(wakes[i..], spent) && |wakes| - i >= Callbacks(armed.dueAt - now)
      invariant service.timer.None? ==>
                  && service.State().armed.None?
                  && (service.settings.secrets.disk.faults == old(service.settings.secrets.disk.faults) ==>
                        && service.executor.attempts == old(service.executor.attempts) + [Attempt(action, service.OnDisk())]
                        && service.DisarmedOnDisk())
      decreases |wakes| - i
    {
      PunctualRest(wakes[i..], spent);
      PunctualWake(armed.dueAt, now, wakes[i], spent);
      now := Wait(service, now, wakes[i], armed);
      spent := wakes[i].spent;
      assert wakes[i..][1..] == wakes[i + 1..];
      i := i + 1;
    }
  }

  /** One callback of the waiting service. */
  method Wait(service: ScheduledActionService, now: int, wake: Wake, ghost armed: Armed) returns (decidedAt: int)
    requires Sound(service) && Waiting(service, armed, now)
    modifies service, service.settings, service.settings.secrets.disk, service.executor
    ensures Sound(service)
    ensures service.settings.secrets.disk.faults >= old(service.settings.secrets.disk.faults)
    ensures var checkedAt := now + NextDelay(armed.dueAt, now) + wake.late;
            && decidedAt == checkedAt + wake.spent
            && if checkedAt < armed.dueAt
               then Waiting(service, armed, decidedAt) && service.executor.attempts == old(service.executor.attempts)
               else
                 && service.timer.None? && service.State().armed.None?
                 && (service.settings.secrets.disk.faults == old(service.settings.secrets.disk.faults) && decidedAt <= armed.dueAt + GRACE ==>
                       && service.executor.attempts == old(service.executor.attempts) + [Attempt(armed.action, service.OnDisk())]
                       && service.DisarmedOnDisk())
  {
    var checkedAt := now + service.timer.value + wake.late;
    decidedAt := checkedAt + wake.spent;
    var decision, saved := service.OnTimer(service.generation, checkedAt, decidedAt);
  }
}
