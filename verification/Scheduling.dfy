/**
  The one-shot scheduler as a transition system: what each locked section of the service does to its
  generation counter and armed action, and what follows for every interleaving of them with delayed,
  duplicated or stale timer callbacks, disposal and restart. Times are 100 ns ticks.
 */
module Scheduling {
  import opened Options

  const SECOND := 10000000
  const SLICE := 60 * SECOND
  const GRACE := 30 * SECOND

  datatype ScheduledAction = Shutdown | Sleep | Restart | Undefined(code: int)

  datatype Armed = Armed(action: ScheduledAction, dueAt: int)

  datatype Schedule = Schedule(generation: nat, armed: Option<Armed>, disposed: bool)

  /** `GetNextDelay`: the remaining time, in slices of at most one minute. */
  function NextDelay(dueAt: int, now: int): (delay: int)
    ensures 0 <= delay <= SLICE
  {
    var remaining := dueAt - now;
    if remaining <= 0 then 0 else if remaining > SLICE then SLICE else remaining
  }

  function Cleared(s: Schedule): Schedule {
    s.(generation := s.generation + 1, armed := None)
  }

  datatype Arming = Rejected | AlreadyDisposed | Accepted

  /**
    `Schedule`: the guard, which reads the clock before the lock is taken, and the locked section. `due` is
    absent for a local time that does not exist or is ambiguous.
   */
  function Arm(s: Schedule, action: ScheduledAction, due: Option<int>, guardAt: int): (Schedule, Arming) {
    if due.None? || due.value <= guardAt || action.Undefined? then (s, Rejected)
    else if s.disposed then (s, AlreadyDisposed)
    else (Cleared(s).(armed := Some(Armed(action, due.value))), Accepted)
  }

  datatype Decision = Ignored | Rearmed(delay: int) | Unsaved | Missed | Fired(armed: Armed)

  /** The locked section of `OnTimer`, with its two reads of the clock and whether disarming could be saved. */
  function OnTimer(s: Schedule, generation: nat, checkedAt: int, decidedAt: int, saved: bool): (Schedule, Decision) {
    if s.disposed || s.armed.None? || generation != s.generation then (s, Ignored)
    else if checkedAt < s.armed.value.dueAt then (s, Rearmed(NextDelay(s.armed.value.dueAt, decidedAt)))
    else (Cleared(s),
          if !saved then Unsaved
          else if decidedAt - s.armed.value.dueAt > GRACE then Missed
          else Fired(s.armed.value))
  }

  // ----- the process, its persisted record, and what has happened so far -----

  /** The persisted schedule. `due` is the instant its local time denotes, if it denotes one. */
  datatype Record = Record(enabled: bool, action: ScheduledAction, due: Option<int>)

  datatype Acceptance = Acceptance(epoch: nat, generation: nat, armed: Armed, guardAt: int)

  datatype Execution = Execution(id: nat, epoch: nat, generation: nat, armed: Armed, decidedAt: int)

  datatype World = World(
    epoch: nat,                   // how many times the process has restarted
    schedule: Schedule,
    record: Record,
    clock: int,                   // the latest clock reading
    accepted: seq<Acceptance>,    // every accepted Schedule, in order
    executed: seq<Execution>,     // every call of the native executor
    skipped: nat)                 // armed actions decided without executing

  /** One locked section, or something outside the service. */
  datatype Event =
    | ArmEvent(action: ScheduledAction, due: Option<int>, guardAt: int, lockedAt: int)
    | CancelEvent
    | DisarmEvent(saved: bool)
    | DisposeEvent
    | RestartEvent
    | Callback(epoch: nat, generation: nat, checkedAt: int, decidedAt: int, saved: bool)
    | Configure(record: Record)

  function Disarmed(record: Record, saved: bool): Record {
    if saved then record.(enabled := false) else record
  }

  function ApplyArm(w: World, action: ScheduledAction, due: Option<int>, guardAt: int, lockedAt: int): World {
    var (schedule, arming) := Arm(w.schedule, action, due, guardAt);
    if arming != Accepted then w
    else w.(schedule := schedule, clock := lockedAt,
            accepted := w.accepted + [Acceptance(w.epoch, schedule.generation, schedule.armed.value, guardAt)])
  }

  function ApplyCallback(w: World, generation: nat, checkedAt: int, decidedAt: int, saved: bool): World
    requires w.schedule.armed.Some? ==> w.accepted != []
  {
    var (schedule, decision) := OnTimer(w.schedule, generation, checkedAt, decidedAt, saved);
    var after := w.(schedule := schedule, clock := decidedAt);
    match decision
    case Ignored => after
    case Rearmed(_) => after
    case Unsaved => after.(skipped := w.skipped + 1)
    case Missed => after.(skipped := w.skipped + 1, record := Disarmed(w.record, true))
    case Fired(armed) =>
      after.(record := Disarmed(w.record, true),
             executed := w.executed + [Execution(|w.accepted| - 1, w.epoch, generation, armed, decidedAt)])
  }

  function Apply(w: World, e: Event): World
    requires w.schedule.armed.Some? ==> w.accepted != []
  {
    match e
    case ArmEvent(action, due, guardAt, lockedAt) => ApplyArm(w, action, due, guardAt, lockedAt)
    case CancelEvent => w.(schedule := Cleared(w.schedule))
    case DisarmEvent(saved) => w.(schedule := Cleared(w.schedule), record := Disarmed(w.record, saved))
    case DisposeEvent => w.(schedule := Cleared(w.schedule).(disposed := true))
    case RestartEvent => w.(epoch := w.epoch + 1, schedule := Schedule(0, None, false))
    case Callback(epoch, generation, checkedAt, decidedAt, saved) =>
      // A callback of a process that is gone never runs.
      if epoch == w.epoch then ApplyCallback(w, generation, checkedAt, decidedAt, saved) else w
    case Configure(record) => w.(record := record)
  }

  /** The clock does not run backwards. A guard may have read it long before its section gets the lock. */
  predicate InOrder(w: World, e: Event) {
    match e
    case ArmEvent(_, _, guardAt, lockedAt) => guardAt <= lockedAt && w.clock <= lockedAt
    case Callback(_, _, checkedAt, decidedAt, _) => w.clock <= checkedAt <= decidedAt
    case _ => true
  }

  function Run(w: World, events: seq<Event>): World
    requires Valid(w)
    decreases |events|
  {
    if events == [] then w
    else
      ApplyKeepsValid(w, events[0]);
      Run(Apply(w, events[0]), events[1..])
  }

  predicate RunsInOrder(w: World, events: seq<Event>)
    requires Valid(w)
    decreases |events|
  {
    events == [] || (
      ApplyKeepsValid(w, events[0]);
      InOrder(w, events[0]) && RunsInOrder(Apply(w, events[0]), events[1..]))
  }

  predicate Before(a: Acceptance, b: Acceptance) {
    a.epoch < b.epoch || (a.epoch == b.epoch && a.generation < b.generation)
  }

  /** Holds of the clock-independent part of every reachable world. */
  predicate Valid(w: World) {
    ArmedIsLatest(w) && AcceptedInOrder(w) && ExecutedInOrder(w)
  }

  /** The armed action is the latest accepted one, and has not been executed. */
  predicate ArmedIsLatest(w: World) {
    w.schedule.armed.Some? ==>
      && w.accepted != []
      && !w.schedule.disposed
      && (var last := w.accepted[|w.accepted| - 1];
          last.epoch == w.epoch && last.generation == w.schedule.generation && last.armed == w.schedule.armed.value)
      && (forall k :: 0 <= k < |w.executed| ==> w.executed[k].id < |w.accepted| - 1)
  }

  /** Every accepted schedule has a generation of its own, and was ahead when it was accepted. */
  predicate AcceptedInOrder(w: World) {
    && (forall i :: 0 <= i < |w.accepted| ==>
          && w.accepted[i].guardAt < w.accepted[i].armed.dueAt
          && (w.accepted[i].epoch < w.epoch
              || (w.accepted[i].epoch == w.epoch && w.accepted[i].generation <= w.schedule.generation)))
    && (forall i, j :: 0 <= i < j < |w.accepted| ==> Before(w.accepted[i], w.accepted[j]))
  }

  predicate ExecutedInOrder(w: World) {
    && (forall k :: 0 <= k < |w.executed| ==> Justified(w, w.executed[k]))
    && (forall k, l :: 0 <= k < l < |w.executed| ==> w.executed[k].id < w.executed[l].id)
  }

  /** An execution is of the accepted action it came from. */
  predicate Justified(w: World, x: Execution) {
    && x.id < |w.accepted|
    && x.armed == w.accepted[x.id].armed
    && x.epoch == w.accepted[x.id].epoch && x.generation == w.accepted[x.id].generation
  }

  lemma ApplyKeepsValid(w: World, e: Event)
    requires Valid(w)
    ensures Valid(Apply(w, e))
  {
    match e
    case ArmEvent(action, due, guardAt, lockedAt) => ArmKeepsValid(w, action, due, guardAt, lockedAt);
    case Callback(epoch, generation, checkedAt, decidedAt, saved) =>
      if epoch == w.epoch {
        CallbackKeepsValid(w, generation, checkedAt, decidedAt, saved);
      }
    case _ =>
      var after := Apply(w, e);
      assert forall k :: 0 <= k < |w.executed| ==> Justified(w, w.executed[k]) && Justified(after, w.executed[k]);
  }

  lemma ArmKeepsValid(w: World, action: ScheduledAction, due: Option<int>, guardAt: int, lockedAt: int)
    requires Valid(w)
    ensures Valid(ApplyArm(w, action, due, guardAt, lockedAt))
  {
    var after := ApplyArm(w, action, due, guardAt, lockedAt);
    assert forall k :: 0 <= k < |w.executed| ==> Justified(w, w.executed[k]) && Justified(after, w.executed[k]);
    assert AcceptedInOrder(after);
  }

  lemma CallbackKeepsValid(w: World, generation: nat, checkedAt: int, decidedAt: int, saved: bool)
    requires Valid(w)
    ensures Valid(ApplyCallback(w, generation, checkedAt, decidedAt, saved))
  {
    var after := ApplyCallback(w, generation, checkedAt, decidedAt, saved);
    if after.executed == w.executed {
      StillExecutedInOrder(w, after);
    } else {
      var x := after.executed[|w.executed|];
      assert after.executed == w.executed + [x];
      ExecutedMore(w, after, x);
    }
  }

  lemma StillExecutedInOrder(w: World, after: World)
    requires ExecutedInOrder(w) && after.executed == w.executed && after.accepted == w.accepted
    ensures ExecutedInOrder(after)
  {
    forall k | 0 <= k < |after.executed| ensures Justified(after, after.executed[k]) {
      assert Justified(w, w.executed[k]);
    }
  }

  lemma ExecutedMore(w: World, after: World, x: Execution)
    requires ExecutedInOrder(w) && after.executed == w.executed + [x] && after.accepted == w.accepted
    requires Justified(after, x) && forall k :: 0 <= k < |w.executed| ==> w.executed[k].id < x.id
    ensures ExecutedInOrder(after)
  {
    forall k | 0 <= k < |after.executed| ensures Justified(after, after.executed[k]) {
      assert k < |w.executed| ==> Justified(w, w.executed[k]);
    }
  }

  function Fresh(record: Record, clock: int): World {
    World(0, Schedule(0, None, false), record, clock, [], [], 0)
  }

  // ----- at most one execution per accepted schedule, of its own action, in time -----

  /** Additionally holds when the clock is monotone. */
  predicate Timely(w: World) {
    && (forall k :: 0 <= k < |w.executed| ==>
          && w.executed[k].armed.dueAt <= w.executed[k].decidedAt <= w.executed[k].armed.dueAt + GRACE
          && w.executed[k].decidedAt <= w.clock)
  }

  lemma ApplyKeepsTimely(w: World, e: Event)
    requires Valid(w) && Timely(w) && InOrder(w, e)
    ensures Timely(Apply(w, e))
  {
  }

  lemma {:induction false} RunKeepsInvariants(w: World, events: seq<Event>)
    requires Valid(w)
    ensures Valid(Run(w, events))
    ensures Timely(w) && RunsInOrder(w, events) ==> Timely(Run(w, events))
    decreases |events|
  {
    if events != [] {
      ApplyKeepsValid(w, events[0]);
      if Timely(w) && RunsInOrder(w, events) {
        ApplyKeepsTimely(w, events[0]);
      }
      RunKeepsInvariants(Apply(w, events[0]), events[1..]);
    }
  }

  /**
    Whatever the interleaving: no accepted schedule is executed twice, and every execution is of the action
    that was accepted, through the callback of its own generation.
   */
  lemma AtMostOneExecution(record: Record, clock: int, events: seq<Event>)
    ensures var w := Run(Fresh(record, clock), events);
            && (forall k, l :: 0 <= k < l < |w.executed| ==> w.executed[k].id != w.executed[l].id)
            && (forall k :: 0 <= k < |w.executed| ==> Justified(w, w.executed[k]))
  {
    RunKeepsInvariants(Fresh(record, clock), events);
  }

  /** With a monotone clock every execution is decided within 30 s of its due time. */
  lemma ExecutedInTime(record: Record, clock: int, events: seq<Event>)
    requires RunsInOrder(Fresh(record, clock), events)
    ensures var w := Run(Fresh(record, clock), events);
            forall k :: 0 <= k < |w.executed| ==>
              var x := w.executed[k]; x.armed.dueAt <= x.decidedAt <= x.armed.dueAt + 300_000_000 && x.decidedAt <= w.clock
  {
    RunKeepsInvariants(Fresh(record, clock), events);
  }

  // ----- a due time that has been executed -----

  /** While nothing is armed nothing is executed, whatever callbacks, cancellations or restarts come. */
  lemma {:induction false} IdleStaysIdle(w: World, events: seq<Event>)
    requires Valid(w) && w.schedule.armed.None? && forall i :: 0 <= i < |events| ==> !events[i].ArmEvent?
    ensures Run(w, events).schedule.armed.None? && Run(w, events).executed == w.executed
    decreases |events|
  {
    if events != [] {
      ApplyKeepsValid(w, events[0]);
      IdleStaysIdle(Apply(w, events[0]), events[1..]);
    }
  }

  /** Restore: Cancel, then whatever happens meanwhile but another arming, then its own arming. */
  function ArmedByRestore(w: World, meanwhile: seq<Event>, arm: Event): (World, World)
    requires Valid(w)
  {
    ApplyKeepsValid(w, CancelEvent);
    RunKeepsInvariants(Apply(w, CancelEvent), meanwhile);
    var before := Run(Apply(w, CancelEvent), meanwhile);
    (before, Apply(before, arm))
  }

  /**
    In every run with a monotone clock Restore arms only what is due after every execution decided so far, so
    it never re-arms a due time that has been executed: its guard is read after its own Cancel, when no
    callback can execute any more.
   */
  lemma RestoreNeverRearms(record: Record, clock: int, events: seq<Event>, meanwhile: seq<Event>,
                           action: ScheduledAction, due: Option<int>, guardAt: int, lockedAt: int)
    requires RunsInOrder(Fresh(record, clock), events) && Run(Fresh(record, clock), events).clock <= guardAt
    requires forall i :: 0 <= i < |meanwhile| ==> !meanwhile[i].ArmEvent?
    ensures Valid(Run(Fresh(record, clock), events))
    ensures var (before, after) := ArmedByRestore(Run(Fresh(record, clock), events), meanwhile, ArmEvent(action, due, guardAt, lockedAt));
            after.accepted != before.accepted ==>
              && after.schedule.armed.Some?
              && forall k :: 0 <= k < |after.executed| ==>
                   after.executed[k].armed.dueAt <= after.executed[k].decidedAt < after.schedule.armed.value.dueAt
  {
    RunKeepsInvariants(Fresh(record, clock), events);
    var w := Run(Fresh(record, clock), events);
    ApplyKeepsValid(w, CancelEvent);
    IdleStaysIdle(Apply(w, CancelEvent), meanwhile);
  }

  /**
    A plain Schedule re-arms a due time that has been executed if and only if its guard was read before that
    time: an action that is defined, by a service that is not disposed.
   */
  lemma RearmedExactlyWhen(w: World, k: nat, action: ScheduledAction, guardAt: int, lockedAt: int)
    requires Valid(w) && k < |w.executed|
    ensures var due := w.executed[k].armed.dueAt;
            var after := Apply(w, ArmEvent(action, Some(due), guardAt, lockedAt));
            (after.accepted != w.accepted && after.schedule.armed == Some(Armed(action, due))) <==>
            (guardAt < due && !action.Undefined? && !w.schedule.disposed)
  {
    var due := w.executed[k].armed.dueAt;
    var after := Apply(w, ArmEvent(action, Some(due), guardAt, lockedAt));
    assert |after.accepted| == |w.accepted| || |after.accepted| == |w.accepted| + 1;
  }

  lemma RunCons(w: World, e: Event, rest: seq<Event>)
    requires Valid(w)
    ensures Valid(Apply(w, e)) && Run(w, [e] + rest) == Run(Apply(w, e), rest)
    ensures RunsInOrder(w, [e] + rest) <==> InOrder(w, e) && RunsInOrder(Apply(w, e), rest)
  {
    ApplyKeepsValid(w, e);
    assert ([e] + rest)[1..] == rest;
  }

  /** A run that does: the callback executes between the guard and the lock. */
  function OldGuardRun(): seq<Event> {
    [ArmEvent(Shutdown, Some(100), 0, 0)] + ([Callback(0, 1, 100, 100, true)] +
    ([ArmEvent(Shutdown, Some(100), 99, 100)] + ([Callback(0, 3, 101, 101, true)] + [])))
  }

  lemma OldGuardExecutesTwice(record: Record)
    ensures var w := Run(Fresh(record, 0), OldGuardRun());
            && RunsInOrder(Fresh(record, 0), OldGuardRun())
            && |w.executed| == 2 && w.executed[0].armed == w.executed[1].armed == Armed(Shutdown, 100)
  {
    var last: seq<Event> := [Callback(0, 3, 101, 101, true)] + [];
    var third := [ArmEvent(Shutdown, Some(100), 99, 100)] + last;
    var second := [Callback(0, 1, 100, 100, true)] + third;
    var w0 := Fresh(record, 0);
    RunCons(w0, ArmEvent(Shutdown, Some(100), 0, 0), second);
    ArmExecuted(w0, 0, 0, 100, third);
    var w2 := Apply(Apply(w0, ArmEvent(Shutdown, Some(100), 0, 0)), Callback(0, 1, 100, 100, true));
    RunCons(w2, ArmEvent(Shutdown, Some(100), 99, 100), last);
    ArmExecuted(w2, 99, 100, 101, []);
  }

  /** From an idle first process: a schedule for 100 is accepted, and its callback executes it. */
  lemma ArmExecuted(w: World, guardAt: int, lockedAt: int, at: int, rest: seq<Event>)
    requires Valid(w) && w.epoch == 0 && w.schedule.armed.None? && !w.schedule.disposed
    requires guardAt < 100 && guardAt <= lockedAt && w.clock <= lockedAt <= at && 100 <= at <= 130
    ensures var armed := Apply(w, ArmEvent(Shutdown, Some(100), guardAt, lockedAt));
            var call := Callback(0, w.schedule.generation + 1, at, at, true);
            && Valid(armed) && InOrder(w, ArmEvent(Shutdown, Some(100), guardAt, lockedAt)) && Valid(Apply(armed, call))
            && Run(armed, [call] + rest) == Run(Apply(armed, call), rest)
            && (RunsInOrder(armed, [call] + rest) <==> RunsInOrder(Apply(armed, call), rest))
            && var after := Apply(armed, call);
               && after.epoch == 0 && after.schedule == Schedule(w.schedule.generation + 2, None, false) && after.clock == at
               && |after.executed| == |w.executed| + 1 && after.executed[..|w.executed|] == w.executed
               && after.executed[|w.executed|].armed == Armed(Shutdown, 100)
  {
    var armed := Apply(w, ArmEvent(Shutdown, Some(100), guardAt, lockedAt));
    ApplyKeepsValid(w, ArmEvent(Shutdown, Some(100), guardAt, lockedAt));
    RunCons(armed, Callback(0, w.schedule.generation + 1, at, at, true), rest);
  }

  /** Schedule `id` was accepted but is no longer what the service is waiting for. */
  predicate Retired(w: World, id: nat) {
    id < |w.accepted| && !(w.schedule.armed.Some? && id == |w.accepted| - 1)
  }

  predicate Retires(w: World, e: Event) {
    match e
    case ArmEvent(action, due, guardAt, _) => Arm(w.schedule, action, due, guardAt).1 == Accepted
    case CancelEvent => true
    case DisarmEvent(_) => true
    case DisposeEvent => true
    case RestartEvent => true
    case _ => false
  }

  lemma {:induction false} RetiredStaysSilent(w: World, events: seq<Event>, id: nat)
    requires Valid(w) && Retired(w, id)
    ensures var after := Run(w, events);
            && w.executed <= after.executed
            && (forall k :: |w.executed| <= k < |after.executed| ==> after.executed[k].id != id)
    decreases |events|
  {
    if events != [] {
      ApplyKeepsValid(w, events[0]);
      RetiredStaysSilent(Apply(w, events[0]), events[1..], id);
    }
  }

  /** Once cancelled, replaced, disposed or lost in a restart, an accepted schedule is never executed by any callback. */
  lemma NoExecutionAfterRetirement(w: World, e: Event, later: seq<Event>, id: nat)
    requires Valid(w) && Retires(w, e) && id < |w.accepted|
    ensures Valid(Apply(w, e))
    ensures var after := Run(Apply(w, e), later);
            && w.executed <= after.executed
            && (forall k :: |w.executed| <= k < |after.executed| ==> after.executed[k].id != id)
  {
    ApplyKeepsValid(w, e);
    RetiredStaysSilent(Apply(w, e), later, id);
  }

  /** After Dispose nothing is accepted or executed any more in the process. */
  lemma {:induction false} DisposedIsFinal(w: World, events: seq<Event>)
    requires Valid(w) && w.schedule.disposed && w.schedule.armed.None? && forall i :: 0 <= i < |events| ==> !events[i].RestartEvent?
    ensures var after := Run(w, events); after.accepted == w.accepted && after.executed == w.executed
    decreases |events|
  {
    if events != [] {
      ApplyKeepsValid(w, events[0]);
      DisposedIsFinal(Apply(w, events[0]), events[1..]);
    }
  }

  lemma NothingAfterDispose(w: World, later: seq<Event>)
    requires Valid(w) && forall i :: 0 <= i < |later| ==> !later[i].RestartEvent?
    ensures Valid(Apply(w, DisposeEvent))
    ensures var after := Run(Apply(w, DisposeEvent), later); after.accepted == w.accepted && after.executed == w.executed
  {
    ApplyKeepsValid(w, DisposeEvent);
    DisposedIsFinal(Apply(w, DisposeEvent), later);
  }

  lemma {:induction false} DisabledStaysOff(w: World, events: seq<Event>)
    requires Valid(w) && !w.record.enabled && forall i :: 0 <= i < |events| ==> !events[i].Configure?
    ensures !Run(w, events).record.enabled
    decreases |events|
  {
    if events != [] {
      ApplyKeepsValid(w, events[0]);
      DisabledStaysOff(Apply(w, events[0]), events[1..]);
    }
  }

  /**
    Once a callback has decided, executing or missing the action, and has saved that it is disarmed, no Restore
    arms it again, in this process or a later one, until the record is configured anew.
   */
  lemma DecidedIsNotRestored(w: World, checkedAt: int, decidedAt: int, later: seq<Event>, now: int, lockedAt: int, saved: bool)
    requires Valid(w) && w.schedule.armed.Some? && !w.schedule.disposed && checkedAt >= w.schedule.armed.value.dueAt
    requires forall i :: 0 <= i < |later| ==> !later[i].Configure?
    ensures var decided := Apply(w, Callback(w.epoch, w.schedule.generation, checkedAt, decidedAt, true));
            && Valid(decided) && decided.schedule.armed.None?
            && RestoreEvents(Run(decided, later), now, lockedAt, saved) == [CancelEvent]
  {
    var e := Callback(w.epoch, w.schedule.generation, checkedAt, decidedAt, true);
    ApplyKeepsValid(w, e);
    DisabledStaysOff(Apply(w, e), later);
  }

  // ----- punctual timers -----

  function CeilDiv(a: int, b: int): int
    requires b > 0
  {
    (a + b - 1) / b
  }

  /** The number of callbacks an action that is due in `remaining` ticks can need: one for each started minute. */
  function Callbacks(remaining: int): int {
    if remaining <= 600_000_000 then 1 else CeilDiv(remaining, 600_000_000)
  }

  /**
    The delay that an early callback asks for: all of the remaining time, or a minute if that is less. None
    at all only when the time has run out since the callback checked it.
   */
  lemma RearmedDelay(s: Schedule, generation: nat, checkedAt: int, decidedAt: int, saved: bool)
    requires OnTimer(s, generation, checkedAt, decidedAt, saved).1.Rearmed?
    ensures s.armed.Some? && OnTimer(s, generation, checkedAt, decidedAt, saved).0 == s
    ensures var remaining := s.armed.value.dueAt - decidedAt;
            var delay := OnTimer(s, generation, checkedAt, decidedAt, saved).1.delay;
            && delay == (if remaining <= 0 then 0 else if remaining <= 600_000_000 then remaining else 600_000_000)
            && checkedAt < s.armed.value.dueAt
  {
  }

  /** How late a callback is, and how long it takes from its check to its decision, which reads the clock again. */
  datatype Wake = Wake(late: nat, spent: nat)

  /**
    The service left alone: at `now` its timer has been asked for `delay`, and each callback comes `late` after
    that and asks for the next one. Disarming can be saved. After a decision there is no further timer.
   */
  function LeftAlone(w: World, now: int, delay: int, wakes: seq<Wake>): World
    requires Valid(w)
    decreases |wakes|
  {
    if wakes == [] || w.schedule.armed.None? then w
    else
      var checkedAt := now + delay + wakes[0].late;
      var decidedAt := checkedAt + wakes[0].spent;
      var e := Callback(w.epoch, w.schedule.generation, checkedAt, decidedAt, true);
      ApplyKeepsValid(w, e);
      var decision := OnTimer(w.schedule, w.schedule.generation, checkedAt, decidedAt, true).1;
      LeftAlone(Apply(w, e), decidedAt, if decision.Rearmed? then decision.delay else 0, wakes[1..])
  }

  /** No decision, and no callback counted from the check of the one before it, is more than 30 s late. */
  predicate Punctual(wakes: seq<Wake>, spentBefore: nat) {
    forall i :: 0 <= i < |wakes| ==> Lateness(wakes, i, spentBefore) <= 300_000_000
  }

  function Lateness(wakes: seq<Wake>, i: nat, spentBefore: nat): nat
    requires i < |wakes|
  {
    (if i == 0 then spentBefore else wakes[i - 1].spent) + wakes[i].late + wakes[i].spent
  }

  ghost predicate ExecutedOnce(w: World, after: World) {
    && w.schedule.armed.Some?
    && |after.executed| == |w.executed| + 1
    && after.executed[..|w.executed|] == w.executed
    && after.executed[|w.executed|].armed == w.schedule.armed.value
    && after.executed[|w.executed|].id == |w.accepted| - 1
    && after.skipped == w.skipped
    && after.schedule.armed.None?
  }

  /**
    If no callback is early and each is punctual, an action armed at `lockedAt`, with the delay that Schedule then
    asks for, is executed, exactly once and never counted as missed, after at most max(1, ceil(remaining / 60 s))
    callbacks, each of which asks for the next.
   */
  lemma PunctualActionIsExecuted(w: World, action: ScheduledAction, due: int, guardAt: int, lockedAt: int, wakes: seq<Wake>)
    requires Valid(w) && guardAt < due && lockedAt <= due && !action.Undefined? && !w.schedule.disposed
    requires Punctual(wakes, 0) && |wakes| >= Callbacks(due - lockedAt)
    ensures var armed := Apply(w, ArmEvent(action, Some(due), guardAt, lockedAt));
            && Valid(armed) && armed.schedule.armed == Some(Armed(action, due))
            && ExecutedOnce(armed, LeftAlone(armed, lockedAt, NextDelay(due, lockedAt), wakes))
  {
    ApplyKeepsValid(w, ArmEvent(action, Some(due), guardAt, lockedAt));
    PunctualFrom(Apply(w, ArmEvent(action, Some(due), guardAt, lockedAt)), lockedAt, wakes, 0);
  }

  /** One punctual callback: it is early, and fewer are needed after it, or it decides in time. */
  lemma PunctualWake(dueAt: int, now: int, wake: Wake, spentBefore: nat)
    requires now <= dueAt + spentBefore && spentBefore + wake.late + wake.spent <= 300_000_000
    ensures var checkedAt := now + NextDelay(dueAt, now) + wake.late;
            if checkedAt < dueAt
            then Callbacks(dueAt - (checkedAt + wake.spent)) < Callbacks(dueAt - now) && checkedAt + wake.spent <= dueAt + wake.spent
            else checkedAt + wake.spent <= dueAt + GRACE
  {
    var checkedAt := now + NextDelay(dueAt, now) + wake.late;
    if checkedAt < dueAt {
      CallbacksDecrease(dueAt - now, dueAt - (checkedAt + wake.spent));
    }
  }

  lemma PunctualRest(wakes: seq<Wake>, spentBefore: nat)
    requires wakes != [] && Punctual(wakes, spentBefore)
    ensures spentBefore + wakes[0].late + wakes[0].spent <= 300_000_000 && Punctual(wakes[1..], wakes[0].spent)
  {
    assert Lateness(wakes, 0, spentBefore) <= 300_000_000;
    forall i | 0 <= i < |wakes[1..]|
      ensures Lateness(wakes[1..], i, wakes[0].spent) <= 300_000_000
    {
      assert Lateness(wakes[1..], i, wakes[0].spent) == Lateness(wakes, i + 1, spentBefore);
    }
  }

  lemma {:induction false} PunctualFrom(w: World, now: int, wakes: seq<Wake>, spentBefore: nat)
    requires Valid(w) && w.schedule.armed.Some? && !w.schedule.disposed
    requires now <= w.schedule.armed.value.dueAt + spentBefore
    requires Punctual(wakes, spentBefore)
    requires |wakes| >= Callbacks(w.schedule.armed.value.dueAt - now)
    ensures ExecutedOnce(w, LeftAlone(w, now, NextDelay(w.schedule.armed.value.dueAt, now), wakes))
    decreases |wakes|
  {
    var dueAt := w.schedule.armed.value.dueAt;
    var checkedAt := now + NextDelay(dueAt, now) + wakes[0].late;
    var decidedAt := checkedAt + wakes[0].spent;
    var e := Callback(w.epoch, w.schedule.generation, checkedAt, decidedAt, true);
    ApplyKeepsValid(w, e);
    PunctualRest(wakes, spentBefore);
    PunctualWake(dueAt, now, wakes[0], spentBefore);
    if checkedAt < dueAt {
      PunctualFrom(Apply(w, e), decidedAt, wakes[1..], wakes[0].spent);
    }
  }

  /**
    The time a callback spends between its two clock reads counts against the next one: with callbacks that
    are each decided within 30 s of when they were asked for, an action can still be missed.
   */
  lemma SlowReadMisses(w: World, now: int)
    requires Valid(w) && w.schedule.armed.Some? && now == w.schedule.armed.value.dueAt - SLICE - SECOND
    ensures var wakes := [Wake(0, 20 * SECOND), Wake(15 * SECOND, 0)];
            var after := LeftAlone(w, now, NextDelay(w.schedule.armed.value.dueAt, now), wakes);
            && !Punctual(wakes, 0) && (forall i :: 0 <= i < |wakes| ==> wakes[i].late + wakes[i].spent <= GRACE)
            && after.skipped == w.skipped + 1 && after.executed == w.executed
  {
    var wakes := [Wake(0, 20 * SECOND), Wake(15 * SECOND, 0)];
    var dueAt := w.schedule.armed.value.dueAt;
    var first := Callback(w.epoch, w.schedule.generation, dueAt - SECOND, dueAt + 19 * SECOND, true);
    ApplyKeepsValid(w, first);
    assert Lateness(wakes, 1, 0) > GRACE;
    var second := Callback(w.epoch, w.schedule.generation, dueAt + 34 * SECOND, dueAt + 34 * SECOND, true);
    var middle := Apply(w, first);
    ApplyKeepsValid(middle, second);
    assert wakes[1..] == [wakes[1]] && wakes[1..][1..] == [];
    assert LeftAlone(w, now, SLICE, wakes) == LeftAlone(middle, dueAt + 19 * SECOND, 0, [wakes[1]]);
    assert LeftAlone(middle, dueAt + 19 * SECOND, 0, [wakes[1]]) == Apply(middle, second);
  }

  lemma CallbacksDecrease(remaining: int, left: int)
    requires remaining > SLICE && left <= remaining - SLICE
    ensures Callbacks(left) <= Callbacks(remaining) - 1
  {
  }

  // ----- Restore -----

  predicate Restorable(record: Record, now: int) {
    record.enabled && record.due.Some? && record.due.value > now && !record.action.Undefined?
  }

  /** What `Restore` leaves: the persisted action if it is still ahead, or nothing. */
  function RestoredSchedule(s: Schedule, record: Record, now: int): Schedule {
    if !record.enabled then Cleared(s)
    else
      var (armed, arming) := Arm(Cleared(s), record.action, record.due, now);
      if arming == Rejected then Cleared(Cleared(s)) else armed
  }

  lemma RestoredIsRestorable(s: Schedule, record: Record, now: int)
    requires !(s.disposed && Restorable(record, now))
    ensures RestoredSchedule(s, record, now).armed == if Restorable(record, now) then Some(Armed(record.action, record.due.value)) else None
  {
  }

  /** `Restore` as the locked sections it runs through. */
  function RestoreEvents(w: World, now: int, lockedAt: int, saved: bool): seq<Event> {
    if !w.record.enabled then [CancelEvent]
    else if Arm(Cleared(w.schedule), w.record.action, w.record.due, now).1 == Rejected then [CancelEvent, DisarmEvent(saved)]
    else [CancelEvent, ArmEvent(w.record.action, w.record.due, now, lockedAt)]
  }

  /**
    After Restore the persisted action is armed exactly when it is enabled, supported and still ahead;
    otherwise nothing is armed, and an enabled record has been disarmed if that could be saved.
   */
  lemma RestoreMatchesRecord(w: World, now: int, lockedAt: int, saved: bool)
    requires Valid(w) && !w.schedule.disposed
    ensures var after := Run(w, RestoreEvents(w, now, lockedAt, saved));
            && after.schedule == RestoredSchedule(w.schedule, w.record, now)
            && after.schedule.armed ==
               (if Restorable(w.record, now) then Some(Armed(w.record.action, w.record.due.value)) else None)
            && after.record == (if Restorable(w.record, now) then w.record else Disarmed(w.record, saved || !w.record.enabled))
            && after.executed == w.executed
  {
    ApplyKeepsValid(w, CancelEvent);
    var events := RestoreEvents(w, now, lockedAt, saved);
    if |events| == 2 {
      var middle := Apply(w, CancelEvent);
      assert events[1..] == [events[1]];
      ApplyKeepsValid(middle, events[1]);
      assert Run(w, events) == Run(middle, [events[1]]) == Apply(middle, events[1]);
    }
  }
}
