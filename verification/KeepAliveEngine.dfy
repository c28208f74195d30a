/**
  The keep-alive loop (KeepAliveEngine.cs): input pulses, pauses for locked sessions, and one power
  request. Times are in milliseconds of the engine's clock.
 */
module KeepAliveLoop {
  import opened Options
  import opened Preferences

  datatype KeepAliveOptions = KeepAliveOptions(
    keepAliveMethod: KeepAliveMethod, intervalSeconds: int, keepAwakeEnabled: bool, virtualKeyCode: int, mousePixelDelta: int)

  /** `KeepAliveOptions.Validate`. */
  predicate ValidOptions(o: KeepAliveOptions) {
    && !o.keepAliveMethod.UnknownMethod? && 20 <= o.intervalSeconds <= 86400
    && 124 <= o.virtualKeyCode <= 135 && 1 <= o.mousePixelDelta <= 5
  }

  datatype Handling = Quiet | ThrowsListed | ThrowsUnlisted

  /**
    What one turn of the loop meets: SetKeepAwake calls before the first read of the flag, between its two
    reads, and after the last read but before the status; a second RunAsync, the session, the clock before
    and after the pulse, the random jitter, and which of its calls fail.
   */
  datatype Tick = Tick(
    before: Option<bool>, between: Option<bool>, after: Option<bool>, rival: Option<KeepAliveOptions>,
    available: bool, checkedAt: int, pulsedAt: int, jitter: int,
    powerFails: bool, pulseFails: bool, handling: Handling)

  datatype Error = InputOrPowerFailed | ReleaseFailed

  datatype KeepAliveStatus = KeepAliveStatus(isRunning: bool, isPaused: bool, nextPulseAt: Option<int>, error: Option<Error>)

  /** A status event, with whether the power request was held and what the flag was when it was raised. */
  datatype Report = Report(status: KeepAliveStatus, held: bool, keepAwake: bool)

  datatype Pulse = Pulse(tick: nat, startedAt: int, endedAt: int)

  datatype Ending = Looping | Failed | Escaped

  datatype Loop = Loop(held: bool, keepAwake: bool, nextPulse: int, pulses: seq<Pulse>, reports: seq<Report>, ending: Ending)

  function Or(change: Option<bool>, flag: bool): bool {
    if change.Some? then change.value else flag
  }

  /** The flag as the first and as the second read of a tick see it, and as it is at the status. */
  function FirstRead(s: Loop, t: Tick): bool { Or(t.before, s.keepAwake) }
  function SecondRead(s: Loop, t: Tick): bool { Or(t.between, FirstRead(s, t)) }
  function AtStatus(s: Loop, t: Tick): bool { Or(t.after, SecondRead(s, t)) }

  /** The read that decides about the power request: the first to acquire it, the second to keep it. */
  function DecidingRead(s: Loop, t: Tick): bool {
    if s.held then SecondRead(s, t) else FirstRead(s, t)
  }

  /** The power request the loop asks for in this tick. */
  function Wanted(s: Loop, t: Tick): bool {
    if FirstRead(s, t) && t.available && !s.held then true
    else if (!SecondRead(s, t) || !t.available) && s.held then false
    else s.held
  }

  function PauseSeconds(o: KeepAliveOptions, jitter: int): int {
    if 20 >= o.intervalSeconds + jitter then 20 else o.intervalSeconds + jitter
  }

  predicate Due(s: Loop, t: Tick) {
    t.available && t.checkedAt >= s.nextPulse
  }

  /** The input part of a tick. */
  function Pulsed(s: Loop, n: nat, t: Tick, o: KeepAliveOptions): Loop {
    if !Due(s, t) then s
    else
      var s' := s.(pulses := s.pulses + [Pulse(n, t.checkedAt, t.pulsedAt)]);
      if t.pulseFails then s'.(ending := Failed)
      else s'.(nextPulse := t.pulsedAt + 1000 * PauseSeconds(o, t.jitter))
  }

  function Reported(s: Loop, t: Tick): Loop {
    var status := KeepAliveStatus(true, !t.available, if t.available then Some(s.nextPulse) else None, None);
    s.(reports := s.reports + [Report(status, s.held, s.keepAwake)],
       ending := match t.handling case Quiet => Looping case ThrowsListed => Failed case ThrowsUnlisted => Escaped)
  }

  /** One turn of the loop. */
  function Turn(s: Loop, n: nat, t: Tick, o: KeepAliveOptions): Loop {
    if Wanted(s, t) != s.held && t.powerFails then s.(keepAwake := SecondRead(s, t), ending := Failed)
    else
      var s2 := Pulsed(s.(keepAwake := AtStatus(s, t), held := Wanted(s, t)), n, t, o);
      if s2.ending == Looping then Reported(s2, t) else s2
  }

  /** The loop after these ticks, unless it has ended before. */
  function After(start: Loop, ticks: seq<Tick>, o: KeepAliveOptions): Loop
    decreases |ticks|
  {
    if ticks == [] then start
    else
      var n := |ticks| - 1;
      var s := After(start, ticks[..n], o);
      if s.ending == Looping then Turn(s, n, ticks[n], o) else s
  }

  function Begin(held: bool, startedAt: int, o: KeepAliveOptions): Loop {
    Loop(held, o.keepAwakeEnabled, startedAt, [], [], Looping)
  }

  // ----- the engine -----

  /** Owns the Windows power request; either call may be refused. */
  class KeepAwakeService {
    var isEnabled: bool

    method Enable(refused: bool) returns (ok: bool)
      modifies this
      ensures ok == (old(isEnabled) || !refused)
      ensures isEnabled == ok
    {
      if isEnabled { return true; }
      isEnabled := !refused;
      ok := !refused;
    }

    method Disable(refused: bool) returns (ok: bool)
      modifies this
      ensures ok == (!old(isEnabled) || !refused)
      ensures isEnabled == !ok
    {
      if !isEnabled { return true; }
      isEnabled := refused;
      ok := !refused;
    }
  }

  datatype Outcome = InvalidOptions | AlreadyRunning | Stopped | Threw

  class KeepAliveEngine {
    const power: KeepAwakeService
    var running: bool
    var keepAwake: bool

    constructor (power: KeepAwakeService)
      ensures this.power == power && !running
    {
      this.power := power;
      running := false;
    }

    /** `SetKeepAwake`. */
    method SetKeepAwake(enabled: bool)
      modifies this`keepAwake
      ensures keepAwake == enabled
    {
      keepAwake := enabled;
    }

    /**
      `RunAsync`, cancelled after `ticks` if nothing ends it before. Cancellation during the delay and at
      the top of the loop are the same.
     */
    method RunAsync(options: KeepAliveOptions, startedAt: int, ticks: seq<Tick>, releaseFails: bool)
      returns (outcome: Outcome, pulses: seq<Pulse>, reports: seq<Report>)
      modifies this, power
      ensures outcome == InvalidOptions <==> !ValidOptions(options)
      ensures outcome == AlreadyRunning <==> ValidOptions(options) && old(running)
      ensures outcome in {InvalidOptions, AlreadyRunning} ==>
                unchanged(this) && unchanged(power) && pulses == [] && reports == []
      ensures outcome in {Stopped, Threw} ==>
                var s := After(Begin(old(power.isEnabled), startedAt, options), ticks, options);
                && !running && keepAwake == s.keepAwake && pulses == s.pulses
                && (outcome == Threw <==> s.ending == Escaped)
                && power.isEnabled == (s.held && releaseFails)
                && reports == s.reports + [Report(KeepAliveStatus(false, false, None,
                                                                  if power.isEnabled then Some(ReleaseFailed)
                                                                  else if s.ending == Failed then Some(InputOrPowerFailed) else None),
                                                  power.isEnabled, keepAwake)]
      decreases if running then 0 else 2
    {
      pulses, reports := [], [];
      if !ValidOptions(options) { return InvalidOptions, pulses, reports; }
      if running { return AlreadyRunning, pulses, reports; }
      running := true;
      keepAwake := options.keepAwakeEnabled;
      var nextPulse := startedAt;
      var ending := Looping;
      ghost var start := Begin(power.isEnabled, startedAt, options);
      var n := 0;
      while n < |ticks| && ending == Looping
        invariant 0 <= n <= |ticks| && running
        invariant After(start, ticks[..n], options) == Loop(power.isEnabled, keepAwake, nextPulse, pulses, reports, ending)
      {
        assert ticks[..n + 1][..n] == ticks[..n];
        nextPulse, pulses, reports, ending := TakeTurn(options, n, ticks[n], nextPulse, pulses, reports);
        n := n + 1;
      }
      EndedStays(start, ticks, n, options);
      assert ticks[..|ticks|] == ticks;
      var released := power.Disable(releaseFails);
      running := false;
      reports := reports + [Report(Final(ending, !released), power.isEnabled, keepAwake)];
      outcome := if ending == Escaped then Threw else Stopped;
    }

    /** The body of the loop, on its local variables. */
    method TakeTurn(options: KeepAliveOptions, n: nat, tick: Tick, next: int, pulsed: seq<Pulse>, reported: seq<Report>)
      returns (nextPulse: int, pulses: seq<Pulse>, reports: seq<Report>, ending: Ending)
      requires running
      modifies this, power
      ensures running
      ensures Loop(power.isEnabled, keepAwake, nextPulse, pulses, reports, ending) ==
                Turn(Loop(old(power.isEnabled), old(keepAwake), next, pulsed, reported, Looping), n, tick, options)
      decreases 1
    {
      nextPulse, pulses, reports := next, pulsed, reported;
      if tick.rival.Some? {
        var rejected, none, nothing := RunAsync(tick.rival.value, tick.checkedAt, [], false);
      }
      ending := RequestPower(tick, Loop(power.isEnabled, keepAwake, next, pulsed, reported, Looping));
      if ending == Looping && tick.available && tick.checkedAt >= nextPulse {
        pulses := pulses + [Pulse(n, tick.checkedAt, tick.pulsedAt)];
        if tick.pulseFails {
          ending := Failed;
        } else {
          nextPulse := tick.pulsedAt + 1000 * PauseSeconds(options, tick.jitter);
        }
      }
      if ending == Looping {
        var status := KeepAliveStatus(true, !tick.available, if tick.available then Some(nextPulse) else None, None);
        reports := reports + [Report(status, power.isEnabled, keepAwake)];
        ending := match tick.handling case Quiet => Looping case ThrowsListed => Failed case ThrowsUnlisted => Escaped;
      }
    }

    /** The first two branches of a turn, which acquire or release the power request, and the flag up to the status. */
    method RequestPower(tick: Tick, ghost s: Loop) returns (ending: Ending)
      requires s.held == power.isEnabled && s.keepAwake == keepAwake
      modifies this`keepAwake, power
      ensures keepAwake == if ending == Failed then SecondRead(s, tick) else AtStatus(s, tick)
      ensures ending == if Wanted(s, tick) != s.held && tick.powerFails then Failed else Looping
      ensures power.isEnabled == if ending == Failed then s.held else Wanted(s, tick)
    {
      if tick.before.Some? { SetKeepAwake(tick.before.value); }
      var ok := true;
      if keepAwake && tick.available && !power.isEnabled {
        ok := power.Enable(tick.powerFails);
        if tick.between.Some? { SetKeepAwake(tick.between.value); }
      } else {
        if tick.between.Some? { SetKeepAwake(tick.between.value); }
        if (!keepAwake || !tick.available) && power.isEnabled {
          ok := power.Disable(tick.powerFails);
        }
      }
      if !ok { return Failed; }
      if tick.after.Some? { SetKeepAwake(tick.after.value); }
      return Looping;
    }
  }

  /** The status of the finally block. */
  function Final(ending: Ending, stillHeld: bool): KeepAliveStatus {
    KeepAliveStatus(false, false, None,
                    if stillHeld then Some(ReleaseFailed) else if ending == Failed then Some(InputOrPowerFailed) else None)
  }

  lemma {:induction false} EndedStays(start: Loop, ticks: seq<Tick>, n: nat, o: KeepAliveOptions)
    requires n <= |ticks| && (n == |ticks| || After(start, ticks[..n], o).ending != Looping)
    ensures After(start, ticks, o) == After(start, ticks[..n], o)
    decreases |ticks|
  {
    if n == |ticks| {
      assert ticks[..n] == ticks;
    } else {
      var m := |ticks| - 1;
      assert ticks[..m][..n] == ticks[..n];
      EndedStays(start, ticks[..m], n, o);
    }
  }

  // ----- what every run keeps -----

  /** No clock step within a tick goes back, and `Random.Shared.Next(-15, 16)` keeps its range. */
  predicate Plausible(ticks: seq<Tick>) {
    forall i :: 0 <= i < |ticks| ==> ticks[i].checkedAt <= ticks[i].pulsedAt && -15 <= ticks[i].jitter <= 15
  }

  /** The shortest time from the end of a pulse until the next one: 15 s less than the interval, but not below 20 s. */
  function ShortestPause(o: KeepAliveOptions): int {
    1000 * (if o.intervalSeconds < 35 then 20 else o.intervalSeconds - 15)
  }

  predicate Spaced(pulses: seq<Pulse>, gap: int) {
    forall i, j :: 0 <= i < j < |pulses| ==> pulses[j].startedAt >= pulses[i].endedAt + gap * (j - i)
  }

  lemma SpacedSnoc(pulses: seq<Pulse>, p: Pulse, gap: int)
    requires Spaced(pulses, gap)
    requires forall i :: 0 <= i < |pulses| ==> pulses[i].startedAt <= pulses[i].endedAt
    requires pulses != [] ==> p.startedAt >= pulses[|pulses| - 1].endedAt + gap
    ensures Spaced(pulses + [p], gap)
  {
    forall i | 0 <= i < |pulses| ensures p.startedAt >= pulses[i].endedAt + gap * (|pulses| - i) {
      if i < |pulses| - 1 {
        assert pulses[|pulses| - 1].startedAt >= pulses[i].endedAt + gap * (|pulses| - 1 - i);
        assert gap * (|pulses| - i) == gap * (|pulses| - 1 - i) + gap;
      }
    }
  }

  lemma TurnPulses(s: Loop, n: nat, t: Tick, o: KeepAliveOptions)
    requires s.ending == Looping
    ensures var s' := Turn(s, n, t, o);
            var pulsed := s.pulses + [Pulse(n, t.checkedAt, t.pulsedAt)];
            && (s'.pulses == s.pulses || (Due(s, t) && s'.pulses == pulsed))
            && (s'.ending == Looping && Due(s, t) ==>
                  s'.pulses == pulsed && s'.nextPulse == t.pulsedAt + 1000 * PauseSeconds(o, t.jitter))
            && (s'.ending == Looping && !Due(s, t) ==> s'.pulses == s.pulses && s'.nextPulse == s.nextPulse)
  {
  }

  predicate OfTick(p: Pulse, ticks: seq<Tick>) {
    && p.tick < |ticks| && ticks[p.tick].available
    && p.startedAt == ticks[p.tick].checkedAt <= p.endedAt
  }

  predicate PulsesKept(s: Loop, ticks: seq<Tick>, o: KeepAliveOptions) {
    && Spaced(s.pulses, ShortestPause(o))
    && (forall i :: 0 <= i < |s.pulses| ==> OfTick(s.pulses[i], ticks))
    && (s.ending == Looping && s.pulses != [] ==> s.nextPulse >= s.pulses[|s.pulses| - 1].endedAt + ShortestPause(o))
  }

  lemma TurnKeepsPulses(s: Loop, ticks: seq<Tick>, o: KeepAliveOptions)
    requires ticks != [] && Plausible(ticks) && s.ending == Looping && PulsesKept(s, ticks[..|ticks| - 1], o)
    ensures PulsesKept(Turn(s, |ticks| - 1, ticks[|ticks| - 1], o), ticks, o)
  {
    var n := |ticks| - 1;
    TurnPulses(s, n, ticks[n], o);
    forall i | 0 <= i < |s.pulses| ensures OfTick(s.pulses[i], ticks) {
      assert OfTick(s.pulses[i], ticks[..n]);
    }
    if Due(s, ticks[n]) {
      SpacedSnoc(s.pulses, Pulse(n, ticks[n].checkedAt, ticks[n].pulsedAt), ShortestPause(o));
    }
  }

  /**
    The k-th pulse after another starts at least k times the shortest pause after that one ended, whatever
    the clock, the session and the ticks did in between: a pause is never made up for. Every pulse is of a
    tick that found the session available.
   */
  lemma {:induction false} PulsesAreSpaced(held: bool, startedAt: int, ticks: seq<Tick>, o: KeepAliveOptions)
    requires Plausible(ticks)
    ensures PulsesKept(After(Begin(held, startedAt, o), ticks, o), ticks, o)
    decreases |ticks|
  {
    if ticks != [] {
      var n := |ticks| - 1;
      PulsesAreSpaced(held, startedAt, ticks[..n], o);
      var s := After(Begin(held, startedAt, o), ticks[..n], o);
      if s.ending == Looping {
        TurnKeepsPulses(s, ticks, o);
      } else {
        forall i | 0 <= i < |s.pulses| ensures OfTick(s.pulses[i], ticks) {
          assert OfTick(s.pulses[i], ticks[..n]);
        }
      }
    }
  }

  /** The time at which the next pulse is due: at once, or its own pause after the last one, jitter included. */
  predicate DueAsDrawn(s: Loop, startedAt: int, ticks: seq<Tick>, o: KeepAliveOptions) {
    if s.pulses == [] then s.nextPulse == startedAt
    else
      var last := s.pulses[|s.pulses| - 1];
      last.tick < |ticks| &&
      var drawn := o.intervalSeconds + ticks[last.tick].jitter;
      s.nextPulse == last.endedAt + 1000 * (if drawn > 20 then drawn else 20)
  }

  /**
    As long as the loop goes on, a turn pulses exactly when the session is available and the time has come:
    the pause after a pulse is the interval with the jitter drawn then, but not less than 20 s.
   */
  lemma {:induction false} PulsesWhenDue(held: bool, startedAt: int, ticks: seq<Tick>, o: KeepAliveOptions)
    requires After(Begin(held, startedAt, o), ticks, o).ending == Looping
    ensures DueAsDrawn(After(Begin(held, startedAt, o), ticks, o), startedAt, ticks, o)
    ensures ticks != [] ==>
              var was, t := After(Begin(held, startedAt, o), ticks[..|ticks| - 1], o), ticks[|ticks| - 1];
              After(Begin(held, startedAt, o), ticks, o).pulses ==
              was.pulses + if t.available && t.checkedAt >= was.nextPulse then [Pulse(|ticks| - 1, t.checkedAt, t.pulsedAt)] else []
    decreases |ticks|
  {
    if ticks != [] {
      var n := |ticks| - 1;
      PulsesWhenDue(held, startedAt, ticks[..n], o);
      TurnPulses(After(Begin(held, startedAt, o), ticks[..n], o), n, ticks[n], o);
    }
  }

  /** The longest time from the end of a pulse until the next one is due. */
  function LongestPause(o: KeepAliveOptions): int {
    1000 * (o.intervalSeconds + 15)
  }

  /** From turn k on the session is available, and the turns are at most `period` apart. */
  predicate Steady(startedAt: int, ticks: seq<Tick>, k: nat, period: nat) {
    forall i :: k <= i < |ticks| ==>
      && ticks[i].available && startedAt <= ticks[i].checkedAt
      && (i > k ==> ticks[i].checkedAt <= ticks[i - 1].checkedAt + period)
  }

  /** Every pulse after turn k started less than `gap` after the one before it had ended. */
  predicate Prompt(pulses: seq<Pulse>, k: nat, gap: int) {
    forall i :: 0 < i < |pulses| && pulses[i].tick > k ==> pulses[i].startedAt < pulses[i - 1].endedAt + gap
  }

  /** When the next pulse is due: at the start, or not longer after the last one than the longest pause. */
  predicate DueSoon(s: Loop, startedAt: int, o: KeepAliveOptions) {
    if s.pulses == [] then s.nextPulse == startedAt
    else s.nextPulse <= s.pulses[|s.pulses| - 1].endedAt + LongestPause(o)
  }

  predicate PulsesBefore(pulses: seq<Pulse>, n: nat) {
    forall i :: 0 <= i < |pulses| ==> pulses[i].tick < n
  }

  lemma TurnIsPrompt(s: Loop, startedAt: int, ticks: seq<Tick>, o: KeepAliveOptions, k: nat, period: nat)
    requires ValidOptions(o) && Plausible(ticks) && Steady(startedAt, ticks, k, period) && ticks != []
    requires s.ending == Looping && DueSoon(s, startedAt, o) && PulsesBefore(s.pulses, |ticks| - 1)
    requires Prompt(s.pulses, k, LongestPause(o) + period)
    requires k < |ticks| - 1 ==> s.pulses != [] && ticks[|ticks| - 2].checkedAt < s.nextPulse
    ensures var s' := Turn(s, |ticks| - 1, ticks[|ticks| - 1], o);
            && Prompt(s'.pulses, k, LongestPause(o) + period) && PulsesBefore(s'.pulses, |ticks|)
            && (s'.ending == Looping ==>
                  && DueSoon(s', startedAt, o)
                  && (k < |ticks| ==> s'.pulses != [] && ticks[|ticks| - 1].checkedAt < s'.nextPulse))
  {
    var n := |ticks| - 1;
    TurnPulses(s, n, ticks[n], o);
    assert PauseSeconds(o, ticks[n].jitter) <= o.intervalSeconds + 15;
  }

  /**
    From any turn k on for as long as the session stays available, whatever happened before: its first turn
    pulses if a pulse is due, no turn leaves a pulse overdue, and every later pulse starts less than
    interval + 15 s + period after the end of the one before. With exact turns of one second that is the
    interval plus 16 seconds.
   */
  lemma {:induction false} GapIsBounded(held: bool, startedAt: int, ticks: seq<Tick>, o: KeepAliveOptions, k: nat, period: nat)
    requires ValidOptions(o) && Plausible(ticks) && Steady(startedAt, ticks, k, period)
    ensures var s := After(Begin(held, startedAt, o), ticks, o);
            && Prompt(s.pulses, k, LongestPause(o) + period) && PulsesBefore(s.pulses, |ticks|)
            && (s.ending == Looping ==>
                  && DueSoon(s, startedAt, o)
                  && (k < |ticks| ==> s.pulses != [] && ticks[|ticks| - 1].checkedAt < s.nextPulse))
    decreases |ticks|
  {
    if ticks != [] {
      var n := |ticks| - 1;
      GapIsBounded(held, startedAt, ticks[..n], o, k, period);
      var s := After(Begin(held, startedAt, o), ticks[..n], o);
      if s.ending == Looping {
        assert k < n ==> ticks[..n][n - 1] == ticks[n - 1];
        TurnIsPrompt(s, startedAt, ticks, o, k, period);
      }
    }
  }

  // ----- the flag -----

  function Call(change: Option<bool>): seq<bool> {
    if change.Some? then [change.value] else []
  }

  /** The SetKeepAwake calls of a run, in order. */
  function Calls(ticks: seq<Tick>): seq<bool> {
    if ticks == [] then []
    else
      var t := ticks[|ticks| - 1];
      Calls(ticks[..|ticks| - 1]) + Call(t.before) + Call(t.between) + Call(t.after)
  }

  /** After every completed turn the flag is what the last call of the run asked for, or what the options say. */
  lemma {:induction false} FlagIsTheLastCall(held: bool, startedAt: int, ticks: seq<Tick>, o: KeepAliveOptions)
    requires After(Begin(held, startedAt, o), ticks, o).ending == Looping
    ensures var calls := Calls(ticks);
            After(Begin(held, startedAt, o), ticks, o).keepAwake == if calls == [] then o.keepAwakeEnabled else calls[|calls| - 1]
    decreases |ticks|
  {
    if ticks != [] {
      var t := ticks[|ticks| - 1];
      FlagIsTheLastCall(held, startedAt, ticks[..|ticks| - 1], o);
      var was := After(Begin(held, startedAt, o), ticks[..|ticks| - 1], o);
      assert After(Begin(held, startedAt, o), ticks, o).keepAwake == AtStatus(was, t);
    }
  }

  // ----- how a run ends -----

  /** The turn gets as far as its status: neither a call for the power request nor a pulse fails. */
  predicate ReachesStatus(s: Loop, t: Tick) {
    !(t.powerFails && Wanted(s, t) != s.held) && !(t.pulseFails && Due(s, t))
  }

  /** The loop goes on as long as every turn reaches its status and no handler of it throws. */
  lemma {:induction false} LoopsOnExactlyWhen(start: Loop, ticks: seq<Tick>, o: KeepAliveOptions)
    requires start.ending == Looping
    ensures After(start, ticks, o).ending == Looping <==>
              forall n :: 0 <= n < |ticks| ==> ReachesStatus(After(start, ticks[..n], o), ticks[n]) && ticks[n].handling == Quiet
    decreases |ticks|
  {
    if ticks != [] {
      var m := |ticks| - 1;
      LoopsOnExactlyWhen(start, ticks[..m], o);
      forall n | 0 <= n < m ensures ticks[..m][..n] == ticks[..n] && ticks[..m][n] == ticks[n] {
      }
      assert After(start, ticks[..m], o).ending == Looping ==>
               (ReachesStatus(After(start, ticks[..m], o), ticks[m]) && ticks[m].handling == Quiet <==>
                After(start, ticks, o).ending == Looping);
      if After(start, ticks, o).ending == Looping {
        forall n | 0 <= n < |ticks|
          ensures ReachesStatus(After(start, ticks[..n], o), ticks[n]) && ticks[n].handling == Quiet
        {
          if n < m {
            assert ReachesStatus(After(start, ticks[..m][..n], o), ticks[..m][n]);
          }
        }
      }
    }
  }

  /** A run that has ended did so in one turn, in which a call failed or a handler threw. */
  lemma {:induction false} EndedInOneTurn(start: Loop, ticks: seq<Tick>, o: KeepAliveOptions) returns (n: nat)
    requires start.ending == Looping && After(start, ticks, o).ending != Looping
    ensures n < |ticks| && After(start, ticks[..n], o).ending == Looping
    ensures var was := After(start, ticks[..n], o);
            && After(start, ticks, o) == Turn(was, n, ticks[n], o)
            && (After(start, ticks, o).ending == Escaped <==> ReachesStatus(was, ticks[n]) && ticks[n].handling == ThrowsUnlisted)
            && (After(start, ticks, o).ending == Failed <==> !ReachesStatus(was, ticks[n]) || ticks[n].handling == ThrowsListed)
    decreases |ticks|
  {
    var m := |ticks| - 1;
    if After(start, ticks[..m], o).ending == Looping {
      n := m;
    } else {
      n := EndedInOneTurn(start, ticks[..m], o);
      assert ticks[..m][..n] == ticks[..n];
    }
  }

  // ----- power -----

  function ReportOf(was: Loop, t: Tick, n: nat, o: KeepAliveOptions): Report {
    var s := Pulsed(was.(keepAwake := AtStatus(was, t), held := Wanted(was, t)), n, t, o);
    Report(KeepAliveStatus(true, !t.available, if t.available then Some(s.nextPulse) else None, None), s.held, s.keepAwake)
  }

  lemma TurnReports(s: Loop, n: nat, t: Tick, o: KeepAliveOptions)
    requires s.ending == Looping
    ensures var s' := Turn(s, n, t, o);
            && (s'.reports == s.reports || s'.reports == s.reports + [ReportOf(s, t, n, o)])
            && (s'.ending == Looping ==> s'.reports == s.reports + [ReportOf(s, t, n, o)])
  {
  }

  lemma {:induction false} OneReportPerTick(start: Loop, ticks: seq<Tick>, o: KeepAliveOptions)
    requires start.reports == [] && start.ending == Looping
    ensures var s := After(start, ticks, o);
            |s.reports| <= |ticks| && (s.ending == Looping ==> |s.reports| == |ticks|)
    decreases |ticks|
  {
    if ticks != [] {
      var m := |ticks| - 1;
      OneReportPerTick(start, ticks[..m], o);
      var s := After(start, ticks[..m], o);
      if s.ending == Looping {
        TurnReports(s, m, ticks[m], o);
      }
    }
  }

  /** The n-th status is the n-th tick's. */
  lemma {:induction false} ReportsFollowTicks(start: Loop, ticks: seq<Tick>, o: KeepAliveOptions, n: nat)
    requires start.reports == [] && start.ending == Looping
    requires n < |After(start, ticks, o).reports|
    ensures n < |ticks|
    ensures var was := After(start, ticks[..n], o);
            && was.ending == Looping
            && After(start, ticks[..n + 1], o) == Turn(was, n, ticks[n], o) && |was.reports| == n
            && |Turn(was, n, ticks[n], o).reports| == n + 1
            && After(start, ticks, o).reports[n] == ReportOf(was, ticks[n], n, o)
    decreases |ticks|
  {
    OneReportPerTick(start, ticks, o);
    var m := |ticks| - 1;
    var s := After(start, ticks[..m], o);
    OneReportPerTick(start, ticks[..m], o);
    if s.ending == Looping {
      TurnReports(s, m, ticks[m], o);
      assert n < m ==> After(start, ticks, o).reports[n] == s.reports[n];
    }
    if n < m {
      assert ticks[..m][..n] == ticks[..n] && ticks[..m][..n + 1] == ticks[..n + 1];
      ReportsFollowTicks(start, ticks[..m], o, n);
    } else {
      assert ticks[..n + 1] == ticks;
    }
  }

  /** What one turn makes of the power request, when it gets as far as its status. */
  lemma TurnPower(was: Loop, n: nat, t: Tick, o: KeepAliveOptions)
    requires was.ending == Looping && |Turn(was, n, t, o).reports| > |was.reports|
    ensures var now := Turn(was, n, t, o);
            && now.keepAwake == AtStatus(was, t)
            && now.held == (t.available && DecidingRead(was, t))
            && ReportOf(was, t, n, o) ==
                 Report(KeepAliveStatus(true, !t.available, if t.available then Some(now.nextPulse) else None, None),
                        now.held, now.keepAwake)
            && (t.available && t.checkedAt <= t.pulsedAt ==> t.checkedAt < now.nextPulse)
  {
  }

  /**
    At the status of every turn the power request is held exactly when keep-awake is on and the session is
    available, if and only if the session is away or the flag is still what the deciding read of this turn
    saw. A paused status announces no pulse, any other one that is still to come.
   */
  lemma PowerFollowsTheFlag(held: bool, startedAt: int, ticks: seq<Tick>, o: KeepAliveOptions, n: nat)
    requires n < |After(Begin(held, startedAt, o), ticks, o).reports|
    ensures n < |ticks|
    ensures var was := After(Begin(held, startedAt, o), ticks[..n], o);
            var now := After(Begin(held, startedAt, o), ticks[..n + 1], o);
            var report := After(Begin(held, startedAt, o), ticks, o).reports[n];
            var t := ticks[n];
            && report == Report(KeepAliveStatus(true, !t.available, if t.available then Some(now.nextPulse) else None, None),
                                now.held, AtStatus(was, t))
            && (report.held == (t.available && report.keepAwake) <==> !t.available || report.keepAwake == DecidingRead(was, t))
            && (report.held ==> t.available)
            && (t.available && t.checkedAt <= t.pulsedAt ==> t.checkedAt < now.nextPulse)
  {
    var start := Begin(held, startedAt, o);
    ReportsFollowTicks(start, ticks, o, n);
    TurnPower(After(start, ticks[..n], o), n, ticks[n], o);
  }

  /** A flag that nobody changes during the turn is followed. */
  lemma UnchangedFlagIsFollowed(held: bool, startedAt: int, ticks: seq<Tick>, o: KeepAliveOptions, n: nat)
    requires n < |After(Begin(held, startedAt, o), ticks, o).reports|
    requires n < |ticks| && ticks[n].between.None? && ticks[n].after.None?
    ensures var report := After(Begin(held, startedAt, o), ticks, o).reports[n];
            report.held == (ticks[n].available && report.keepAwake)
  {
    PowerFollowsTheFlag(held, startedAt, ticks, o, n);
  }

  /**
    Two turns on which the request does not match the flag: a call between the two reads, while nothing is
    held, and a call after the last read, during the pulse, while the request is held.
   */
  lemma FlagMissedForATurn(startedAt: int, o: KeepAliveOptions, held: bool)
    requires ValidOptions(o) && o.keepAwakeEnabled
    ensures exists ticks ::
              var s := After(Begin(held, startedAt, o), ticks, o);
              |ticks| == 1 && |s.reports| == 1 && s.reports[0].held && !s.reports[0].keepAwake
  {
    var t := Tick(None, if held then None else Some(false), if held then Some(false) else None, None,
                  true, startedAt, startedAt, 0, false, false, Quiet);
    var start := Begin(held, startedAt, o);
    var s := After(start, [t], o);
    assert [t][..0] == [] && After(start, [], o) == start;
    assert s == Turn(start, 0, t, o);
    assert |s.reports| == 1 && s.reports[0].held && !s.reports[0].keepAwake;
  }
}
