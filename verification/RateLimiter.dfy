/**
  The per-user request limiter of the account service: one bounded table, swept only when it is full,
  beside the unbounded table of fixed windows that it has to agree with.
  Times are `Date.now()` milliseconds.
 */
module RateLimiter {

  const CAPACITY := 10000
  const WINDOW := 60000
  const LIMIT := 60

  datatype Window = Window(count: nat, resetAt: int)

  datatype Verdict = Accepted | Busy | Limited(retryAfter: int)

  datatype Request = Request(user: string, now: int)

  type Table = map<string, Window>

  /** `Math.ceil(ms / 1000)`. */
  function CeilSeconds(ms: int): int {
    (ms + 999) / 1000
  }

  // ----- the bounded table -----

  function Sweep(table: Table, now: int): Table {
    map user | user in table && table[user].resetAt > now :: table[user]
  }

  function Swept(table: Table, now: int): Table {
    if |table| > CAPACITY then Sweep(table, now) else table
  }

  function Counted(table: Table, r: Request): Window {
    if r.user in table && table[r.user].resetAt > r.now
    then table[r.user].(count := table[r.user].count + 1)
    else Window(1, r.now + WINDOW)
  }

  function Answer(table: Table, r: Request): (Table, Verdict) {
    var kept := Swept(table, r.now);
    if |kept| > CAPACITY then (kept, Busy)
    else
      var w := Counted(kept, r);
      (kept[r.user := w], if w.count > LIMIT then Limited(CeilSeconds(w.resetAt - r.now)) else Accepted)
  }

  /** The middleware with its map. */
  class Limiter {
    var requests: Table

    constructor ()
      ensures requests == map[]
    {
      requests := map[];
    }

    method Handle(r: Request) returns (verdict: Verdict)
      modifies this
      ensures (requests, verdict) == Answer(old(requests), r)
    {
      if |requests| > CAPACITY {
        ghost var before := requests;
        var keys := requests.Keys;
        while keys != {}
          invariant keys <= requests.Keys
          invariant requests == map u | u in before && (u in keys || before[u].resetAt > r.now) :: before[u]
          decreases |keys|
        {
          var key :| key in keys;
          if requests[key].resetAt <= r.now {
            requests := requests - {key};
          }
          keys := keys - {key};
        }
        assert requests == Sweep(before, r.now);
        if |requests| > CAPACITY {
          return Busy;
        }
      }
      var current := Window(0, r.now + WINDOW);
      if r.user in requests && requests[r.user].resetAt > r.now {
        current := requests[r.user];
      }
      current := current.(count := current.count + 1);
      requests := requests[r.user := current];
      if current.count > LIMIT {
        return Limited(CeilSeconds(current.resetAt - r.now));
      }
      return Accepted;
    }
  }

  // ----- the reference: a table that never forgets -----

  /** A user's current fixed window: when it opened and how many requests it has seen. */
  datatype Meter = Meter(start: int, count: nat)

  type Meters = map<string, Meter>

  predicate Open(m: Meter, now: int) {
    now < m.start + WINDOW
  }

  function OpenUsers(meters: Meters, now: int): set<string> {
    set user | user in meters && Open(meters[user], now)
  }

  function Advance(meters: Meters, r: Request): Meter {
    if r.user in meters && Open(meters[r.user], r.now)
    then Meter(meters[r.user].start, meters[r.user].count + 1)
    else Meter(r.now, 1)
  }

  function Reference(meters: Meters, r: Request): (Meters, Verdict) {
    if |OpenUsers(meters, r.now)| > CAPACITY then (meters, Busy)
    else
      var m := Advance(meters, r);
      (meters[r.user := m], if m.count > LIMIT then Limited(CeilSeconds(m.start + WINDOW - r.now)) else Accepted)
  }

  // ----- runs -----

  predicate Monotone(trace: seq<Request>) {
    forall i, j :: 0 <= i < j < |trace| ==> trace[i].now <= trace[j].now
  }

  function TableAfter(trace: seq<Request>): Table {
    if trace == [] then map[] else Answer(TableAfter(trace[..|trace| - 1]), trace[|trace| - 1]).0
  }

  function VerdictOf(trace: seq<Request>): Verdict
    requires trace != []
  {
    Answer(TableAfter(trace[..|trace| - 1]), trace[|trace| - 1]).1
  }

  function MetersAfter(trace: seq<Request>): Meters {
    if trace == [] then map[] else Reference(MetersAfter(trace[..|trace| - 1]), trace[|trace| - 1]).0
  }

  function ReferenceVerdictOf(trace: seq<Request>): Verdict
    requires trace != []
  {
    Reference(MetersAfter(trace[..|trace| - 1]), trace[|trace| - 1]).1
  }

  /** From `now` on, both tables know the same open windows. */
  ghost predicate Agree(table: Table, meters: Meters, now: int) {
    && (forall user :: user in table && table[user].resetAt > now ==>
          user in meters && meters[user] == Meter(table[user].resetAt - WINDOW, table[user].count))
    && (forall user :: user in meters && Open(meters[user], now) ==>
          user in table && table[user] == Window(meters[user].count, meters[user].start + WINDOW))
  }

  lemma AgreeLater(table: Table, meters: Meters, now: int, later: int)
    requires Agree(table, meters, now) && now <= later
    ensures Agree(table, meters, later)
  {
  }

  /** Sweeping forgets no open window, and leaves too many entries exactly when too many are open. */
  lemma SweptAgrees(table: Table, meters: Meters, now: int)
    requires Agree(table, meters, now)
    ensures Agree(Swept(table, now), meters, now)
    ensures |Swept(table, now)| > CAPACITY <==> |OpenUsers(meters, now)| > CAPACITY
  {
    assert Sweep(table, now).Keys == OpenUsers(meters, now);
    assert |Sweep(table, now)| == |Sweep(table, now).Keys|;
    if |table| <= CAPACITY {
      SubsetCardinality(Sweep(table, now).Keys, table.Keys);
    }
  }

  lemma StepAgrees(table: Table, meters: Meters, r: Request)
    requires Agree(table, meters, r.now)
    ensures Answer(table, r).1 == Reference(meters, r).1
    ensures Agree(Answer(table, r).0, Reference(meters, r).0, r.now)
  {
    SweptAgrees(table, meters, r.now);
    var kept := Swept(table, r.now);
    var w, m := Counted(kept, r), Advance(meters, r);
    assert m == Meter(w.resetAt - WINDOW, w.count);
  }

  lemma SubsetCardinality<T>(a: set<T>, b: set<T>)
    requires a <= b
    ensures |a| <= |b|
  {
    if a != {} {
      var x :| x in a;
      SubsetCardinality(a - {x}, b - {x});
    }
  }

  lemma {:induction false} RunAgrees(trace: seq<Request>, now: int)
    requires Monotone(trace)
    requires trace != [] ==> trace[|trace| - 1].now <= now
    ensures Agree(TableAfter(trace), MetersAfter(trace), now)
  {
    if trace != [] {
      var r := trace[|trace| - 1];
      RunAgrees(trace[..|trace| - 1], r.now);
      StepAgrees(TableAfter(trace[..|trace| - 1]), MetersAfter(trace[..|trace| - 1]), r);
      AgreeLater(TableAfter(trace), MetersAfter(trace), r.now, now);
    }
  }

  /** On every run the bounded, lazily swept table answers exactly like the one that never forgets. */
  lemma LimiterRefinesReference(trace: seq<Request>)
    requires trace != [] && Monotone(trace)
    ensures VerdictOf(trace) == ReferenceVerdictOf(trace)
  {
    var r := trace[|trace| - 1];
    RunAgrees(trace[..|trace| - 1], r.now);
    StepAgrees(TableAfter(trace[..|trace| - 1]), MetersAfter(trace[..|trace| - 1]), r);
  }

  /** The table never holds more than one entry above the sweep threshold. */
  lemma {:induction false} TableIsBounded(trace: seq<Request>)
    ensures |TableAfter(trace)| <= 10_001
  {
    if trace != [] {
      var before := TableAfter(trace[..|trace| - 1]);
      var r := trace[|trace| - 1];
      TableIsBounded(trace[..|trace| - 1]);
      SubsetCardinality(Sweep(before, r.now).Keys, before.Keys);
      var kept := Swept(before, r.now);
      assert |Sweep(before, r.now)| == |Sweep(before, r.now).Keys| && |before| == |before.Keys|;
      assert kept[r.user := Counted(kept, r)].Keys == kept.Keys + {r.user};
    }
  }

  /** A request is turned away as busy exactly when more than CAPACITY users have an open window. */
  lemma BusyExactlyWhenFull(trace: seq<Request>)
    requires trace != [] && Monotone(trace)
    ensures var meters, now := MetersAfter(trace[..|trace| - 1]), trace[|trace| - 1].now;
            VerdictOf(trace) == Busy <==> |set user | user in meters && now < meters[user].start + 60_000| > 10_000
  {
    LimiterRefinesReference(trace);
    var meters, now := MetersAfter(trace[..|trace| - 1]), trace[|trace| - 1].now;
    assert OpenUsers(meters, now) == set user | user in meters && now < meters[user].start + 60_000;
  }

  // ----- how much one user can get -----

  /** Requests of `user` accepted at times in [lo, hi]. */
  function AcceptedIn(trace: seq<Request>, user: string, lo: int, hi: int): nat {
    if trace == [] then 0
    else
      var r := trace[|trace| - 1];
      AcceptedIn(trace[..|trace| - 1], user, lo, hi)
      + if r.user == user && lo <= r.now <= hi && VerdictOf(trace) == Accepted then 1 else 0
  }

  function Min(a: int, b: int): int {
    if a < b then a else b
  }

  /** What the reference meter of `user` says about the requests accepted so far. */
  ghost predicate Budget(trace: seq<Request>, user: string, lo: int, hi: int) {
    var meters := MetersAfter(trace);
    if user !in meters then AcceptedIn(trace, user, lo, hi) == 0
    else
      var m := meters[user];
      && m.start <= trace[|trace| - 1].now
      && (m.start + WINDOW <= lo ==> AcceptedIn(trace, user, lo, hi) == 0)
      && (m.start <= lo ==> AcceptedIn(trace, user, lo, hi) <= Min(m.count, LIMIT))
      && (m.start <= lo + WINDOW ==> AcceptedIn(trace, user, lo, hi) <= LIMIT + Min(m.count, LIMIT))
      && (hi <= lo + WINDOW ==> AcceptedIn(trace, user, lo, hi) <= 2 * LIMIT)
      && (lo <= m.start && trace[|trace| - 1].now <= hi ==> AcceptedIn(trace, user, lo, hi) >= Min(m.count, LIMIT))
      && m.count >= 1
  }

  lemma {:induction false} BudgetHolds(trace: seq<Request>, user: string, lo: int, hi: int)
    requires Monotone(trace)
    ensures MetersAfter(trace) != map[] ==> trace != []
    ensures Budget(trace, user, lo, hi)
  {
    if trace != [] {
      var front := trace[..|trace| - 1];
      BudgetHolds(front, user, lo, hi);
      LimiterRefinesReference(trace);
    }
  }

  /** Never more than 120 accepted requests of one user in any span of 60 000 ms, both ends included. */
  lemma AtMostTwoWindowsInAnySpan(trace: seq<Request>, user: string, lo: int)
    requires Monotone(trace)
    ensures AcceptedIn(trace, user, lo, lo + 60_000) <= 120
  {
    BudgetHolds(trace, user, lo, lo + WINDOW);
  }

  /**
    Never more than 60 accepted requests in one window of one user, at whatever point n of the run it
    was open; a later window of that user opens only after it has ended.
   */
  lemma {:induction false} AtMostLimitPerWindow(trace: seq<Request>, user: string, n: nat)
    requires Monotone(trace) && n <= |trace| && user in MetersAfter(trace[..n])
    ensures user in MetersAfter(trace)
    ensures var start := MetersAfter(trace[..n])[user].start;
            var latest := MetersAfter(trace)[user].start;
            && AcceptedIn(trace, user, start, start + 59_999) <= 60
            && (latest == start || latest >= start + 60_000)
  {
    var start := MetersAfter(trace[..n])[user].start;
    BudgetHolds(trace, user, start, start + WINDOW - 1);
    if n < |trace| {
      var front := trace[..|trace| - 1];
      assert front[..n] == trace[..n];
      AtMostLimitPerWindow(front, user, n);
    } else {
      assert trace[..n] == trace;
    }
  }

  /**
    A request is limited exactly when the service is not busy and the user has had 60 requests accepted in the
    last 60 s, in a window that is still open.
   */
  lemma LimitedExactlyWhen(trace: seq<Request>)
    requires trace != [] && Monotone(trace)
    ensures var r, front := trace[|trace| - 1], trace[..|trace| - 1];
            VerdictOf(trace).Limited? <==>
              && VerdictOf(trace) != Busy
              && r.user in MetersAfter(front) && r.now < MetersAfter(front)[r.user].start + 60_000
              && AcceptedIn(front, r.user, MetersAfter(front)[r.user].start, r.now) == 60
  {
    var r, front := trace[|trace| - 1], trace[..|trace| - 1];
    LimiterRefinesReference(trace);
    if r.user in MetersAfter(front) {
      BudgetHolds(front, r.user, MetersAfter(front)[r.user].start, r.now);
    }
  }

  // ----- Retry-After -----

  lemma MetersStarted(trace: seq<Request>, user: string)
    requires Monotone(trace) && user in MetersAfter(trace)
    ensures trace != [] && MetersAfter(trace)[user].start <= trace[|trace| - 1].now
  {
    BudgetHolds(trace, user, 0, 0);
  }

  /** Retry-After is between 1 and 60 seconds. */
  lemma RetryAfterInRange(trace: seq<Request>)
    requires trace != [] && Monotone(trace) && VerdictOf(trace).Limited?
    ensures 1 <= VerdictOf(trace).retryAfter <= 60
  {
    LimiterRefinesReference(trace);
    MetersStarted(trace, trace[|trace| - 1].user);
  }

  /** Retry-After is no longer than it has to be: a second before, the next request is still limited. */
  lemma EarlierIsLimited(trace: seq<Request>, others: seq<Request>, next: Request)
    requires trace != [] && VerdictOf(trace).Limited?
    requires next.user == trace[|trace| - 1].user
    requires forall i :: 0 <= i < |others| ==> others[i].user != next.user
    requires Monotone(trace + others + [next])
    requires next.now <= trace[|trace| - 1].now + 1000 * (VerdictOf(trace).retryAfter - 1)
    ensures var verdict := VerdictOf(trace + others + [next]); verdict.Limited? || verdict == Busy
  {
    var whole := trace + others + [next];
    assert forall i :: 0 <= i < |trace| ==> trace[i] == whole[i];
    assert Monotone(trace);
    LimiterRefinesReference(trace);
    LimiterRefinesReference(whole);
    OthersLeaveMeter(trace, others, next.user);
    assert whole[..|whole| - 1] == trace + others;
  }

  lemma {:induction false} OthersLeaveMeter(trace: seq<Request>, more: seq<Request>, user: string)
    requires forall i :: 0 <= i < |more| ==> more[i].user != user
    requires user in MetersAfter(trace)
    ensures user in MetersAfter(trace + more) && MetersAfter(trace + more)[user] == MetersAfter(trace)[user]
  {
    if more == [] {
      assert trace + more == trace;
    } else {
      var front := more[..|more| - 1];
      OthersLeaveMeter(trace, front, user);
      assert (trace + more)[..|trace + more| - 1] == trace + front;
    }
  }

  /**
    A client that waits as long as Retry-After says is not limited again, whatever the other users do
    in the meantime: its next request is accepted unless the service is busy.
   */
  lemma WaitingIsRewarded(trace: seq<Request>, others: seq<Request>, next: Request)
    requires trace != [] && VerdictOf(trace).Limited?
    requires next.user == trace[|trace| - 1].user
    requires forall i :: 0 <= i < |others| ==> others[i].user != next.user
    requires Monotone(trace + others + [next])
    requires next.now >= trace[|trace| - 1].now + 1000 * VerdictOf(trace).retryAfter
    ensures var verdict := VerdictOf(trace + others + [next]); verdict == Accepted || verdict == Busy
  {
    var whole := trace + others + [next];
    assert forall i :: 0 <= i < |trace| ==> trace[i] == whole[i];
    assert Monotone(trace);
    LimiterRefinesReference(trace);
    LimiterRefinesReference(whole);
    OthersLeaveMeter(trace, others, next.user);
    assert whole[..|whole| - 1] == trace + others;
  }
}
