/**
  The token lifecycle as functions of what is in memory and on disk: reading the stored credential,
  refreshing, accepting a token response, and signing out. Times are 100 ns ticks.
 */
module TokenLifecycle {
  import opened Options
  import opened Texts
  import opened Sessions
  import opened Preferences
  import opened Disks
  import opened RuntimeModes
  import opened ProtectedStore
  import opened Grants

  const SECOND := 10000000
  const MARGIN := 60 * SECOND

  datatype TokenResponse = TokenResponse(accessToken: Text, refreshToken: Option<Text>, expiresIn: int, bearer: bool)

  /** Unreachable stands for every outcome that throws: no connection, another status code, an unreadable body. */
  datatype TokenReply = Unreachable | Denied | Replied(response: TokenResponse)

  datatype ApiReply = Unavailable | Forbidden | Served

  /** Everything the outside decides during one call. */
  datatype Circumstances = Circumstances(now: int, metadataFound: bool, postedAt: int, reply: TokenReply, api: ApiReply, stampedAt: int)

  datatype Memory = Memory(accessToken: Option<Text>, expiresAt: int)

  const NOTHING := Memory(None, 0)

  datatype Answer = Threw | NoSession | Token(token: Text)

  datatype Process = Process(memory: Memory, snapshot: Snapshot)

  function Cached(m: Memory, now: int): bool {
    m.accessToken.Some? && m.expiresAt > now + MARGIN
  }

  predicate Acceptable(r: TokenResponse, previous: Option<Session>) {
    && !IsBlank(r.accessToken) && r.bearer && 1 <= r.expiresIn <= 86400
    && !IsBlank(NextToken(r, previous))
  }

  /** The response's refresh token, or the previous one when it is omitted. */
  function NextToken(r: TokenResponse, previous: Option<Session>): Text {
    if r.refreshToken.Some? then r.refreshToken.value
    else if previous.Some? then previous.value.refreshToken else EMPTY
  }

  /** `ClearSession`. */
  function Cleared(p: Process, portable: bool): Process {
    Process(NOTHING, p.snapshot.(files := LoggedOut(p.snapshot.files, ConfiguredMode(p.snapshot.files, portable))))
  }

  /** `AcceptTokensAsync`: the rotated token is stored before the API has its say. */
  function Accept(p: Process, r: TokenResponse, previous: Option<Session>, newId: Text, c: Circumstances,
                  d: Deployment, portable: bool): (Process, Answer) {
    if !Acceptable(r, previous) then (p, Threw)
    else
      Validate(Rotated(p, Accepted(d, previous, newId, NextToken(r, previous)), portable), r, c, portable)
  }

  /** With this credential stored in place of the old one. */
  function Rotated(p: Process, session: Session, portable: bool): Process {
    p.(snapshot := PutSession(p.snapshot, ConfiguredMode(p.snapshot.files, portable), Print(session)))
  }

  /** What the API check makes of a token that has been stored. */
  function Validate(stored: Process, r: TokenResponse, c: Circumstances, portable: bool): (Process, Answer) {
    match c.api
    case Forbidden => (Cleared(stored, portable), Threw)
    case Unavailable => (stored, Threw)
    case Served => (stored.(memory := Memory(Some(r.accessToken), c.stampedAt + r.expiresIn * SECOND)), Token(r.accessToken))
  }

  function Stored(p: Process, portable: bool): Option<Text> {
    SessionIn(p.snapshot, ConfiguredMode(p.snapshot.files, portable))
  }

  /** `ReadSession` fails on an unreadable file and discards text that is not a session record. */
  predicate Corrupt(t: Text) {
    !IsBlank(t) && Parse(t).Malformed?
  }

  /** `GetAccessTokenAsync`. */
  function GetToken(p: Process, c: Circumstances, d: Deployment, portable: bool): (Process, Answer) {
    if Cached(p.memory, c.now) then (p, Token(p.memory.accessToken.value))
    else
      var stored := Stored(p, portable);
      if stored.None? then (p, Threw)
      else if Corrupt(stored.value) then (Cleared(p, portable), NoSession)
      else
        var saved := Usable(stored.value, d);
        if saved.None? then (p, NoSession)
        else if !c.metadataFound then (p, Threw)
        else match c.reply
          case Unreachable => (p, Threw)
          case Denied => (Cleared(p, portable), NoSession)
          case Replied(r) => Accept(p, r, saved, EMPTY, c, d, portable)
  }

  /** Whether the call sends a refresh request. */
  predicate Posts(p: Process, c: Circumstances, d: Deployment, portable: bool) {
    && !Cached(p.memory, c.now)
    && Stored(p, portable).Some? && !Corrupt(Stored(p, portable).value) && Usable(Stored(p, portable).value, d).Some?
    && c.metadataFound
  }

  lemma ModeIsKept(s: Snapshot, mode: StorageMode, session: Text, portable: bool)
    ensures ConfiguredMode(PutSession(s, mode, session).files, portable) == ConfiguredMode(s.files, portable)
  {
  }

  /**
    Rotation is never lost: once a refresh has received an acceptable response, the stored credential is
    the response's token (the old one when omitted) of the same grant, whatever the API check does,
    except that 401 or 403 leaves neither store nor memory with anything of that grant.
   */
  lemma RotationIsNeverLost(p: Process, c: Circumstances, d: Deployment, portable: bool)
    requires Configured(d) && Posts(p, c, d, portable) && c.reply.Replied?
    requires Acceptable(c.reply.response, Usable(Stored(p, portable).value, d))
    ensures var saved := Usable(Stored(p, portable).value, d).value;
            var (after, answer) := GetToken(p, c, d, portable);
            && Identity(Stored(p, portable)).Some? && saved.Family() == Identity(Stored(p, portable)).value.Family()
            && (c.api != Forbidden ==>
                  && Identity(Stored(after, portable)).Some?
                  && Identity(Stored(after, portable)).value.Family() == saved.Family()
                  && Usable(Stored(after, portable).value, d) ==
                     Some(saved.(refreshToken := if c.reply.response.refreshToken.Some? then c.reply.response.refreshToken.value
                                                 else saved.refreshToken)))
            && (c.api == Forbidden ==>
                  && Stored(after, portable) == Some(EMPTY) && after.memory == NOTHING
                  && forall path :: path in after.snapshot.files && IsSessionOrRecovery(path) ==>
                       !SameFamily(SessionEntry(path, after.snapshot.files[path]), Some(saved)))
            && (c.api == Served <==> answer == Token(c.reply.response.accessToken)
                                       && after.memory.accessToken == Some(c.reply.response.accessToken)
                                       && after.memory.expiresAt == c.stampedAt + c.reply.response.expiresIn * 10_000_000)
            && (c.api == Unavailable ==> answer == Threw && after.memory == p.memory)
  {
    var stored := Stored(p, portable).value;
    var saved := Usable(stored, d);
    var next := NextToken(c.reply.response, saved);
    var mode := ConfiguredMode(p.snapshot.files, portable);
    RefreshKeepsFamily(d, stored, next);
    var session := Accepted(d, saved, EMPTY, next);
    ParsePrint(session);
    ModeIsKept(p.snapshot, mode, Print(session), portable);
    if c.api == Forbidden {
      var stored' := p.(snapshot := PutSession(p.snapshot, mode, Print(session)));
      ClearedIsSignedOut(stored', portable);
      ClearedForgets(stored', session, portable);
    }
  }

  /** Logout leaves the bootstrap files alone, and the active session is gone. */
  lemma ClearedIsSignedOut(p: Process, portable: bool)
    ensures ConfiguredMode(Cleared(p, portable).snapshot.files, portable) == ConfiguredMode(p.snapshot.files, portable)
    ensures Stored(Cleared(p, portable), portable) == Some(EMPTY)
  {
    var mode := ConfiguredMode(p.snapshot.files, portable);
    LogoutFrame(p.snapshot.files, mode, BootstrapPath(portable));
    LogoutFrame(p.snapshot.files, mode, Backup(BootstrapPath(portable)));
    LogoutFrame(p.snapshot.files, mode, Main(BootstrapJson));
  }

  lemma ClearedForgets(p: Process, session: Session, portable: bool)
    requires Owner(p.snapshot.files, ConfiguredMode(p.snapshot.files, portable)) == Some(session)
    ensures var after := Cleared(p, portable).snapshot.files;
            forall path :: path in after && IsSessionOrRecovery(path) ==> !SameFamily(SessionEntry(path, after[path]), Some(session))
  {
    var mode := ConfiguredMode(p.snapshot.files, portable);
    var after := LoggedOut(p.snapshot.files, mode);
    forall path | path in after && IsSessionOrRecovery(path)
      ensures !SameFamily(SessionEntry(path, after[path]), Some(session))
    {
      LogoutErasesFamily(p.snapshot.files, mode, path);
    }
  }

  // ----- every answer, by what is stored and what the others reply -----

  /** A credential that the deployment can refresh. */
  predicate Refreshable(s: Session, d: Deployment) {
    s.issuer == d.issuer && s.clientId == d.clientId && s.apiBaseUrl == d.apiBaseUrl && !IsBlank(s.refreshToken)
  }

  /** What is read of a stored text: the record it holds, of this deployment, with its id made explicit. */
  lemma UsableExactly(t: Text, d: Deployment)
    ensures Usable(t, d) ==
            if RecordIn(Some(t)).Some? && Refreshable(RecordIn(Some(t)).value, d)
            then Some(RecordIn(Some(t)).value.(sessionId := RecordIn(Some(t)).value.Id())) else None
  {
  }

  /** A response that is not accepted: no access token, another kind, a lifetime out of range, or no token to refresh with. */
  predicate Refused(r: TokenResponse, oldToken: Option<Text>) {
    || IsBlank(r.accessToken) || !r.bearer || r.expiresIn < 1 || r.expiresIn > 86_400
    || (r.refreshToken.Some? && IsBlank(r.refreshToken.value))
    || (r.refreshToken.None? && (oldToken.None? || IsBlank(oldToken.value)))
  }

  lemma AcceptableExactly(r: TokenResponse, previous: Option<Session>)
    ensures Acceptable(r, previous) <==> !Refused(r, if previous.Some? then Some(previous.value.refreshToken) else None)
  {
  }

  /** Memory and store after the session has been cleared. */
  predicate SignedOut(before: Process, after: Process, portable: bool) {
    && after.memory == Memory(None, 0) && after.snapshot.credential == before.snapshot.credential
    && after.snapshot.files == LoggedOut(before.snapshot.files, ConfiguredMode(before.snapshot.files, portable))
  }

  /**
    What a token request answers, and what it changes, before a response has been accepted. A cached token with
    more than 60 s left is returned. A store that cannot be read is an error; a text that is neither blank, null
    nor a record is cleared away; any other text that is no credential of this deployment is left alone.
   */
  lemma AnswersExactly(p: Process, c: Circumstances, d: Deployment, portable: bool)
    ensures var m, (after, answer) := p.memory, GetToken(p, c, d, portable);
            var stored := SessionIn(p.snapshot, ConfiguredMode(p.snapshot.files, portable));
            if m.accessToken.Some? && m.expiresAt - c.now > 600_000_000 then after == p && answer == Token(m.accessToken.value)
            else if stored.None? then after == p && answer == Threw
            else if RecordIn(stored).None? then
              answer == NoSession &&
              (if IsBlank(stored.value) || stored.value == Json(Null) then after == p else SignedOut(p, after, portable))
            else if !Refreshable(RecordIn(stored).value, d) then after == p && answer == NoSession
            else if !c.metadataFound || c.reply.Unreachable? then after == p && answer == Threw
            else if c.reply.Denied? then SignedOut(p, after, portable) && answer == NoSession
            else if Refused(c.reply.response, Some(RecordIn(stored).value.refreshToken)) then after == p && answer == Threw
            else answer == if c.api == Served then Token(c.reply.response.accessToken) else Threw
  {
    var stored := SessionIn(p.snapshot, ConfiguredMode(p.snapshot.files, portable));
    if stored.Some? {
      UsableExactly(stored.value, d);
      if c.reply.Replied? {
        AcceptableExactly(c.reply.response, Usable(stored.value, d));
      }
    }
  }

  /**
    Signing in stores a credential of the deployment under the new id, with the refresh token of the response,
    unless the response is refused; then nothing changes. The API check does to it what it does after a refresh.
   */
  lemma SignInStoresTheGrant(p: Process, c: Circumstances, newId: Text, d: Deployment, portable: bool)
    ensures var (after, answer) := Perform(p, SignInCall(c, newId), d, portable);
            if !c.metadataFound || !c.reply.Replied? || Refused(c.reply.response, None) then after == p && answer == Threw
            else
              var r := c.reply.response;
              && (c.api != Forbidden ==>
                    RecordIn(SessionIn(after.snapshot, ConfiguredMode(after.snapshot.files, portable))) ==
                    Some(Session(newId, d.issuer, d.clientId, d.apiBaseUrl, r.refreshToken.value)))
              && (answer == if c.api == Served then Token(r.accessToken) else Threw)
              && after.memory == (match c.api case Served => Memory(Some(r.accessToken), c.stampedAt + r.expiresIn * 10_000_000)
                                  case Forbidden => Memory(None, 0) case Unavailable => p.memory)
  {
    if c.reply.Replied? {
      AcceptableExactly(c.reply.response, None);
    }
    if c.metadataFound && c.reply.Replied? && Acceptable(c.reply.response, None) {
      var r := c.reply.response;
      var session := Accepted(d, None, newId, NextToken(r, None));
      ParsePrint(session);
      ModeIsKept(p.snapshot, ConfiguredMode(p.snapshot.files, portable), Print(session), portable);
    }
  }

  // ----- runs -----

  datatype Call =
    | TokenCall(circumstances: Circumstances)
    | SignInCall(circumstances: Circumstances, newId: Text)
    | SignOutCall

  function Perform(p: Process, call: Call, d: Deployment, portable: bool): (Process, Answer) {
    match call
    case TokenCall(c) => GetToken(p, c, d, portable)
    case SignInCall(c, newId) =>
      if c.metadataFound && c.reply.Replied? then Accept(p, c.reply.response, None, newId, c, d, portable) else (p, Threw)
    case SignOutCall => (Cleared(p, portable), NoSession)
  }

  function After(p: Process, calls: seq<Call>, d: Deployment, portable: bool): Process {
    if calls == [] then p else Perform(After(p, calls[..|calls| - 1], d, portable), calls[|calls| - 1], d, portable).0
  }

  /** The call sends a token request: a refresh, or the code exchange of a sign-in. */
  predicate Asks(p: Process, call: Call, d: Deployment, portable: bool) {
    match call
    case TokenCall(c) => Posts(p, c, d, portable)
    case SignInCall(c, _) => c.metadataFound
    case SignOutCall => false
  }

  /**
    Call k asked for the token in memory `m`, got it, and returned it after the API had served it; nothing has
    replaced or cleared it since.
   */
  ghost predicate Vouches(start: Process, calls: seq<Call>, k: nat, m: Memory, d: Deployment, portable: bool)
    requires k < |calls|
  {
    var before := After(start, calls[..k], d, portable);
    && Asks(before, calls[k], d, portable)
    && calls[k].circumstances.reply.Replied? && calls[k].circumstances.api == Served
    && m == Memory(Some(calls[k].circumstances.reply.response.accessToken),
                   calls[k].circumstances.stampedAt + calls[k].circumstances.reply.response.expiresIn * 10_000_000)
    && Perform(before, calls[k], d, portable).1 == Token(calls[k].circumstances.reply.response.accessToken)
    && (forall j :: k < j <= |calls| ==> After(start, calls[..j], d, portable).memory == m)
  }

  lemma LastVouches(start: Process, calls: seq<Call>, d: Deployment, portable: bool)
    requires calls != []
    requires var before := After(start, calls[..|calls| - 1], d, portable);
             var m := After(start, calls, d, portable).memory;
             m.accessToken.Some? && m != before.memory
    ensures Vouches(start, calls, |calls| - 1, After(start, calls, d, portable).memory, d, portable)
  {
    assert calls[..|calls|] == calls;
  }

  lemma StillVouches(start: Process, calls: seq<Call>, k: nat, m: Memory, d: Deployment, portable: bool)
    requires k < |calls| - 1 && Vouches(start, calls[..|calls| - 1], k, m, d, portable)
    requires After(start, calls, d, portable).memory == m
    ensures Vouches(start, calls, k, m, d, portable)
  {
    var front := calls[..|calls| - 1];
    assert front[..k] == calls[..k];
    forall j | k < j <= |calls| ensures After(start, calls[..j], d, portable).memory == m {
      if j < |calls| {
        assert calls[..j] == front[..j];
      } else {
        assert calls[..j] == calls;
      }
    }
  }

  /**
    In every run of token requests, sign-ins and sign-outs, a cached access token is the one that some call
    asked for and that then passed its API check, and no sign-out, refusal or later token came after it.
   */
  lemma {:induction false} CachedTokenWasServed(start: Process, calls: seq<Call>, d: Deployment, portable: bool) returns (k: nat)
    requires start.memory == NOTHING && After(start, calls, d, portable).memory.accessToken.Some?
    ensures k < |calls| && Vouches(start, calls, k, After(start, calls, d, portable).memory, d, portable)
  {
    var front, m := calls[..|calls| - 1], After(start, calls, d, portable).memory;
    k := |calls| - 1;
    if m == After(start, front, d, portable).memory {
      k := CachedTokenWasServed(start, front, d, portable);
      StillVouches(start, calls, k, m, d, portable);
    } else {
      LastVouches(start, calls, d, portable);
    }
  }

  /** What is returned without asking the server was served to an earlier call and has more than 60 s left. */
  lemma CachedTokenHasTimeLeft(start: Process, calls: seq<Call>, c: Circumstances, d: Deployment, portable: bool) returns (k: nat)
    requires start.memory == NOTHING
    requires var p := After(start, calls, d, portable); !Posts(p, c, d, portable) && GetToken(p, c, d, portable).1.Token?
    ensures k < |calls|
    ensures var p := After(start, calls, d, portable);
            && Vouches(start, calls, k, p.memory, d, portable)
            && GetToken(p, c, d, portable) == (p, Token(calls[k].circumstances.reply.response.accessToken))
            && calls[k].circumstances.stampedAt + calls[k].circumstances.reply.response.expiresIn * 10_000_000 - c.now > 600_000_000
  {
    k := CachedTokenWasServed(start, calls, d, portable);
  }

  // ----- how often the server is asked -----

  /** Clock readings in order, and every refresh that is sent succeeds with a lifetime of at least `lifetime`. */
  ghost predicate EveryRefreshSucceeds(p: Process, cs: seq<Circumstances>, since: int, lifetime: int, d: Deployment, portable: bool)
    decreases |cs|
  {
    cs == [] || (
      var c := cs[0];
      && since <= c.now <= c.postedAt <= c.stampedAt
      && (Posts(p, c, d, portable) ==>
            && c.reply.Replied? && Acceptable(c.reply.response, Usable(Stored(p, portable).value, d))
            && c.api == Served && c.reply.response.expiresIn * SECOND >= lifetime)
      && EveryRefreshSucceeds(GetToken(p, c, d, portable).0, cs[1..],
                              if Posts(p, c, d, portable) then c.stampedAt else c.now, lifetime, d, portable))
  }

  /** The times of the refresh requests of a run of token requests, in order. */
  function PostTimes(p: Process, cs: seq<Circumstances>, d: Deployment, portable: bool): seq<int>
    decreases |cs|
  {
    if cs == [] then []
    else (if Posts(p, cs[0], d, portable) then [cs[0].postedAt] else [])
         + PostTimes(GetToken(p, cs[0], d, portable).0, cs[1..], d, portable)
  }

  predicate Spaced(times: seq<int>, gap: int) {
    forall i :: 0 <= i < |times| - 1 ==> times[i] + gap <= times[i + 1]
  }

  /** How one token request moves the cached expiry. */
  lemma CacheStep(p: Process, c: Circumstances, lifetime: int, d: Deployment, portable: bool)
    requires Posts(p, c, d, portable) ==>
               && c.reply.Replied? && Acceptable(c.reply.response, Usable(Stored(p, portable).value, d))
               && c.api == Served && c.reply.response.expiresIn * SECOND >= lifetime
    ensures var m, next := p.memory, GetToken(p, c, d, portable).0.memory;
            && (Posts(p, c, d, portable) || next == NOTHING ==> m.accessToken.Some? ==> m.expiresAt - MARGIN <= c.now)
            && (Posts(p, c, d, portable) ==> next.accessToken.Some? && next.expiresAt >= c.stampedAt + lifetime)
            && (!Posts(p, c, d, portable) ==> next == m || next == NOTHING)
  {
  }

  lemma {:induction false} PostsAreSpaced(p: Process, cs: seq<Circumstances>, since: int, lifetime: int, d: Deployment, portable: bool)
    requires lifetime > 600_000_000 && EveryRefreshSucceeds(p, cs, since, lifetime, d, portable)
    ensures var times := PostTimes(p, cs, d, portable);
            && Spaced(times, lifetime - 600_000_000)
            && (times != [] ==> since <= times[0])
            && (times != [] && p.memory.accessToken.Some? ==> p.memory.expiresAt - MARGIN <= times[0])
    decreases |cs|
  {
    if cs != [] {
      var c := cs[0];
      var next, posted := GetToken(p, c, d, portable).0, Posts(p, c, d, portable);
      CacheStep(p, c, lifetime, d, portable);
      PostsAreSpaced(next, cs[1..], if posted then c.stampedAt else c.now, lifetime, d, portable);
      var rest := PostTimes(next, cs[1..], d, portable);
      assert PostTimes(p, cs, d, portable) == if posted then [c.postedAt] + rest else rest;
      if posted {
        SpacedCons(c.postedAt, rest, lifetime - MARGIN);
      }
    }
  }

  lemma SpacedCons(time: int, times: seq<int>, gap: int)
    requires Spaced(times, gap) && (times != [] ==> time + gap <= times[0])
    ensures Spaced([time] + times, gap)
  {
    var all := [time] + times;
    forall i | 0 <= i < |all| - 1 ensures all[i] + gap <= all[i + 1] {
      if i > 0 {
        assert times[i - 1] + gap <= times[i - 1 + 1];
      }
    }
  }

  function CountIn(times: seq<int>, from: int, to: int): nat {
    if times == [] then 0
    else CountIn(times[1..], from, to) + if from <= times[0] <= to then 1 else 0
  }

  lemma {:induction false} SpacedCount(times: seq<int>, gap: int, from: int, to: int)
    requires gap > 0 && Spaced(times, gap)
    ensures CountIn(times, from, to) > 0 ==>
              times != [] && times[0] <= to
              && gap * (CountIn(times, from, to) - 1) <= to - (if times[0] < from then from else times[0])
  {
    if times != [] {
      forall i | 0 <= i < |times[1..]| - 1 ensures times[1..][i] + gap <= times[1..][i + 1] {
        assert times[i + 1] + gap <= times[i + 1 + 1];
      }
      SpacedCount(times[1..], gap, from, to);
      if CountIn(times[1..], from, to) > 0 {
        assert times[0] + gap <= times[1];
        var rest := CountIn(times[1..], from, to);
        assert gap * rest == gap * (rest - 1) + gap;
      }
    }
  }

  lemma SpacedBound(times: seq<int>, gap: int, from: int, span: nat)
    requires gap > 0 && Spaced(times, gap)
    ensures CountIn(times, from, from + span) <= 1 + span / gap
  {
    SpacedCount(times, gap, from, from + span);
    var count := CountIn(times, from, from + span);
    if count > 0 {
      QuotientBound(count - 1, gap, span);
    }
  }

  lemma QuotientBound(k: nat, gap: int, span: int)
    requires gap > 0 && gap * k <= span
    ensures k <= span / gap
  {
    assert span < gap * (span / gap + 1);
  }

  /** In a span of `span` ticks at most 1 + floor(span / (lifetime - 60 s)) refresh requests are sent. */
  lemma FewRefreshes(p: Process, cs: seq<Circumstances>, since: int, lifetime: int, d: Deployment, portable: bool, from: int, span: nat)
    requires lifetime > 600_000_000 && EveryRefreshSucceeds(p, cs, since, lifetime, d, portable)
    ensures CountIn(PostTimes(p, cs, d, portable), from, from + span) <= 1 + span / (lifetime - 600_000_000)
  {
    PostsAreSpaced(p, cs, since, lifetime, d, portable);
    SpacedBound(PostTimes(p, cs, d, portable), lifetime - MARGIN, from, span);
  }
}

/** The critical sections of the sign-in service, with the stages they leave on disk (AuthenticationService.cs). */
module Authentication {
  import opened Options
  import opened Texts
  import opened Sessions
  import opened Preferences
  import opened Disks
  import opened RuntimeModes
  import opened ProtectedStore
  import opened SecretStores
  import opened Grants
  import opened TokenLifecycle

  /**
    A stage of accepting a token: nothing stored yet, the rotated credential stored, or a stage of the logout
    that follows a refused API check.
   */
  ghost predicate TokenStage(before: Snapshot, mode: StorageMode, session: Text, s: Snapshot) {
    s == before || s == PutSession(before, mode, session) || Leaving(PutSession(before, mode, session), mode, s)
  }

  ghost predicate TokenTrace(before: Snapshot, mode: StorageMode, session: Text, earlier: seq<Snapshot>, trace: seq<Snapshot>) {
    earlier <= trace && forall i :: |earlier| <= i < |trace| ==> TokenStage(before, mode, session, trace[i])
  }

  /** So the active credential is the old one, the rotated one, or gone. */
  lemma StageCredential(before: Snapshot, mode: StorageMode, session: Text, s: Snapshot)
    requires TokenStage(before, mode, session, s) && session != EMPTY
    ensures SessionIn(s, mode) in {SessionIn(before, mode), Some(session), Some(EMPTY)}
  {
    if Leaving(PutSession(before, mode, session), mode, s) {
      LeavingCredential(PutSession(before, mode, session), mode, s);
    }
  }

  lemma LeavingCredential(before: Snapshot, mode: StorageMode, s: Snapshot)
    requires Leaving(before, mode, s)
    ensures SessionIn(s, mode) in {SessionIn(before, mode), Some(EMPTY)}
  {
    assert At(s.files, SessionPath(mode)) == At(before.files, SessionPath(mode)) || At(s.files, SessionPath(mode)) == None;
  }

  lemma NotLeavingYet(s: Snapshot, mode: StorageMode)
    ensures Leaving(s, mode, s)
  {
  }

  /** A second logout changes nothing, so its stages are the end of the first. */
  lemma LeavingAgain(before: Snapshot, mode: StorageMode, s: Snapshot)
    requires Leaving(before.(files := LoggedOut(before.files, mode)), mode, s)
    ensures Leaving(before, mode, s)
  {
    LogoutTwiceIsOnce(before.files, mode);
    var after := LoggedOut(before.files, mode);
    assert At(s.files, SessionPath(mode)) == At(after, SessionPath(mode)) == None;
    assert At(s.files, Backup(SessionPath(mode))) == At(after, Backup(SessionPath(mode))) == None;
  }

  /** What a token request can have stored: nothing new, the rotated credential, or a stage of a logout. */
  ghost predicate CallStage(p: Process, c: Circumstances, d: Deployment, portable: bool, s: Snapshot) {
    var mode := ConfiguredMode(p.snapshot.files, portable);
    Leaving(p.snapshot, mode, s)
    || (Posts(p, c, d, portable) && c.reply.Replied?
        && TokenStage(p.snapshot, mode, RotatedText(d, Usable(Stored(p, portable).value, d), EMPTY, c.reply.response), s))
  }

  ghost predicate CallTrace(p: Process, c: Circumstances, d: Deployment, portable: bool, earlier: seq<Snapshot>, trace: seq<Snapshot>) {
    earlier <= trace && forall i :: |earlier| <= i < |trace| ==> CallStage(p, c, d, portable, trace[i])
  }

  /** Wherever a token request is stopped, the active credential is the old one, the rotated one, or gone. */
  lemma CallCredential(p: Process, c: Circumstances, d: Deployment, portable: bool, s: Snapshot)
    requires CallStage(p, c, d, portable, s)
    ensures var mode := ConfiguredMode(p.snapshot.files, portable);
            SessionIn(s, mode) in {Stored(p, portable), Some(EMPTY)}
            || (Posts(p, c, d, portable) && c.reply.Replied?
                && SessionIn(s, mode) == Some(RotatedText(d, Usable(Stored(p, portable).value, d), EMPTY, c.reply.response)))
  {
    var mode := ConfiguredMode(p.snapshot.files, portable);
    if Leaving(p.snapshot, mode, s) {
      LeavingCredential(p.snapshot, mode, s);
    } else {
      StageCredential(p.snapshot, mode, RotatedText(d, Usable(Stored(p, portable).value, d), EMPTY, c.reply.response), s);
    }
  }

  /** What `ReadSession` finds; NotCleared: the record was corrupt and could not be cleared away. */
  datatype Reading = Unreadable | NotCleared | NoRecord | Saved(session: Session)

  /** What is stored for a token response. */
  function RotatedText(d: Deployment, previous: Option<Session>, newId: Text, r: TokenResponse): Text {
    Print(Accepted(d, previous, newId, NextToken(r, previous)))
  }

  class AuthenticationService {
    const deployment: Deployment
    const secrets: SecretStore
    var accessToken: Option<Text>
    var expiresAt: int

    constructor (deployment: Deployment, secrets: SecretStore)
      ensures this.deployment == deployment && this.secrets == secrets
      ensures accessToken.None? && expiresAt == 0
    {
      this.deployment := deployment;
      this.secrets := secrets;
      accessToken := None;
      expiresAt := 0;
    }

    ghost function State(): Process
      reads this, secrets.disk
    {
      Process(Memory(accessToken, expiresAt), secrets.disk.Now())
    }

    /** `ClearSession`: memory first, then the store. */
    method ClearSession() returns (ok: bool)
      modifies this, secrets.disk
      ensures accessToken.None? && expiresAt == 0
      ensures ok ==> State() == Cleared(old(State()), secrets.portable)
      ensures Leaving(old(secrets.disk.Now()), old(secrets.Mode()), secrets.disk.Now())
      ensures LeavingTrace(old(secrets.disk.trace), secrets.disk.trace, old(secrets.disk.Now()), old(secrets.Mode()))
      ensures secrets.disk.faults >= old(secrets.disk.faults) && (secrets.disk.faults == old(secrets.disk.faults) <==> ok)
    {
      accessToken := None;
      expiresAt := 0;
      ok := secrets.DeleteSession();
    }

    /** `AcceptTokensAsync`. */
    method AcceptTokens(response: TokenResponse, previous: Option<Session>, newId: Text, c: Circumstances) returns (answer: Answer)
      modifies this, secrets.disk
      ensures secrets.disk.faults >= old(secrets.disk.faults)
      ensures secrets.disk.faults == old(secrets.disk.faults) ==>
                (State(), answer) == Accept(old(State()), response, previous, newId, c, deployment, secrets.portable)
      ensures secrets.disk.faults > old(secrets.disk.faults) ==>
                answer == Threw && (State().memory == old(State().memory) || State().memory == NOTHING)
      ensures TokenStage(old(secrets.disk.Now()), old(secrets.Mode()), RotatedText(deployment, previous, newId, response), secrets.disk.Now())
      ensures TokenTrace(old(secrets.disk.Now()), old(secrets.Mode()), RotatedText(deployment, previous, newId, response),
                         old(secrets.disk.trace), secrets.disk.trace)
    {
      if IsBlank(response.accessToken) || !response.bearer || !(1 <= response.expiresIn <= 86400) { return Threw; }
      var refreshToken := NextToken(response, previous);
      if IsBlank(refreshToken) { return Threw; }
      answer := StoreTokens(Accepted(deployment, previous, newId, refreshToken), response, c);
    }

    /** The same once the response has been accepted: store the rotated credential, then ask the API. */
    method StoreTokens(session: Session, response: TokenResponse, c: Circumstances) returns (answer: Answer)
      modifies this, secrets.disk
      ensures secrets.disk.faults >= old(secrets.disk.faults)
      ensures secrets.disk.faults == old(secrets.disk.faults) ==>
                (State(), answer) == Validate(Rotated(old(State()), session, secrets.portable), response, c, secrets.portable)
      ensures secrets.disk.faults > old(secrets.disk.faults) ==>
                answer == Threw && (State().memory == old(State().memory) || State().memory == NOTHING)
      ensures TokenStage(old(secrets.disk.Now()), old(secrets.Mode()), Print(session), secrets.disk.Now())
      ensures TokenTrace(old(secrets.disk.Now()), old(secrets.Mode()), Print(session), old(secrets.disk.trace), secrets.disk.trace)
    {
      ParsePrint(session);
      ModeIsKept(secrets.disk.Now(), secrets.Mode(), Print(session), secrets.portable);
      var saved := secrets.SaveSession(Print(session));
      if !saved { return Threw; }
      answer := ValidateToken(response, c);
    }

    /** The API check, and the access token in memory after it passed. */
    method ValidateToken(response: TokenResponse, c: Circumstances) returns (answer: Answer)
      modifies this, secrets.disk
      ensures secrets.disk.faults >= old(secrets.disk.faults)
      ensures secrets.disk.faults == old(secrets.disk.faults) ==> (State(), answer) == Validate(old(State()), response, c, secrets.portable)
      ensures secrets.disk.faults > old(secrets.disk.faults) ==> answer == Threw && State().memory == NOTHING
      ensures Leaving(old(secrets.disk.Now()), old(secrets.Mode()), secrets.disk.Now())
      ensures LeavingTrace(old(secrets.disk.trace), secrets.disk.trace, old(secrets.disk.Now()), old(secrets.Mode()))
    {
      NotLeavingYet(secrets.disk.Now(), secrets.Mode());
      if c.api == Forbidden {
        var cleared := ClearSession();
        return Threw;
      }
      if c.api == Unavailable { return Threw; }
      accessToken := Some(response.accessToken);
      expiresAt := c.stampedAt + response.expiresIn * SECOND;
      return Token(response.accessToken);
    }

    /** `ReadSession`: text that is not a session record is cleared away. */
    method ReadSession() returns (reading: Reading)
      modifies this, secrets.disk
      ensures secrets.disk.faults >= old(secrets.disk.faults) && (secrets.disk.faults == old(secrets.disk.faults) <==> reading != NotCleared)
      ensures var stored := old(Stored(State(), secrets.portable));
              if stored.None? then reading == Unreadable && State() == old(State())
              else if Corrupt(stored.value) then
                (reading == NoRecord && State() == Cleared(old(State()), secrets.portable))
                || (reading == NotCleared && State().memory == NOTHING)
              else
                reading == (if Usable(stored.value, deployment).None? then NoRecord else Saved(Usable(stored.value, deployment).value))
                && State() == old(State())
      ensures Leaving(old(secrets.disk.Now()), old(secrets.Mode()), secrets.disk.Now())
      ensures LeavingTrace(old(secrets.disk.trace), secrets.disk.trace, old(secrets.disk.Now()), old(secrets.Mode()))
    {
      NotLeavingYet(secrets.disk.Now(), secrets.Mode());
      var stored := secrets.GetSession();
      if stored.None? { return Unreadable; }
      if !IsBlank(stored.value) && Parse(stored.value).Malformed? {
        var cleared := ClearSession();
        return if cleared then NoRecord else NotCleared;
      }
      var usable := Usable(stored.value, deployment);
      return if usable.Some? then Saved(usable.value) else NoRecord;
    }

    /** `GetAccessTokenAsync`, one critical section of the gate. */
    method GetAccessToken(c: Circumstances) returns (answer: Answer)
      modifies this, secrets.disk
      ensures secrets.disk.faults >= old(secrets.disk.faults)
      ensures !Configured(deployment) ==> answer == NoSession && State() == old(State())
      ensures Configured(deployment) && secrets.disk.faults == old(secrets.disk.faults) ==>
                (State(), answer) == GetToken(old(State()), c, deployment, secrets.portable)
      ensures secrets.disk.faults > old(secrets.disk.faults) ==>
                answer == Threw && (State().memory == old(State().memory) || State().memory == NOTHING)
      ensures CallStage(old(State()), c, deployment, secrets.portable, secrets.disk.Now())
      ensures CallTrace(old(State()), c, deployment, secrets.portable, old(secrets.disk.trace), secrets.disk.trace)
    {
      NotLeavingYet(secrets.disk.Now(), secrets.Mode());
      if !Configured(deployment) { return NoSession; }
      if accessToken.Some? && expiresAt > c.now + MARGIN { return Token(accessToken.value); }
      var reading := ReadSession();
      match reading {
        case Saved(session) => answer := RefreshToken(session, c);
        case NoRecord => return NoSession;
        case _ => return Threw;
      }
    }

    /** The same once a usable session has been read: refresh it. */
    method RefreshToken(saved: Session, c: Circumstances) returns (answer: Answer)
      requires !Cached(State().memory, c.now)
      requires Stored(State(), secrets.portable).Some? && !Corrupt(Stored(State(), secrets.portable).value)
      requires Usable(Stored(State(), secrets.portable).value, deployment) == Some(saved)
      modifies this, secrets.disk
      ensures secrets.disk.faults >= old(secrets.disk.faults)
      ensures secrets.disk.faults == old(secrets.disk.faults) ==>
                (State(), answer) == GetToken(old(State()), c, deployment, secrets.portable)
      ensures secrets.disk.faults > old(secrets.disk.faults) ==>
                answer == Threw && (State().memory == old(State().memory) || State().memory == NOTHING)
      ensures CallStage(old(State()), c, deployment, secrets.portable, secrets.disk.Now())
      ensures CallTrace(old(State()), c, deployment, secrets.portable, old(secrets.disk.trace), secrets.disk.trace)
    {
      NotLeavingYet(secrets.disk.Now(), secrets.Mode());
      if !c.metadataFound { return Threw; }
      match c.reply {
        case Unreachable => return Threw;
        case Denied =>
          var cleared := ClearSession();
          return if cleared then NoSession else Threw;
        case Replied(response) =>
          answer := AcceptTokens(response, Some(saved), EMPTY, c);
      }
    }

    /** The token part of `SignInAsync`: the code exchange has been answered. */
    method CompleteSignIn(c: Circumstances, newId: Text) returns (answer: Answer)
      modifies this, secrets.disk
      ensures secrets.disk.faults >= old(secrets.disk.faults)
      ensures !Configured(deployment) ==> answer == Threw && State() == old(State())
      ensures Configured(deployment) && secrets.disk.faults == old(secrets.disk.faults) ==>
                (State(), answer) == Perform(old(State()), SignInCall(c, newId), deployment, secrets.portable)
      ensures secrets.disk.faults > old(secrets.disk.faults) ==>
                answer == Threw && (State().memory == old(State().memory) || State().memory == NOTHING)
      ensures if c.reply.Replied?
              then TokenStage(old(secrets.disk.Now()), old(secrets.Mode()), RotatedText(deployment, None, newId, c.reply.response),
                              secrets.disk.Now())
                   && TokenTrace(old(secrets.disk.Now()), old(secrets.Mode()), RotatedText(deployment, None, newId, c.reply.response),
                                 old(secrets.disk.trace), secrets.disk.trace)
              else secrets.disk.Now() == old(secrets.disk.Now()) && secrets.disk.trace == old(secrets.disk.trace)
    {
      if !Configured(deployment) || !c.metadataFound { return Threw; }
      match c.reply {
        case Replied(response) => answer := AcceptTokens(response, None, newId, c);
        case _ => return Threw;
      }
    }

    /** The refresh token that signing out revokes: the one of a usable session of a configured deployment. */
    ghost function Revocable(): Option<Text>
      reads this, secrets.disk
    {
      var stored := Stored(State(), secrets.portable);
      if Configured(deployment) && RecordIn(stored).Some? && Refreshable(RecordIn(stored).value, deployment)
      then Some(RecordIn(stored).value.refreshToken) else None
    }

    /** `SignOutAsync`: the local part, and the refresh token whose revocation is then requested. */
    method SignOut() returns (ok: bool, toRevoke: Option<Text>)
      modifies this, secrets.disk
      ensures secrets.disk.faults >= old(secrets.disk.faults) && (secrets.disk.faults == old(secrets.disk.faults) <==> ok)
      ensures State().memory == NOTHING
      ensures ok ==> State() == Cleared(old(State()), secrets.portable) && Stored(State(), secrets.portable) == Some(EMPTY)
      ensures toRevoke == if ok then old(Revocable()) else None
      ensures Leaving(old(secrets.disk.Now()), old(secrets.Mode()), secrets.disk.Now())
      ensures LeavingTrace(old(secrets.disk.trace), secrets.disk.trace, old(secrets.disk.Now()), old(secrets.Mode()))
    {
      if Stored(State(), secrets.portable).Some? {
        UsableExactly(Stored(State(), secrets.portable).value, deployment);
      }
      var reading := ReadSession();
      if reading == NotCleared { return false, None; }
      ok := ClearAgain(old(State()));
      toRevoke := if ok && reading.Saved? && Configured(deployment) then Some(reading.session.refreshToken) else None;
    }

    /** Clearing once more what may have been cleared already. */
    method ClearAgain(ghost p: Process) returns (ok: bool)
      requires State() == p || State() == Cleared(p, secrets.portable)
      modifies this, secrets.disk
      ensures secrets.disk.faults >= old(secrets.disk.faults) && (secrets.disk.faults == old(secrets.disk.faults) <==> ok)
      ensures State().memory == NOTHING
      ensures ok ==> State() == Cleared(p, secrets.portable) && Stored(State(), secrets.portable) == Some(EMPTY)
      ensures var mode := ConfiguredMode(p.snapshot.files, secrets.portable);
              && Leaving(p.snapshot, mode, secrets.disk.Now())
              && LeavingTrace(old(secrets.disk.trace), secrets.disk.trace, p.snapshot, mode)
    {
      ghost var before, mode := secrets.disk.Now(), ConfiguredMode(p.snapshot.files, secrets.portable);
      ClearedIsSignedOut(p, secrets.portable);
      LogoutTwiceIsOnce(p.snapshot.files, mode);
      ok := ClearSession();
      assert Leaving(before, mode, secrets.disk.Now());
      LeavesOnce(p.snapshot, mode, before, secrets.disk.Now());
      forall i | |old(secrets.disk.trace)| <= i < |secrets.disk.trace| ensures Leaving(p.snapshot, mode, secrets.disk.trace[i]) {
        LeavesOnce(p.snapshot, mode, before, secrets.disk.trace[i]);
      }
    }
  }

  lemma LeavesOnce(p: Snapshot, mode: StorageMode, before: Snapshot, s: Snapshot)
    requires before == p || before == p.(files := LoggedOut(p.files, mode))
    requires Leaving(before, mode, s)
    ensures Leaving(p, mode, s)
  {
    if before != p {
      LeavingAgain(p, mode, s);
    }
  }
}
