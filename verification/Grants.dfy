/**
  Whole runs of sign-in, refresh, migration, license changes and logout, on what is on disk: a logout
  leaves no copy of any refresh token its grant ever held. No file operation fails in these runs.
 */
module Grants {
  import opened Options
  import opened Texts
  import opened Sessions
  import opened Preferences
  import opened Disks
  import opened AtomicFile
  import opened RuntimeModes
  import opened ProtectedStore

  /** The deployment this build is configured for. */
  datatype Deployment = Deployment(issuer: Text, clientId: Text, apiBaseUrl: Text)

  predicate Configured(d: Deployment) {
    !IsBlank(d.issuer) && !IsBlank(d.clientId) && !IsBlank(d.apiBaseUrl)
  }

  /** `ReadSession`: the stored credential when it is one of this deployment, with its id made explicit. */
  function Usable(t: Text, d: Deployment): Option<Session> {
    match Parse(t)
    case Read(s) =>
      if s.issuer == d.issuer && s.clientId == d.clientId && s.apiBaseUrl == d.apiBaseUrl && !IsBlank(s.refreshToken)
      then Some(s.(sessionId := s.Id()))
      else None
    case _ => None
  }

  /** What `AcceptTokensAsync` stores: the response's token, or the old one, under the previous or a new id. */
  function Accepted(d: Deployment, previous: Option<Session>, newId: Text, token: Text): Session {
    Session(if previous.Some? then previous.value.Id() else newId, d.issuer, d.clientId, d.apiBaseUrl, token)
  }

  /** The refresh tokens each grant has ever been issued. */
  type Ledger = map<Family, set<Text>>

  datatype State = State(snapshot: Snapshot, ledger: Ledger)

  datatype Step =
    | SignIn(id: Text, token: Text)
    | Refresh(rotated: Option<Text>)   // the response's refresh token; none when the response omits it
    | Migrate(target: StorageMode)
    | SetLicense(mode: StorageMode, license: Text)
    | Logout

  function Record(ledger: Ledger, family: Family, token: Text): Ledger {
    ledger[family := (if family in ledger then ledger[family] else {}) + {token}]
  }

  function Store(s: State, mode: StorageMode, session: Session): State {
    State(PutSession(s.snapshot, mode, Print(session)), Record(s.ledger, session.Family(), session.refreshToken))
  }

  function Active(s: State, d: Deployment, mode: StorageMode): Option<Session> {
    if SessionIn(s.snapshot, mode).Some? then Usable(SessionIn(s.snapshot, mode).value, d) else None
  }

  function Apply(s: State, step: Step, d: Deployment, portable: bool): State {
    var mode := ConfiguredMode(s.snapshot.files, portable);
    match step
    case SignIn(id, token) => Store(s, mode, Accepted(d, None, id, token))
    case Refresh(token) =>
      var saved := Active(s, d, mode);
      if saved.None? then s
      else Store(s, mode, Accepted(d, saved, EMPTY, if token.Some? then token.value else saved.value.refreshToken))
    case Migrate(target) =>
      if target == mode then s
      else
        var (ok, copied) := Copy(s.snapshot, mode, target);
        s.(snapshot := if ok then copied.(files := Written(copied.files, BootstrapPath(portable), BootData(target), true))
                       else copied)
    case SetLicense(m, license) => s.(snapshot := PutLicense(s.snapshot, m, license))
    case Logout => s.(snapshot := s.snapshot.(files := LoggedOut(s.snapshot.files, mode)))
  }

  predicate IssuedElsewhere(ledger: Ledger, family: Option<Family>, token: Text) {
    exists other :: other in ledger && Some(other) != family && token in ledger[other]
  }

  /** Ids of new grants are fresh, tokens are not blank, and no token is issued to two grants. */
  predicate Genuine(s: State, step: Step, d: Deployment, portable: bool) {
    match step
    case SignIn(id, token) =>
      && id.Chars? && !IsBlank(id) && !IsBlank(token)
      && (forall family :: family in s.ledger ==> family.id != id)
      && !IssuedElsewhere(s.ledger, None, token)
    case Refresh(token) =>
      var saved := Active(s, d, ConfiguredMode(s.snapshot.files, portable));
      token.Some? && saved.Some? ==> !IsBlank(token.value) && !IssuedElsewhere(s.ledger, Some(saved.value.Family()), token.value)
    case _ => true
  }

  // ----- the invariant -----

  /** A stored session text is empty, or a credential whose token the ledger lists under its family. */
  predicate Known(t: Text, ledger: Ledger) {
    t == EMPTY || (
      && Identity(Some(t)).Some?
      && Identity(Some(t)).value.Family() in ledger
      && Identity(Some(t)).value.refreshToken in ledger[Identity(Some(t)).value.Family()])
  }

  ghost predicate AllKnown(files: Files, ledger: Ledger) {
    forall path :: path in files && IsSessionOrRecovery(path) && SessionEntry(path, files[path]).Some? ==>
                     Known(SessionEntry(path, files[path]).value, ledger)
  }

  ghost predicate Disjoint(ledger: Ledger) {
    forall a, b :: a in ledger && b in ledger && a != b ==> ledger[a] !! ledger[b]
  }

  ghost predicate Invariant(s: State) {
    AllKnown(s.snapshot.files, s.ledger) && Disjoint(s.ledger)
  }

  lemma PutSessionKeepsKnown(s: Snapshot, mode: StorageMode, session: Text, ledger: Ledger)
    requires AllKnown(s.files, ledger) && Known(session, ledger)
    ensures AllKnown(PutSession(s, mode, session).files, ledger)
  {
    var files := PutSession(s, mode, session).files;
    forall path | path in files && IsSessionOrRecovery(path) && SessionEntry(path, files[path]).Some?
      ensures Known(SessionEntry(path, files[path]).value, ledger)
    {
      if path == Backup(SessionPath(mode)) && SessionPath(mode) in s.files {
        assert SessionEntry(path, files[path]) == SessionEntry(SessionPath(mode), files[path]);
      } else if path != SessionPath(mode) {
        assert path in s.files && files[path] == s.files[path];
      }
    }
  }

  lemma PutLicenseKeepsKnown(s: Snapshot, mode: StorageMode, license: Text, ledger: Ledger)
    requires AllKnown(s.files, ledger)
    ensures AllKnown(PutLicense(s, mode, license).files, ledger)
  {
    var files := PutLicense(s, mode, license).files;
    assert forall path :: path in files && IsSessionOrRecovery(path) ==> path in s.files && files[path] == s.files[path];
  }

  lemma PutRecoveryKeepsKnown(s: Snapshot, mode: StorageMode, license: Text, session: Text, ledger: Ledger)
    requires AllKnown(s.files, ledger) && Known(session, ledger)
    ensures AllKnown(PutRecovery(s, mode, license, session).files, ledger)
  {
    var files := PutRecovery(s, mode, license, session).files;
    forall path | path in files && IsSessionOrRecovery(path) && SessionEntry(path, files[path]).Some?
      ensures Known(SessionEntry(path, files[path]).value, ledger)
    {
      if path == Backup(RecoveryPath(mode)) && files != s.files && RecoveryPath(mode) in s.files {
        assert SessionEntry(path, files[path]) == SessionEntry(RecoveryPath(mode), files[path]);
      } else if path != RecoveryPath(mode) || files == s.files {
        assert path in s.files && files[path] == s.files[path];
      }
    }
  }

  lemma SessionIsKnown(s: Snapshot, mode: StorageMode, ledger: Ledger)
    requires AllKnown(s.files, ledger) && SessionIn(s, mode).Some?
    ensures Known(SessionIn(s, mode).value, ledger)
  {
    if SessionPath(mode) in s.files {
      assert SessionEntry(SessionPath(mode), s.files[SessionPath(mode)]) == SessionIn(s, mode);
    }
  }

  lemma CopyKeepsKnown(s: Snapshot, source: StorageMode, target: StorageMode, ledger: Ledger)
    requires AllKnown(s.files, ledger)
    ensures AllKnown(Copy(s, source, target).1.files, ledger)
  {
    if Readable(s, source) && Readable(s, target) {
      var license, session := LicenseIn(s, source).value, SessionIn(s, source).value;
      var oldLicense, oldSession := LicenseIn(s, target).value, SessionIn(s, target).value;
      SessionIsKnown(s, source, ledger);
      SessionIsKnown(s, target, ledger);
      var kept := PutRecovery(s, target, oldLicense, oldSession);
      PutRecoveryKeepsKnown(s, target, oldLicense, oldSession, ledger);
      PutLicenseKeepsKnown(kept, target, license, ledger);
      PutSessionKeepsKnown(PutLicense(kept, target, license), target, session, ledger);
      var copied := PutSession(PutLicense(kept, target, license), target, session);
      PutLicenseKeepsKnown(copied, target, oldLicense, ledger);
      PutSessionKeepsKnown(PutLicense(copied, target, oldLicense), target, oldSession, ledger);
    }
  }

  lemma CommitKeepsKnown(files: Files, path: Path, data: Data, ledger: Ledger)
    requires AllKnown(files, ledger) && path.Main? && !path.place.SecretFile?
    ensures AllKnown(Written(files, path, data, true), ledger)
  {
    var after := Written(files, path, data, true);
    assert forall p :: p in after && IsSessionOrRecovery(p) ==> p in files && after[p] == files[p];
  }

  lemma LogoutKeepsKnown(files: Files, active: StorageMode, ledger: Ledger)
    requires AllKnown(files, ledger)
    ensures AllKnown(LoggedOut(files, active), ledger)
  {
    var after := LoggedOut(files, active);
    forall path | path in after && IsSessionOrRecovery(path) && SessionEntry(path, after[path]).Some?
      ensures Known(SessionEntry(path, after[path]).value, ledger)
    {
      LogoutFrame(files, active, path);
      assert SessionEntry(path, files[path]) == SessionEntry(path, after[path]);
    }
  }

  lemma StoreKeepsInvariant(s: State, mode: StorageMode, session: Session)
    requires Invariant(s)
    requires Identity(Some(Print(session))) == Some(session)
    requires !IssuedElsewhere(s.ledger, Some(session.Family()), session.refreshToken)
    ensures Invariant(Store(s, mode, session))
  {
    var ledger := Record(s.ledger, session.Family(), session.refreshToken);
    assert AllKnown(s.snapshot.files, ledger);
    PutSessionKeepsKnown(s.snapshot, mode, Print(session), ledger);
    forall a, b | a in ledger && b in ledger && a != b ensures ledger[a] !! ledger[b] {
      assert a != session.Family() ==> session.refreshToken !in ledger[a];
      assert b != session.Family() ==> session.refreshToken !in ledger[b];
    }
  }

  /** Rotation keeps the family: the stored successor belongs to the grant it was refreshed from. */
  lemma RefreshKeepsFamily(d: Deployment, stored: Text, token: Text)
    requires Configured(d) && Usable(stored, d).Some? && !IsBlank(token)
    ensures Identity(Some(stored)).Some?
    ensures var next := Accepted(d, Usable(stored, d), EMPTY, token);
            && next.Family() == Identity(Some(stored)).value.Family() == Usable(stored, d).value.Family()
            && Identity(Some(Print(next))) == Some(next)
  {
    var next := Accepted(d, Usable(stored, d), EMPTY, token);
    ParsePrint(next);
  }

  lemma StepKeepsInvariant(s: State, step: Step, d: Deployment, portable: bool)
    requires Configured(d) && Invariant(s) && Genuine(s, step, d, portable)
    ensures Invariant(Apply(s, step, d, portable))
  {
    var mode := ConfiguredMode(s.snapshot.files, portable);
    match step
    case SignIn(id, token) =>
      var session := Accepted(d, None, id, token);
      ParsePrint(session);
      StoreKeepsInvariant(s, mode, session);
    case Refresh(token) =>
      var saved := Active(s, d, mode);
      if saved.Some? {
        var next := if token.Some? then token.value else saved.value.refreshToken;
        var stored := SessionIn(s.snapshot, mode).value;
        RefreshKeepsFamily(d, stored, next);
        SessionIsKnown(s.snapshot, mode, s.ledger);
        assert token.None? ==> next in s.ledger[saved.value.Family()];
        StoreKeepsInvariant(s, mode, Accepted(d, saved, EMPTY, next));
      }
    case Migrate(target) =>
      if target != mode {
        CopyKeepsKnown(s.snapshot, mode, target, s.ledger);
        CommitKeepsKnown(Copy(s.snapshot, mode, target).1.files, BootstrapPath(portable), BootData(target), s.ledger);
      }
    case SetLicense(m, license) => PutLicenseKeepsKnown(s.snapshot, m, license, s.ledger);
    case Logout => LogoutKeepsKnown(s.snapshot.files, mode, s.ledger);
  }

  // ----- runs -----

  function Run(s: State, steps: seq<Step>, d: Deployment, portable: bool): State
    decreases |steps|
  {
    if steps == [] then s else Run(Apply(s, steps[0], d, portable), steps[1..], d, portable)
  }

  predicate GenuineRun(s: State, steps: seq<Step>, d: Deployment, portable: bool)
    decreases |steps|
  {
    steps == [] || (
      && Genuine(s, steps[0], d, portable)
      && GenuineRun(Apply(s, steps[0], d, portable), steps[1..], d, portable))
  }

  lemma {:induction false} RunKeepsInvariant(s: State, steps: seq<Step>, d: Deployment, portable: bool)
    requires Configured(d) && Invariant(s) && GenuineRun(s, steps, d, portable)
    ensures Invariant(Run(s, steps, d, portable))
    decreases |steps|
  {
    if steps != [] {
      StepKeepsInvariant(s, steps[0], d, portable);
      RunKeepsInvariant(Apply(s, steps[0], d, portable), steps[1..], d, portable);
    }
  }

  /**
    No session entry anywhere, or copies of one legacy record (one without an id, whatever else its JSON
    leaves out or adds) and nothing else.
   */
  ghost predicate Start(snapshot: Snapshot, legacy: Option<Session>) {
    && (legacy.Some? ==> IsBlank(legacy.value.sessionId))
    && (forall path :: path in snapshot.files && IsSessionOrRecovery(path) && SessionEntry(path, snapshot.files[path]).Some? ==>
          var entry := SessionEntry(path, snapshot.files[path]).value;
          entry == EMPTY || (legacy.Some? && Identity(Some(entry)) == legacy))
  }

  function StartLedger(legacy: Option<Session>): Ledger {
    if legacy.Some? then map[legacy.value.Family() := {legacy.value.refreshToken}] else map[]
  }

  /** Signing out erases the grant of the active session, and with it every token the ledger lists for it. */
  lemma LogoutErasesGrant(s: State, mode: StorageMode, path: Path)
    requires Invariant(s) && Owner(s.snapshot.files, mode).Some? && IsSessionOrRecovery(path)
    ensures var grant := Owner(s.snapshot.files, mode).value.Family();
            var after := LoggedOut(s.snapshot.files, mode);
            && grant in s.ledger
            && (path in after && Identity(SessionEntry(path, after[path])).Some? ==>
                  && Identity(SessionEntry(path, after[path])).value.Family() != grant
                  && Identity(SessionEntry(path, after[path])).value.refreshToken !in s.ledger[grant])
  {
    SessionIsKnown(s.snapshot, mode, s.ledger);
    LogoutKeepsKnown(s.snapshot.files, mode, s.ledger);
    if path in LoggedOut(s.snapshot.files, mode) {
      LogoutErasesFamily(s.snapshot.files, mode, path);
    }
  }

  lemma StartIsKnown(start: Snapshot, legacy: Option<Session>)
    requires Start(start, legacy)
    ensures Invariant(State(start, StartLedger(legacy)))
  {
  }

  /**
    From an empty store, or one legacy record and its copies, through any run: signing out while the
    active session can be read leaves no readable session, backup or recovery entry of its grant in
    either location, and no readable entry anywhere with a refresh token that grant was ever issued.
   */
  lemma LogoutErasesEveryTokenOfTheGrant(start: Snapshot, legacy: Option<Session>, steps: seq<Step>,
                                         d: Deployment, portable: bool, path: Path)
    requires Configured(d) && Start(start, legacy)
    requires GenuineRun(State(start, StartLedger(legacy)), steps, d, portable)
    requires var s := Run(State(start, StartLedger(legacy)), steps, d, portable);
             && Owner(s.snapshot.files, ConfiguredMode(s.snapshot.files, portable)).Some?
             && IsSessionOrRecovery(path)
    ensures var s := Run(State(start, StartLedger(legacy)), steps, d, portable);
            var grant := Owner(s.snapshot.files, ConfiguredMode(s.snapshot.files, portable)).value.Family();
            var after := Apply(s, Logout, d, portable).snapshot.files;
            && grant in s.ledger
            && (path in after && Identity(SessionEntry(path, after[path])).Some? ==>
                  && Identity(SessionEntry(path, after[path])).value.Family() != grant
                  && Identity(SessionEntry(path, after[path])).value.refreshToken !in s.ledger[grant])
  {
    StartIsKnown(start, legacy);
    RunKeepsInvariant(State(start, StartLedger(legacy)), steps, d, portable);
    var s := Run(State(start, StartLedger(legacy)), steps, d, portable);
    var mode := ConfiguredMode(s.snapshot.files, portable);
    assert Apply(s, Logout, d, portable).snapshot.files == LoggedOut(s.snapshot.files, mode);
    LogoutErasesGrant(s, mode, path);
  }

  /** The ledger forgets nothing: a token a grant was issued stays listed under it. */
  lemma {:induction false} LedgerOnlyGrows(s: State, steps: seq<Step>, d: Deployment, portable: bool, family: Family)
    requires family in s.ledger
    ensures var after := Run(s, steps, d, portable).ledger; family in after && s.ledger[family] <= after[family]
    decreases |steps|
  {
    if steps != [] {
      LedgerOnlyGrows(Apply(s, steps[0], d, portable), steps[1..], d, portable, family);
    }
  }
}
