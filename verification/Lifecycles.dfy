/**
  The services together: any sequence of token requests, sign-ins, sign-outs, license changes and
  storage migrations is a run of grant steps, so what is proved about those runs holds of the services.
 */
module Lifecycles {
  import opened Options
  import opened Texts
  import opened Sessions
  import opened Preferences
  import opened Disks
  import opened AtomicFile
  import opened RuntimeModes
  import opened ProtectedStore
  import opened SecretStores
  import opened Grants
  import opened TokenLifecycle
  import opened SettingsFiles

  /** What the application does, with no file operation failing. */
  datatype Act =
    | Authenticate(call: Call)
    | Move(target: StorageMode, candidate: AppSettings)
    | License(mode: StorageMode, license: Text)

  function Do(p: Process, act: Act, d: Deployment, portable: bool): Process {
    match act
    case Authenticate(call) => TokenLifecycle.Perform(p, call, d, portable).0
    case Move(target, candidate) =>
      var source := ConfiguredMode(p.snapshot.files, portable);
      if source == target then p else p.(snapshot := Migrated(p.snapshot, source, target, candidate, portable).1)
    case License(mode, license) => p.(snapshot := PutLicense(p.snapshot, mode, license))
  }

  function DoAll(p: Process, acts: seq<Act>, d: Deployment, portable: bool): Process
    decreases |acts|
  {
    if acts == [] then p else DoAll(Do(p, acts[0], d, portable), acts[1..], d, portable)
  }

  // ----- the grant steps an act amounts to -----

  function AfterResponse(first: Step, api: ApiReply): seq<Step> {
    if api == Forbidden then [first, Logout] else [first]
  }

  function StepsOfToken(p: Process, c: Circumstances, d: Deployment, portable: bool): seq<Step> {
    if !Cached(p.memory, c.now) && Stored(p, portable).Some? && Corrupt(Stored(p, portable).value) then [Logout]
    else if !Posts(p, c, d, portable) || c.reply.Unreachable? then []
    else if c.reply.Denied? then [Logout]
    else if !Acceptable(c.reply.response, Usable(Stored(p, portable).value, d)) then []
    else AfterResponse(Refresh(c.reply.response.refreshToken), c.api)
  }

  function StepsOf(p: Process, act: Act, d: Deployment, portable: bool): seq<Step> {
    match act
    case Authenticate(TokenCall(c)) => StepsOfToken(p, c, d, portable)
    case Authenticate(SignInCall(c, newId)) =>
      if c.metadataFound && c.reply.Replied? && Acceptable(c.reply.response, None)
      then AfterResponse(SignIn(newId, NextToken(c.reply.response, None)), c.api) else []
    case Authenticate(SignOutCall) => [Logout]
    case Move(target, _) => [Migrate(target)]
    case License(mode, license) => [SetLicense(mode, license)]
  }

  function StepsOfAll(p: Process, acts: seq<Act>, d: Deployment, portable: bool): seq<Step>
    decreases |acts|
  {
    if acts == [] then []
    else StepsOf(p, acts[0], d, portable) + StepsOfAll(Do(p, acts[0], d, portable), acts[1..], d, portable)
  }

  // ----- apart from the settings files -----

  predicate IsSettings(path: Path) {
    match path
    case Main(SettingsFile(_)) => true
    case Backup(Main(SettingsFile(_))) => true
    case _ => false
  }

  /** Equal but for the settings files. */
  ghost predicate Agree(a: Snapshot, b: Snapshot) {
    a.credential == b.credential && forall path :: !IsSettings(path) ==> At(a.files, path) == At(b.files, path)
  }

  lemma AgreeLookups(a: Snapshot, b: Snapshot, portable: bool)
    requires Agree(a, b)
    ensures ConfiguredMode(a.files, portable) == ConfiguredMode(b.files, portable)
    ensures forall mode: StorageMode :: SessionIn(a, mode) == SessionIn(b, mode) && LicenseIn(a, mode) == LicenseIn(b, mode)
  {
    SameBootstrap(a.files, b.files, portable);
    forall mode: StorageMode ensures SessionIn(a, mode) == SessionIn(b, mode) && LicenseIn(a, mode) == LicenseIn(b, mode) {
      assert At(a.files, SessionPath(mode)) == At(b.files, SessionPath(mode));
      assert At(a.files, LicensePath(mode)) == At(b.files, LicensePath(mode));
    }
  }

  lemma AgreeWritten(a: Snapshot, b: Snapshot, path: Path, data: Data)
    requires Agree(a, b) && path.Main? && !IsSettings(path)
    ensures Agree(a.(files := Written(a.files, path, data, true)), b.(files := Written(b.files, path, data, true)))
    ensures Agree(a.(files := Without(a.files, path)), b.(files := Without(b.files, path)))
  {
    assert At(a.files, path) == At(b.files, path);
  }

  lemma AgreePuts(a: Snapshot, b: Snapshot, mode: StorageMode, license: Text, session: Text)
    requires Agree(a, b)
    ensures Agree(PutLicense(a, mode, license), PutLicense(b, mode, license))
    ensures Agree(PutSession(a, mode, session), PutSession(b, mode, session))
    ensures Agree(PutRecovery(a, mode, license, session), PutRecovery(b, mode, license, session))
  {
    AgreeWritten(a, b, LicensePath(mode), Protected(Trim(license)));
    AgreeWritten(a, b, SessionPath(mode), Protected(session));
    AgreeWritten(a, b, RecoveryPath(mode), Protected(RecoveryRecord(license, session)));
  }

  lemma AgreePutBoth(a: Snapshot, b: Snapshot, mode: StorageMode, license: Text, session: Text)
    requires Agree(a, b)
    ensures Agree(PutSession(PutLicense(a, mode, license), mode, session), PutSession(PutLicense(b, mode, license), mode, session))
  {
    AgreePuts(a, b, mode, license, session);
    AgreePuts(PutLicense(a, mode, license), PutLicense(b, mode, license), mode, license, session);
  }

  lemma AgreeCopy(a: Snapshot, b: Snapshot, source: StorageMode, target: StorageMode)
    requires Agree(a, b)
    ensures Copy(a, source, target).0 == Copy(b, source, target).0
    ensures Agree(Copy(a, source, target).1, Copy(b, source, target).1)
  {
    AgreeLookups(a, b, true);
    if Readable(a, source) && Readable(a, target) {
      var license, session := LicenseIn(a, source).value, SessionIn(a, source).value;
      var oldLicense, oldSession := LicenseIn(a, target).value, SessionIn(a, target).value;
      AgreePuts(a, b, target, oldLicense, oldSession);
      var keptA, keptB := PutRecovery(a, target, oldLicense, oldSession), PutRecovery(b, target, oldLicense, oldSession);
      AgreePutBoth(keptA, keptB, target, license, session);
      var copiedA := PutSession(PutLicense(keptA, target, license), target, session);
      var copiedB := PutSession(PutLicense(keptB, target, license), target, session);
      AgreeLookups(copiedA, copiedB, true);
      AgreePutBoth(copiedA, copiedB, target, oldLicense, oldSession);
      CopyStages(a, source, target, keptA, copiedA);
      CopyStages(b, source, target, keptB, copiedB);
    }
  }

  lemma AgreeLogout(a: Snapshot, b: Snapshot, mode: StorageMode)
    requires Agree(a, b)
    ensures Agree(a.(files := LoggedOut(a.files, mode)), b.(files := LoggedOut(b.files, mode)))
  {
    AgreeLookups(a, b, true);
    assert SessionIn(a, mode) == SessionIn(b, mode);
    forall path | !IsSettings(path) ensures At(LoggedOut(a.files, mode), path) == At(LoggedOut(b.files, mode), path) {
      assert At(a.files, path) == At(b.files, path);
    }
  }

  lemma AgreeMigrated(a: Snapshot, b: Snapshot, source: StorageMode, target: StorageMode, candidate: AppSettings, portable: bool)
    requires Agree(a, b)
    ensures var (ok, copied) := Copy(b, source, target);
            Agree(Migrated(a, source, target, candidate, portable).1,
                  if ok then copied.(files := Written(copied.files, BootstrapPath(portable), BootData(target), true)) else copied)
  {
    var placed := SettingsPlaced(a, target, candidate);
    assert Agree(placed, b);
    AgreeCopy(placed, b, source, target);
    AgreeWritten(Copy(placed, source, target).1, Copy(b, source, target).1, BootstrapPath(portable), BootData(target));
  }

  // ----- every act is a run of grant steps -----

  lemma RunOne(s: State, step: Step, d: Deployment, portable: bool)
    ensures Run(s, [step], d, portable) == Grants.Apply(s, step, d, portable)
    ensures Run(s, [step, Logout], d, portable) == Grants.Apply(Grants.Apply(s, step, d, portable), Logout, d, portable)
  {
    assert [step][1..] == [];
    assert [step, Logout][1..] == [Logout] && [Logout][1..] == [];
  }

  /** What the API check does to a stored token is nothing or a logout. */
  lemma ValidateIsARun(stored: Process, r: TokenResponse, c: Circumstances, s: State, step: Step, d: Deployment, portable: bool)
    requires Agree(stored.snapshot, Grants.Apply(s, step, d, portable).snapshot)
    ensures Agree(Validate(stored, r, c, portable).0.snapshot, Run(s, AfterResponse(step, c.api), d, portable).snapshot)
  {
    var s' := Grants.Apply(s, step, d, portable);
    RunOne(s, step, d, portable);
    AgreeLookups(stored.snapshot, s'.snapshot, portable);
    AgreeLogout(stored.snapshot, s'.snapshot, ConfiguredMode(stored.snapshot.files, portable));
  }

  lemma AcceptIsARun(p: Process, r: TokenResponse, previous: Option<Session>, newId: Text, c: Circumstances, s: State, step: Step,
                     d: Deployment, portable: bool)
    requires Agree(p.snapshot, s.snapshot) && Acceptable(r, previous)
    requires Grants.Apply(s, step, d, portable) ==
               Store(s, ConfiguredMode(s.snapshot.files, portable), Accepted(d, previous, newId, NextToken(r, previous)))
    ensures Agree(Accept(p, r, previous, newId, c, d, portable).0.snapshot, Run(s, AfterResponse(step, c.api), d, portable).snapshot)
  {
    var session := Accepted(d, previous, newId, NextToken(r, previous));
    AgreeLookups(p.snapshot, s.snapshot, portable);
    AgreePuts(p.snapshot, s.snapshot, ConfiguredMode(p.snapshot.files, portable), EMPTY, Print(session));
    ValidateIsARun(Rotated(p, session, portable), r, c, s, step, d, portable);
  }

  lemma TokenCallIsARun(p: Process, c: Circumstances, s: State, d: Deployment, portable: bool)
    requires Agree(p.snapshot, s.snapshot)
    ensures Agree(GetToken(p, c, d, portable).0.snapshot, Run(s, StepsOfToken(p, c, d, portable), d, portable).snapshot)
  {
    AgreeLookups(p.snapshot, s.snapshot, portable);
    LogoutIsARun(p, s, d, portable);
    if Posts(p, c, d, portable) && c.reply.Replied? {
      var saved := Usable(Stored(p, portable).value, d);
      if Acceptable(c.reply.response, saved) {
        AcceptIsARun(p, c.reply.response, saved, EMPTY, c, s, Refresh(c.reply.response.refreshToken), d, portable);
      }
    }
  }

  lemma LogoutIsARun(p: Process, s: State, d: Deployment, portable: bool)
    requires Agree(p.snapshot, s.snapshot)
    ensures Agree(Cleared(p, portable).snapshot, Run(s, [Logout], d, portable).snapshot)
  {
    AgreeLookups(p.snapshot, s.snapshot, portable);
    AgreeLogout(p.snapshot, s.snapshot, ConfiguredMode(p.snapshot.files, portable));
    RunOne(s, Logout, d, portable);
  }

  lemma ActIsARun(p: Process, act: Act, s: State, d: Deployment, portable: bool)
    requires Agree(p.snapshot, s.snapshot)
    ensures Agree(Do(p, act, d, portable).snapshot, Run(s, StepsOf(p, act, d, portable), d, portable).snapshot)
  {
    AgreeLookups(p.snapshot, s.snapshot, portable);
    match act
    case Authenticate(TokenCall(c)) => TokenCallIsARun(p, c, s, d, portable);
    case Authenticate(SignInCall(c, newId)) =>
      if c.metadataFound && c.reply.Replied? && Acceptable(c.reply.response, None) {
        AcceptIsARun(p, c.reply.response, None, newId, c, s, SignIn(newId, NextToken(c.reply.response, None)), d, portable);
      }
    case Authenticate(SignOutCall) => LogoutIsARun(p, s, d, portable);
    case Move(target, candidate) =>
      RunOne(s, Migrate(target), d, portable);
      AgreeMigrated(p.snapshot, s.snapshot, ConfiguredMode(p.snapshot.files, portable), target, candidate, portable);
    case License(mode, license) =>
      RunOne(s, SetLicense(mode, license), d, portable);
      AgreePuts(p.snapshot, s.snapshot, mode, license, EMPTY);
  }

  lemma {:induction false} RunConcat(s: State, a: seq<Step>, b: seq<Step>, d: Deployment, portable: bool)
    ensures Run(s, a + b, d, portable) == Run(Run(s, a, d, portable), b, d, portable)
    decreases |a|
  {
    if a == [] {
      assert a + b == b;
    } else {
      assert (a + b)[1..] == a[1..] + b;
      RunConcat(Grants.Apply(s, a[0], d, portable), a[1..], b, d, portable);
    }
  }

  /** Apart from the settings files, what the services leave on disk is what the run of grant steps leaves. */
  lemma {:induction false} ActsAreARun(p: Process, acts: seq<Act>, s: State, d: Deployment, portable: bool)
    requires Agree(p.snapshot, s.snapshot)
    ensures Agree(DoAll(p, acts, d, portable).snapshot, Run(s, StepsOfAll(p, acts, d, portable), d, portable).snapshot)
    decreases |acts|
  {
    if acts != [] {
      var steps, next := StepsOf(p, acts[0], d, portable), Do(p, acts[0], d, portable);
      ActIsARun(p, acts[0], s, d, portable);
      ActsAreARun(next, acts[1..], Run(s, steps, d, portable), d, portable);
      RunConcat(s, steps, StepsOfAll(next, acts[1..], d, portable), d, portable);
    }
  }

  lemma SignOutErasesGrant(p: Process, s: State, d: Deployment, portable: bool, path: Path)
    requires Agree(p.snapshot, s.snapshot) && Invariant(s) && IsSessionOrRecovery(path)
    requires Owner(p.snapshot.files, ConfiguredMode(p.snapshot.files, portable)).Some?
    ensures var grant := Owner(p.snapshot.files, ConfiguredMode(p.snapshot.files, portable)).value.Family();
            var after := Do(p, Authenticate(SignOutCall), d, portable).snapshot.files;
            grant in s.ledger && Forgets(after, path, grant, s.ledger[grant])
  {
    var mode := ConfiguredMode(p.snapshot.files, portable);
    AgreeLookups(p.snapshot, s.snapshot, portable);
    AgreeLogout(p.snapshot, s.snapshot, mode);
    assert SessionIn(p.snapshot, mode) == SessionIn(s.snapshot, mode);
    LogoutErasesGrant(s, mode, path);
    assert At(LoggedOut(p.snapshot.files, mode), path) == At(LoggedOut(s.snapshot.files, mode), path);
  }

  /** If the file at `path` holds a readable session, it is of another grant, and its token none of these. */
  predicate Forgets(files: Files, path: Path, grant: Family, tokens: set<Text>)
    requires IsSessionOrRecovery(path)
  {
    path in files && Identity(SessionEntry(path, files[path])).Some? ==>
      && Identity(SessionEntry(path, files[path])).value.Family() != grant
      && Identity(SessionEntry(path, files[path])).value.refreshToken !in tokens
  }

  /**
    The services, from an empty store or one legacy record and its copies: whatever was requested, signed
    in, refused, licensed and migrated before, a sign-out while the active session can be read leaves no
    readable session, backup or recovery entry in either location with a token its grant ever held.
   */
  lemma SignOutErasesEveryTokenOfTheGrant(start: Snapshot, memory: Memory, legacy: Option<Session>, acts: seq<Act>,
                                          d: Deployment, portable: bool, path: Path)
    requires Configured(d) && Grants.Start(start, legacy)
    requires GenuineRun(State(start, StartLedger(legacy)), StepsOfAll(Process(memory, start), acts, d, portable), d, portable)
    requires var p := DoAll(Process(memory, start), acts, d, portable);
             Owner(p.snapshot.files, ConfiguredMode(p.snapshot.files, portable)).Some? && IsSessionOrRecovery(path)
    ensures var p := DoAll(Process(memory, start), acts, d, portable);
            var ledger := Run(State(start, StartLedger(legacy)), StepsOfAll(Process(memory, start), acts, d, portable), d, portable).ledger;
            var grant := Owner(p.snapshot.files, ConfiguredMode(p.snapshot.files, portable)).value.Family();
            var after := Do(p, Authenticate(SignOutCall), d, portable).snapshot.files;
            grant in ledger && Forgets(after, path, grant, ledger[grant])
  {
    var p0, s0 := Process(memory, start), State(start, StartLedger(legacy));
    var steps := StepsOfAll(p0, acts, d, portable);
    StartIsKnown(start, legacy);
    RunKeepsInvariant(s0, steps, d, portable);
    ActsAreARun(p0, acts, s0, d, portable);
    SignOutErasesGrant(DoAll(p0, acts, d, portable), Run(s0, steps, d, portable), d, portable, path);
  }
}
