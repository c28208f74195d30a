/** The operations of the protected store, file by file (SecretStore.cs). */
module SecretStores {
  import opened Options
  import opened Texts
  import opened Sessions
  import opened Preferences
  import opened Disks
  import opened AtomicFile
  import opened RuntimeModes
  import opened ProtectedStore

  /** Every file, and the credential, is as it was in `before` or as it is in `after`. */
  ghost predicate Partly(before: Snapshot, after: Snapshot, s: Snapshot) {
    && (forall path :: At(s.files, path) == At(before.files, path) || At(s.files, path) == At(after.files, path))
    && (s.credential == before.credential || s.credential == after.credential)
  }

  /** The trace has grown only by snapshots on the way from `before` to `after`. */
  ghost predicate OnTheWay(earlier: seq<Snapshot>, later: seq<Snapshot>, before: Snapshot, after: Snapshot) {
    earlier <= later && forall i :: |earlier| <= i < |later| ==> Partly(before, after, later[i])
  }

  /**
    A stage of logging out: every file is untouched or as after a complete logout, and as long as the
    active session is there nothing else has been touched.
   */
  ghost predicate Leaving(before: Snapshot, active: StorageMode, s: Snapshot) {
    && Partly(before, before.(files := LoggedOut(before.files, active)), s)
    && ((SessionPath(active) !in s.files && Backup(SessionPath(active)) !in s.files)
        || (forall path :: path != SessionPath(active) && path != Backup(SessionPath(active)) ==>
                             At(s.files, path) == At(before.files, path)))
  }

  ghost predicate LeavingTrace(earlier: seq<Snapshot>, later: seq<Snapshot>, before: Snapshot, active: StorageMode) {
    earlier <= later && forall i :: |earlier| <= i < |later| ==> Leaving(before, active, later[i])
  }

  ghost function ActiveSessionPaths(active: StorageMode): set<Path> {
    {SessionPath(active), Backup(SessionPath(active))}
  }

  /** The files of `done`, the active session among them, are as after logout; the others as before it. */
  ghost predicate Settled(before: Snapshot, active: StorageMode, done: set<Path>, s: Snapshot) {
    && s.credential == before.credential
    && ActiveSessionPaths(active) <= done
    && forall path :: At(s.files, path) == At(if path in done then LoggedOut(before.files, active) else before.files, path)
  }

  lemma SettledIsLeaving(before: Snapshot, active: StorageMode, done: set<Path>, s: Snapshot)
    requires Settled(before, active, done, s)
    ensures Leaving(before, active, s)
  {
    assert At(s.files, SessionPath(active)) == None && At(s.files, Backup(SessionPath(active))) == None;
  }

  lemma SettledFurther(before: Snapshot, active: StorageMode, done: set<Path>, path: Path, s: Snapshot, t: Snapshot)
    requires Settled(before, active, done, s) && t.credential == s.credential
    requires forall p :: p != path ==> At(t.files, p) == At(s.files, p)
    requires At(t.files, path) == At(LoggedOut(before.files, active), path)
    ensures Settled(before, active, done + {path}, t)
  {
  }

  /** The session and recovery files of one location. */
  ghost function CopiesOf(mode: StorageMode): set<Path> {
    {SessionPath(mode), Backup(SessionPath(mode)), RecoveryPath(mode), Backup(RecoveryPath(mode))}
  }

  lemma WithoutActiveIsLeaving(before: Snapshot, active: StorageMode)
    ensures var gone := before.(files := Without(before.files, SessionPath(active)));
            && Settled(before, active, ActiveSessionPaths(active), gone)
            && (forall s :: Partly(before, gone, s) && s.credential == before.credential ==> Leaving(before, active, s))
  {
  }

  lemma SettledEverywhere(before: Snapshot, active: StorageMode, done: set<Path>, s: Snapshot)
    requires Settled(before, active, done, s)
    requires CopiesOf(ProfileAppData) <= done && CopiesOf(PortableLocal) <= done
    ensures s.files == LoggedOut(before.files, active)
  {
    forall path ensures At(s.files, path) == At(LoggedOut(before.files, active), path) {
      if path !in done {
        LogoutFrame(before.files, active, path);
      }
    }
    SameLookups(s.files, LoggedOut(before.files, active));
  }

  // ----- migration of secrets -----

  predicate IsSecretOf(path: Path, mode: StorageMode) {
    match path
    case Main(SecretFile(m, _)) => m == mode
    case Backup(Main(SecretFile(m, _))) => m == mode
    case _ => false
  }

  /** Apart from the protected files (or the credential) of `target`, everything is as before. */
  ghost predicate OnlySecretsOf(before: Snapshot, target: StorageMode, s: Snapshot) {
    && (forall path :: !IsSecretOf(path, target) ==> At(s.files, path) == At(before.files, path))
    && (target == PortableLocal ==> s.credential == before.credential)
  }

  /** When there was a license or a session in `target` to lose, its recovery file holds a JSON object with exactly both. */
  ghost predicate RecoveryHolds(before: Snapshot, target: StorageMode, s: Snapshot)
    requires Readable(before, target)
  {
    var license, session := LicenseIn(before, target).value, SessionIn(before, target).value;
    (license == EMPTY && session == EMPTY) || (
      && TextAt(s.files, RecoveryPath(target)).Some?
      && var kept := TextAt(s.files, RecoveryPath(target)).value;
         && kept.Json? && kept.value.Obj?
         && "license" in kept.value.members && kept.value.members["license"] == Str(license)
         && "session" in kept.value.members && kept.value.members["session"] == Str(session))
  }

  ghost predicate Guarded(before: Snapshot, target: StorageMode, s: Snapshot)
    requires Readable(before, target)
  {
    OnlySecretsOf(before, target, s) && RecoveryHolds(before, target, s)
  }

  /** What holds wherever a migration of secrets is stopped. */
  ghost predicate CopySafe(before: Snapshot, target: StorageMode, s: Snapshot) {
    && OnlySecretsOf(before, target, s)
    && (LicenseIn(s, target) != LicenseIn(before, target) || SessionIn(s, target) != SessionIn(before, target) ==>
          Readable(before, target) && RecoveryHolds(before, target, s))
  }

  lemma GuardedThroughPuts(before: Snapshot, target: StorageMode, a: Snapshot, s: Snapshot, text: Text)
    requires Readable(before, target) && Guarded(before, target, a)
    requires Partly(a, PutLicense(a, target, text), s) || Partly(a, PutSession(a, target, text), s)
    ensures Guarded(before, target, s)
  {
    assert At(s.files, RecoveryPath(target)) == At(a.files, RecoveryPath(target));
  }

  lemma TracedPutsAreSafe(before: Snapshot, target: StorageMode, a: Snapshot, text: Text, earlier: seq<Snapshot>, later: seq<Snapshot>)
    requires Readable(before, target) && Guarded(before, target, a)
    requires OnTheWay(earlier, later, a, PutLicense(a, target, text)) || OnTheWay(earlier, later, a, PutSession(a, target, text))
    ensures forall i :: |earlier| <= i < |later| ==> CopySafe(before, target, later[i])
  {
    forall i | |earlier| <= i < |later| ensures CopySafe(before, target, later[i]) {
      GuardedThroughPuts(before, target, a, later[i], text);
    }
  }

  /** Copy, cut at the point where the copied secrets are read back. */
  lemma CopyStages(before: Snapshot, source: StorageMode, target: StorageMode, kept: Snapshot, copied: Snapshot)
    requires Readable(before, source) && Readable(before, target)
    requires kept == PutRecovery(before, target, LicenseIn(before, target).value, SessionIn(before, target).value)
    requires copied == PutSession(PutLicense(kept, target, LicenseIn(before, source).value), target, SessionIn(before, source).value)
    ensures Copy(before, source, target) ==
              if LicenseIn(copied, target) == LicenseIn(before, source) && SessionIn(copied, target) == SessionIn(before, source)
              then (true, copied)
              else (false, PutSession(PutLicense(copied, target, LicenseIn(before, target).value), target, SessionIn(before, target).value))
  {
  }

  lemma PutsAreReadBack(s: Snapshot, mode: StorageMode, license: Text, session: Text)
    ensures LicenseIn(PutSession(PutLicense(s, mode, license), mode, session), mode) == Some(Trim(license))
    ensures SessionIn(PutSession(PutLicense(s, mode, license), mode, session), mode) == Some(session)
  {
    TrimIsIdempotent(license);
  }

  lemma SameLookups(a: Files, b: Files)
    requires forall path :: At(a, path) == At(b, path)
    ensures a == b
  {
    forall path ensures path in a <==> path in b {
      assert At(a, path) == At(b, path);
    }
    forall path | path in a ensures a[path] == b[path] {
      assert At(a, path) == At(b, path);
    }
  }

  datatype CopyOutcome = Copied | Refused | Restored | RestoreFailed

  class SecretStore {
    const disk: Disk
    const portable: bool

    constructor (disk: Disk, portable: bool)
      ensures this.disk == disk && this.portable == portable
    {
      this.disk := disk;
      this.portable := portable;
    }

    ghost function Mode(): StorageMode
      reads disk
    {
      ConfiguredMode(disk.files, portable)
    }

    /** `GetLicenseKey`; None when the protected file cannot be read. */
    method GetLicenseKey(mode: StorageMode) returns (license: Option<Text>)
      ensures license == LicenseIn(disk.Now(), mode)
    {
      if mode == PortableLocal {
        license := TextAt(disk.files, LicensePath(mode));
      } else {
        license := Some(if disk.credential.Some? then disk.credential.value else EMPTY);
      }
    }

    /** `GetSession`; None when the protected file cannot be read. */
    method GetSession() returns (session: Option<Text>)
      ensures session == SessionIn(disk.Now(), Mode())
    {
      var mode := GetConfiguredStorageMode(disk, portable);
      session := TextAt(disk.files, SessionPath(mode));
    }

    /** `DeleteProtected`: the file and its backup. */
    method DeleteProtected(path: Path) returns (ok: bool)
      requires !path.Temp?
      modifies disk
      ensures disk.credential == old(disk.credential)
      ensures ok ==> Visible(disk.files) == Without(Visible(old(disk.files)), path)
      ensures Partly(old(disk.Now()), old(disk.Now()).(files := Without(Visible(old(disk.files)), path)), disk.Now())
      ensures OnTheWay(old(disk.trace), disk.trace, old(disk.Now()),
                       old(disk.Now()).(files := Without(Visible(old(disk.files)), path)))
      ensures disk.faults >= old(disk.faults) && (disk.faults == old(disk.faults) <==> ok)
    {
      ok := true;
      if path in disk.files {
        ok := disk.Delete(path);
        if !ok { return; }
      }
      if Backup(path) in disk.files {
        ok := disk.Delete(Backup(path));
      }
    }

    /** `SaveLicenseKey(licenseKey, storageMode)`. */
    method SaveLicenseKey(license: Text, mode: StorageMode) returns (ok: bool)
      modifies disk
      ensures ok ==> disk.Now() == PutLicense(old(disk.Now()), mode, license)
      ensures Partly(old(disk.Now()), PutLicense(old(disk.Now()), mode, license), disk.Now())
      ensures OnTheWay(old(disk.trace), disk.trace, old(disk.Now()), PutLicense(old(disk.Now()), mode, license))
      ensures disk.faults >= old(disk.faults) && (disk.faults == old(disk.faults) <==> ok)
    {
      if mode == PortableLocal {
        if IsBlank(license) {
          ok := DeleteProtected(LicensePath(mode));
        } else {
          ok := Write(disk, LicensePath(mode), Protected(Trim(license)), true);
        }
      } else {
        ok := disk.SetCredential(if IsBlank(license) then None else Some(Trim(license)));
      }
    }

    /** `ReplaceSession`. */
    method ReplaceSession(mode: StorageMode, session: Text) returns (ok: bool)
      modifies disk
      ensures ok ==> disk.Now() == PutSession(old(disk.Now()), mode, session)
      ensures Partly(old(disk.Now()), PutSession(old(disk.Now()), mode, session), disk.Now())
      ensures OnTheWay(old(disk.trace), disk.trace, old(disk.Now()), PutSession(old(disk.Now()), mode, session))
      ensures disk.faults >= old(disk.faults) && (disk.faults == old(disk.faults) <==> ok)
    {
      if session == EMPTY {
        ok := DeleteProtected(SessionPath(mode));
      } else {
        ok := Write(disk, SessionPath(mode), Protected(session), true);
      }
    }

    /** `RedactRecoverySession`: rewrites the record in place, without a backup that would keep the token. */
    method RedactRecoverySession(path: Path, owner: Option<Session>, activeMode: bool) returns (ok: bool)
      requires !path.Temp?
      modifies disk
      ensures disk.credential == old(disk.credential)
      ensures ok && path !in old(disk.files) ==> Visible(disk.files) == Visible(old(disk.files))
      ensures ok && path in old(disk.files) ==>
                Visible(disk.files) == Visible(old(disk.files))[path := Redacted(old(disk.files)[path], owner, activeMode)]
      ensures !ok ==> Visible(disk.files) == Visible(old(disk.files))
      ensures Through(old(disk.trace), disk.trace, {old(disk.Now()), disk.Now()})
      ensures disk.faults >= old(disk.faults) && (disk.faults == old(disk.faults) <==> ok)
    {
      ok := true;
      var json := TextAt(disk.files, path);
      if json.None? || IsBlank(json.value) || !json.value.Json? || !json.value.value.Obj? { return; }
      var members := json.value.value.members;
      if "session" !in members || !members["session"].Str? { return; }
      if !activeMode && !SameFamily(Some(members["session"].text), owner) { return; }
      ok := Write(disk, path, Protected(Json(Obj(members - {"session"}))), false);
    }

    /** One inactive session file: deleted when it belongs to the owner's grant. */
    method PurgeSession(path: Path, mode: StorageMode, owner: Option<Session>, active: StorageMode,
                        ghost before: Snapshot, ghost done: set<Path>) returns (ok: bool)
      requires path == SessionPath(mode) || path == Backup(SessionPath(mode))
      requires owner == Owner(before.files, active)
      requires Settled(before, active, done, disk.Now())
      modifies disk
      ensures Settled(before, active, if ok then done + {path} else done, disk.Now())
      ensures LeavingTrace(old(disk.trace), disk.trace, before, active)
      ensures disk.faults >= old(disk.faults) && (disk.faults == old(disk.faults) <==> ok)
    {
      ok := true;
      assert At(disk.Now().files, path) == At(if path in done then LoggedOut(before.files, active) else before.files, path);
      if mode != active && SameFamily(TextAt(disk.files, path), owner) {
        if path in disk.files {
          ok := disk.Delete(path);
        }
      }
      if ok {
        SettledFurther(before, active, done, path, old(disk.Now()), disk.Now());
        SettledIsLeaving(before, active, done + {path}, disk.Now());
      }
    }

    /** One recovery record: redacted when it is active, or inactive and of the owner's grant. */
    method PurgeRecovery(path: Path, mode: StorageMode, owner: Option<Session>, active: StorageMode,
                         ghost before: Snapshot, ghost done: set<Path>) returns (ok: bool)
      requires path == RecoveryPath(mode) || path == Backup(RecoveryPath(mode))
      requires path !in done
      requires owner == Owner(before.files, active)
      requires Settled(before, active, done, disk.Now())
      modifies disk
      ensures Settled(before, active, if ok then done + {path} else done, disk.Now())
      ensures LeavingTrace(old(disk.trace), disk.trace, before, active)
      ensures disk.faults >= old(disk.faults) && (disk.faults == old(disk.faults) <==> ok)
    {
      assert At(disk.Now().files, path) == At(before.files, path);
      ok := RedactRecoverySession(path, owner, mode == active);
      SettledIsLeaving(before, active, done, old(disk.Now()));
      if ok {
        SettledFurther(before, active, done, path, old(disk.Now()), disk.Now());
        SettledIsLeaving(before, active, done + {path}, disk.Now());
      }
    }

    /** One pass of the inner loop of `DeleteSession`: a session file and the recovery file beside it. */
    method PurgeFiles(sessionPath: Path, recoveryPath: Path, mode: StorageMode, owner: Option<Session>, active: StorageMode,
                      ghost before: Snapshot, ghost done: set<Path>) returns (ok: bool)
      requires sessionPath == SessionPath(mode) || sessionPath == Backup(SessionPath(mode))
      requires recoveryPath == RecoveryPath(mode) || recoveryPath == Backup(RecoveryPath(mode))
      requires recoveryPath !in done
      requires owner == Owner(before.files, active)
      requires Settled(before, active, done, disk.Now())
      modifies disk
      ensures ok ==> Settled(before, active, done + {sessionPath, recoveryPath}, disk.Now())
      ensures disk.credential == old(disk.credential) && Leaving(before, active, disk.Now())
      ensures LeavingTrace(old(disk.trace), disk.trace, before, active)
      ensures disk.faults >= old(disk.faults) && (disk.faults == old(disk.faults) <==> ok)
    {
      ok := PurgeSession(sessionPath, mode, owner, active, before, done);
      SettledIsLeaving(before, active, if ok then done + {sessionPath} else done, disk.Now());
      if !ok { return; }
      ok := PurgeRecovery(recoveryPath, mode, owner, active, before, done + {sessionPath});
      SettledIsLeaving(before, active, if ok then done + {sessionPath} + {recoveryPath} else done + {sessionPath}, disk.Now());
      assert done + {sessionPath} + {recoveryPath} == done + {sessionPath, recoveryPath};
    }

    /** The inner loop of `DeleteSession`: the primaries, then the backups, of one location. */
    method PurgeMode(mode: StorageMode, owner: Option<Session>, active: StorageMode, ghost before: Snapshot, ghost done: set<Path>)
      returns (ok: bool)
      requires owner == Owner(before.files, active)
      requires Settled(before, active, done, disk.Now())
      requires RecoveryPath(mode) !in done && Backup(RecoveryPath(mode)) !in done
      modifies disk
      ensures ok ==> Settled(before, active, done + CopiesOf(mode), disk.Now())
      ensures disk.credential == old(disk.credential) && Leaving(before, active, disk.Now())
      ensures LeavingTrace(old(disk.trace), disk.trace, before, active)
      ensures disk.faults >= old(disk.faults) && (disk.faults == old(disk.faults) <==> ok)
    {
      SettledIsLeaving(before, active, done, disk.Now());
      ghost var settled := done;
      ok := true;
      for suffix := 0 to 2
        invariant ok
        invariant Settled(before, active, settled, disk.Now())
        invariant Leaving(before, active, disk.Now())
        invariant suffix == 0 ==> settled == done
        invariant suffix == 1 ==> settled == done + {SessionPath(mode), RecoveryPath(mode)}
        invariant suffix == 2 ==> settled == done + CopiesOf(mode)
        invariant LeavingTrace(old(disk.trace), disk.trace, before, active)
        invariant disk.faults == old(disk.faults)
      {
        var sessionPath := if suffix == 0 then SessionPath(mode) else Backup(SessionPath(mode));
        var recoveryPath := if suffix == 0 then RecoveryPath(mode) else Backup(RecoveryPath(mode));
        ok := PurgeFiles(sessionPath, recoveryPath, mode, owner, active, before, settled);
        if !ok { return; }
        settled := settled + {sessionPath, recoveryPath};
        assert suffix == 1 ==> settled == done + CopiesOf(mode);
      }
    }

    /**
      `DeleteSession`. Without failures it does exactly what LoggedOut says; wherever it fails or is
      stopped, every file is either untouched or as after a complete logout, and the active session
      and its backup are the first to go.
     */
    method DeleteSession() returns (ok: bool)
      modifies disk
      ensures disk.credential == old(disk.credential)
      ensures ok ==> Visible(disk.files) == LoggedOut(Visible(old(disk.files)), old(Mode()))
      ensures LeavingTrace(old(disk.trace), disk.trace, old(disk.Now()), old(Mode()))
      ensures Leaving(old(disk.Now()), old(Mode()), disk.Now())
      ensures disk.faults >= old(disk.faults) && (disk.faults == old(disk.faults) <==> ok)
    {
      var active := GetConfiguredStorageMode(disk, portable);
      var owner := Identity(TextAt(disk.files, SessionPath(active)));
      ghost var before := disk.Now();
      ok := DeleteProtected(SessionPath(active));
      WithoutActiveIsLeaving(before, active);
      if !ok { return; }
      ok := PurgeEverywhere(owner, active, before);
    }

    /** The outer loop of `DeleteSession`, over `Enum.GetValues<StorageMode>()`. */
    method PurgeEverywhere(owner: Option<Session>, active: StorageMode, ghost before: Snapshot) returns (ok: bool)
      requires owner == Owner(before.files, active)
      requires Settled(before, active, ActiveSessionPaths(active), disk.Now())
      modifies disk
      ensures disk.credential == old(disk.credential)
      ensures ok ==> Visible(disk.files) == LoggedOut(before.files, active)
      ensures Leaving(before, active, disk.Now())
      ensures LeavingTrace(old(disk.trace), disk.trace, before, active)
      ensures disk.faults >= old(disk.faults) && (disk.faults == old(disk.faults) <==> ok)
    {
      ok := true;
      ghost var done := ActiveSessionPaths(active);
      var modes := [ProfileAppData, PortableLocal];
      for m := 0 to |modes|
        invariant ok
        invariant Settled(before, active, done, disk.Now())
        invariant m == 0 ==> done == ActiveSessionPaths(active)
        invariant m == 1 ==> done == ActiveSessionPaths(active) + CopiesOf(ProfileAppData)
        invariant m == 2 ==> done == ActiveSessionPaths(active) + CopiesOf(ProfileAppData) + CopiesOf(PortableLocal)
        invariant LeavingTrace(old(disk.trace), disk.trace, before, active)
        invariant disk.faults == old(disk.faults)
      {
        ok := PurgeMode(modes[m], owner, active, before, done);
        if !ok { return; }
        done := done + CopiesOf(modes[m]);
      }
      SettledIsLeaving(before, active, done, disk.Now());
      SettledEverywhere(before, active, done, disk.Now());
    }

    /** `SaveSession`. An empty session signs out. */
    method SaveSession(session: Text) returns (ok: bool)
      modifies disk
      ensures ok && session != EMPTY ==> disk.Now() == PutSession(old(disk.Now()), old(Mode()), session)
      ensures !ok && session != EMPTY ==> disk.Now() == old(disk.Now())
      ensures ok && session == EMPTY ==>
                disk.Now() == old(disk.Now()).(files := LoggedOut(Visible(old(disk.files)), old(Mode())))
      ensures session == EMPTY ==>
                Leaving(old(disk.Now()), old(Mode()), disk.Now()) && LeavingTrace(old(disk.trace), disk.trace, old(disk.Now()), old(Mode()))
      ensures session != EMPTY ==> Through(old(disk.trace), disk.trace, {old(disk.Now()), disk.Now()})
      ensures disk.faults >= old(disk.faults) && (disk.faults == old(disk.faults) <==> ok)
    {
      if session == EMPTY {
        ok := DeleteSession();
      } else {
        var mode := GetConfiguredStorageMode(disk, portable);
        ok := Write(disk, SessionPath(mode), Protected(session), true);
      }
    }

    /** `CopyTo`. Everything but Copied is an exception: before anything was overwritten, or after the attempt to restore. */
    method CopyTo(source: StorageMode, target: StorageMode) returns (outcome: CopyOutcome)
      modifies disk
      ensures outcome == Copied ==>
                && LicenseIn(disk.Now(), target) == LicenseIn(old(disk.Now()), source)
                && SessionIn(disk.Now(), target) == SessionIn(old(disk.Now()), source)
                && Transferable(old(disk.Now()), source)
      ensures outcome == Refused ==>
                disk.Now() == old(disk.Now())
                && (disk.faults > old(disk.faults) || !Readable(old(disk.Now()), source) || !Readable(old(disk.Now()), target))
      ensures outcome == RestoreFailed ==> disk.faults > old(disk.faults)
      ensures outcome == Restored ==>
                && Readable(old(disk.Now()), target)
                && LicenseIn(disk.Now(), target) == Some(Trim(LicenseIn(old(disk.Now()), target).value))
                && SessionIn(disk.Now(), target) == SessionIn(old(disk.Now()), target)
      ensures CopySafe(old(disk.Now()), target, disk.Now())
      ensures old(disk.trace) <= disk.trace
      ensures forall i :: |old(disk.trace)| <= i < |disk.trace| ==> CopySafe(old(disk.Now()), target, disk.trace[i])
      ensures disk.faults >= old(disk.faults)
      ensures disk.faults == old(disk.faults) ==> (outcome == Copied, disk.Now()) == Copy(old(disk.Now()), source, target)
    {
      ghost var before := disk.Now();
      var sourceLicense := GetLicenseKey(source);
      var sourceSession := TextAt(disk.files, SessionPath(source));
      var oldLicense := GetLicenseKey(target);
      var oldSession := TextAt(disk.files, SessionPath(target));
      if sourceLicense.None? || sourceSession.None? || oldLicense.None? || oldSession.None? { return Refused; }
      var kept := KeepForRecovery(target, oldLicense.value, oldSession.value);
      if !kept { return Refused; }
      outcome := CopyOver(before, source, target, sourceLicense.value, sourceSession.value, oldLicense.value, oldSession.value);
    }

    /** The try block of `CopyTo`: write, read back and compare; on any failure, restore. */
    method CopyOver(ghost before: Snapshot, ghost source: StorageMode, target: StorageMode,
                    license: Text, session: Text, oldLicense: Text, oldSession: Text) returns (outcome: CopyOutcome)
      requires Readable(before, source) && Readable(before, target) && Guarded(before, target, disk.Now())
      requires Some(license) == LicenseIn(before, source) && Some(session) == SessionIn(before, source)
      requires Some(oldLicense) == LicenseIn(before, target) && Some(oldSession) == SessionIn(before, target)
      requires disk.Now() == PutRecovery(before, target, oldLicense, oldSession)
      modifies disk
      ensures outcome != Refused && (outcome == RestoreFailed ==> disk.faults > old(disk.faults))
      ensures outcome == Copied ==> LicenseIn(disk.Now(), target) == Some(license) && SessionIn(disk.Now(), target) == Some(session)
      ensures outcome == Copied ==> IsTrimmed(license)
      ensures outcome == Restored ==>
                LicenseIn(disk.Now(), target) == Some(Trim(oldLicense)) && SessionIn(disk.Now(), target) == Some(oldSession)
      ensures Guarded(before, target, disk.Now())
      ensures old(disk.trace) <= disk.trace
      ensures forall i :: |old(disk.trace)| <= i < |disk.trace| ==> CopySafe(before, target, disk.trace[i])
      ensures disk.faults >= old(disk.faults)
      ensures disk.faults == old(disk.faults) ==> (outcome == Copied, disk.Now()) == Copy(before, source, target)
    {
      var copied := Overwrite(before, target, license, session);
      if copied {
        var writtenLicense := GetLicenseKey(target);
        var writtenSession := TextAt(disk.files, SessionPath(target));
        CopyStages(before, source, target, old(disk.Now()), disk.Now());
        PutsAreReadBack(old(disk.Now()), target, license, session);
        TrimmedExactlyWhen(license);
        if writtenLicense == Some(license) && writtenSession == Some(session) { return Copied; }
      }
      outcome := Restore(before, target, oldLicense, oldSession);
    }

    /** The catch block of `CopyTo`. */
    method Restore(ghost before: Snapshot, target: StorageMode, oldLicense: Text, oldSession: Text) returns (outcome: CopyOutcome)
      requires Readable(before, target) && Guarded(before, target, disk.Now())
      modifies disk
      ensures outcome == Restored || outcome == RestoreFailed
      ensures outcome == Restored ==>
                && disk.Now() == PutSession(PutLicense(old(disk.Now()), target, oldLicense), target, oldSession)
                && LicenseIn(disk.Now(), target) == Some(Trim(oldLicense))
                && SessionIn(disk.Now(), target) == Some(oldSession)
      ensures Guarded(before, target, disk.Now())
      ensures old(disk.trace) <= disk.trace
      ensures forall i :: |old(disk.trace)| <= i < |disk.trace| ==> CopySafe(before, target, disk.trace[i])
      ensures disk.faults >= old(disk.faults) && (disk.faults == old(disk.faults) ==> outcome == Restored)
    {
      var restored := Overwrite(before, target, oldLicense, oldSession);
      PutsAreReadBack(old(disk.Now()), target, oldLicense, oldSession);
      return if restored then Restored else RestoreFailed;
    }

    /** The recovery record `CopyTo` writes before it overwrites anything. */
    method KeepForRecovery(target: StorageMode, license: Text, session: Text) returns (ok: bool)
      requires LicenseIn(disk.Now(), target) == Some(license) && SessionIn(disk.Now(), target) == Some(session)
      modifies disk
      ensures disk.Now() == if ok then PutRecovery(old(disk.Now()), target, license, session) else old(disk.Now())
      ensures ok ==> Guarded(old(disk.Now()), target, disk.Now())
      ensures old(disk.trace) <= disk.trace
      ensures forall i :: |old(disk.trace)| <= i < |disk.trace| ==> CopySafe(old(disk.Now()), target, disk.trace[i])
      ensures disk.faults >= old(disk.faults) && (disk.faults == old(disk.faults) <==> ok)
    {
      ok := true;
      if license != EMPTY || session != EMPTY {
        ok := Write(disk, RecoveryPath(target), Protected(RecoveryRecord(license, session)), true);
      }
    }

    /** `SaveLicenseKey` and `ReplaceSession`, as `CopyTo` calls them going forward and when it restores. */
    method Overwrite(ghost before: Snapshot, target: StorageMode, license: Text, session: Text) returns (ok: bool)
      requires Readable(before, target) && Guarded(before, target, disk.Now())
      modifies disk
      ensures ok ==> disk.Now() == PutSession(PutLicense(old(disk.Now()), target, license), target, session)
      ensures Guarded(before, target, disk.Now())
      ensures old(disk.trace) <= disk.trace
      ensures forall i :: |old(disk.trace)| <= i < |disk.trace| ==> CopySafe(before, target, disk.trace[i])
      ensures disk.faults >= old(disk.faults) && (disk.faults == old(disk.faults) <==> ok)
    {
      ok := SaveLicenseKey(license, target);
      GuardedThroughPuts(before, target, old(disk.Now()), disk.Now(), license);
      TracedPutsAreSafe(before, target, old(disk.Now()), license, old(disk.trace), disk.trace);
      if !ok { return; }
      ghost var middle, traced := disk.Now(), disk.trace;
      ok := ReplaceSession(target, session);
      GuardedThroughPuts(before, target, middle, disk.Now(), session);
      TracedPutsAreSafe(before, target, middle, session, traced, disk.trace);
    }
  }
}
