/** What a fresh `Load` makes of the files on disk, and the stages a `Save` passes through. */
module SettingsFiles {
  import Scheduling
  import opened Options
  import opened Texts
  import opened Preferences
  import opened Disks
  import opened AtomicFile
  import opened RuntimeModes
  import opened ProtectedStore
  import opened SecretStores

  function SettingsPath(mode: StorageMode): Path { Main(SettingsFile(mode)) }

  /** Damaged: falls through to the next candidate. Invalid: parses, but `InvalidDataException` escapes from Load. */
  datatype FileRead = Missing | DamagedFile | Invalid | Good(settings: AppSettings)

  function Read(d: Option<Data>, mode: StorageMode): FileRead {
    match d
    case None => Missing
    case Some(SettingsData(s)) => if Validates(s) then Good(s.(storageMode := mode)) else Invalid
    case Some(NullData) => Invalid
    case Some(_) => DamagedFile
  }

  predicate FallsThrough(r: FileRead) { r.Missing? || r.DamagedFile? }

  datatype LoadOutcome = Loaded(settings: AppSettings) | Escaped

  /** What Load does once the primary is missing or damaged. */
  function FromBackup(backup: Option<Data>, mode: StorageMode): LoadOutcome {
    match Read(backup, mode)
    case Good(s) => Loaded(s)
    case Invalid => Escaped
    case _ => Loaded(DEFAULTS.(storageMode := mode))
  }

  function FromFiles(primary: Option<Data>, backup: Option<Data>, mode: StorageMode): LoadOutcome {
    match Read(primary, mode)
    case Good(s) => Loaded(s)
    case Invalid => Escaped
    case _ => FromBackup(backup, mode)
  }

  /** A file that is missing, or that holds neither settings nor the JSON literal null. */
  predicate Unreadable(d: Option<Data>) {
    d.Some? ==> !d.value.SettingsData? && !d.value.NullData?
  }

  /** A file that parses but does not validate. */
  predicate Rejected(d: Option<Data>) {
    d.Some? && (d.value.NullData? || (d.value.SettingsData? && !Validates(d.value.settings)))
  }

  /** A file that holds these settings, up to the storage mode, which is that of the location. */
  predicate Holding(d: Option<Data>, s: AppSettings, mode: StorageMode) {
    d.Some? && d.value.SettingsData? && Validates(s) && s == d.value.settings.(storageMode := mode)
  }

  function Primary(files: Files, mode: StorageMode): Option<Data> { At(files, SettingsPath(mode)) }

  function Previous(files: Files, mode: StorageMode): Option<Data> { At(files, Backup(SettingsPath(mode))) }

  function Fallback(files: Files, mode: StorageMode): LoadOutcome {
    FromBackup(Previous(files, mode), mode)
  }

  /** The settings a restarted process would load. */
  function FreshLoad(files: Files, portable: bool): LoadOutcome {
    var mode := ConfiguredMode(files, portable);
    FromFiles(Primary(files, mode), Previous(files, mode), mode)
  }

  /**
    What Load makes of what the two files hold: the primary if it validates, the backup only if the primary
    cannot be read, the defaults only if neither can; a file that parses and does not validate makes it fail.
   */
  lemma LoadsExactly(files: Files, portable: bool, s: AppSettings)
    ensures var mode := ConfiguredMode(files, portable);
            var primary, previous := Primary(files, mode), Previous(files, mode);
            && (FreshLoad(files, portable) == Escaped <==> Rejected(primary) || (Unreadable(primary) && Rejected(previous)))
            && (FreshLoad(files, portable) == Loaded(s) <==>
                  || Holding(primary, s, mode)
                  || (Unreadable(primary) && Holding(previous, s, mode))
                  || (Unreadable(primary) && Unreadable(previous) && s == DEFAULTS.(storageMode := mode)))
            && (Read(primary, mode) == DamagedFile <==> primary.Some? && Unreadable(primary))
  {
  }

  /** What a first start finds. */
  lemma FirstStart(portable: bool)
    ensures FreshLoad(map[], portable) ==
            Loaded(AppSettings(if portable then PortableLocal else ProfileAppData, Keyboard, 60, false, 126, 2, Light,
                               false, true, false, false, false, false, Scheduling.Shutdown, ""))
  {
    ModeOfFirstStart(portable);
  }

  // ----- Save, stage by stage -----

  function MovedAside(files: Files, mode: StorageMode, id: nat): Files
    requires SettingsPath(mode) in files
  {
    files[Damaged(SettingsPath(mode), id) := files[SettingsPath(mode)]] - {SettingsPath(mode)}
  }

  /** The files once a flagged primary, if there is one, has been moved aside. */
  function Start(files: Files, mode: StorageMode, preserveDamaged: bool, id: nat): Files {
    if preserveDamaged && SettingsPath(mode) in files then MovedAside(files, mode, id) else files
  }

  function SavedFiles(files: Files, mode: StorageMode, preserveDamaged: bool, candidate: AppSettings, id: nat): Files {
    Written(Start(files, mode, preserveDamaged, id), SettingsPath(mode), SettingsData(candidate), true)
  }

  /** Everything on disk at which `Save` can be stopped. */
  ghost function SaveStages(s: Snapshot, mode: StorageMode, preserveDamaged: bool, candidate: AppSettings, id: nat): set<Snapshot> {
    {s, s.(files := Start(s.files, mode, preserveDamaged, id)), s.(files := SavedFiles(s.files, mode, preserveDamaged, candidate, id))}
  }

  /** Nothing is lost by moving the primary aside: it is not going to be moved, or Load does without it. */
  predicate MoveIsHarmless(files: Files, mode: StorageMode, preserveDamaged: bool, current: AppSettings) {
    preserveDamaged && SettingsPath(mode) in files ==> Fallback(files, mode) == Loaded(current)
  }

  ghost predicate SaveRecoverable(s: Snapshot, mode: StorageMode, preserveDamaged: bool, current: AppSettings,
                                  candidate: AppSettings, id: nat, portable: bool) {
    forall stage :: stage in SaveStages(s, mode, preserveDamaged, candidate, id) ==>
                      FreshLoad(stage.files, portable) in {Loaded(current), Loaded(candidate)}
  }

  /** What a restart would load at each stage of a Save. */
  lemma StageLoads(files: Files, preserveDamaged: bool, candidate: AppSettings, id: nat, portable: bool)
    requires Validates(candidate) && candidate.storageMode == ConfiguredMode(files, portable)
    ensures var mode := ConfiguredMode(files, portable);
            var start, saved := Start(files, mode, preserveDamaged, id), SavedFiles(files, mode, preserveDamaged, candidate, id);
            && ConfiguredMode(start, portable) == mode && ConfiguredMode(saved, portable) == mode
            && FreshLoad(start, portable) ==
               (if preserveDamaged && SettingsPath(mode) in files then Fallback(files, mode) else FreshLoad(files, portable))
            && Primary(saved, mode) == Some(SettingsData(candidate))
            && FreshLoad(saved, portable) == Loaded(candidate)
  {
    var mode := ConfiguredMode(files, portable);
    var start, saved := Start(files, mode, preserveDamaged, id), SavedFiles(files, mode, preserveDamaged, candidate, id);
    StartKeepsTheRest(files, mode, preserveDamaged, id);
    assert At(saved, BootstrapPath(portable)) == At(start, BootstrapPath(portable));
    assert At(saved, Backup(BootstrapPath(portable))) == At(start, Backup(BootstrapPath(portable)));
    assert At(saved, Main(BootstrapJson)) == At(start, Main(BootstrapJson));
    SameBootstrap(files, start, portable);
    SameBootstrap(files, saved, portable);
    assert Primary(saved, mode) == Some(SettingsData(candidate));
    assert Read(Primary(saved, mode), mode) == Good(candidate);
  }

  lemma StartKeepsTheRest(files: Files, mode: StorageMode, preserveDamaged: bool, id: nat)
    ensures var start := Start(files, mode, preserveDamaged, id);
            && (forall path: Path :: path != SettingsPath(mode) && !path.Damaged? ==> At(start, path) == At(files, path))
            && Primary(start, mode) == (if preserveDamaged then None else Primary(files, mode))
  {
  }

  lemma SameBootstrap(a: Files, b: Files, portable: bool)
    requires At(a, BootstrapPath(portable)) == At(b, BootstrapPath(portable))
    requires At(a, Backup(BootstrapPath(portable))) == At(b, Backup(BootstrapPath(portable)))
    requires At(a, Main(BootstrapJson)) == At(b, Main(BootstrapJson))
    ensures ConfiguredMode(a, portable) == ConfiguredMode(b, portable)
  {
  }

  /**
    A stopped Save loses nothing, the next Load giving exactly the old settings or exactly the
    candidate, if and only if moving the primary aside is harmless (or leaves the candidate itself).
   */
  lemma SaveRecoverableExactlyWhen(s: Snapshot, preserveDamaged: bool, current: AppSettings, candidate: AppSettings,
                                   id: nat, portable: bool)
    requires FreshLoad(s.files, portable) == Loaded(current)
    requires Validates(candidate) && candidate.storageMode == ConfiguredMode(s.files, portable)
    ensures var mode := ConfiguredMode(s.files, portable);
            SaveRecoverable(s, mode, preserveDamaged, current, candidate, id, portable) <==>
              MoveIsHarmless(s.files, mode, preserveDamaged, current) || Fallback(s.files, mode) == Loaded(candidate)
  {
    var mode := ConfiguredMode(s.files, portable);
    StageLoads(s.files, preserveDamaged, candidate, id, portable);
    assert s.(files := Start(s.files, mode, preserveDamaged, id)) in SaveStages(s, mode, preserveDamaged, candidate, id);
  }

  /** A primary that Load could not read is not missed. */
  lemma DamagedPrimaryIsHarmless(files: Files, portable: bool, current: AppSettings)
    requires FreshLoad(files, portable) == Loaded(current)
    requires Read(Primary(files, ConfiguredMode(files, portable)), ConfiguredMode(files, portable)) == DamagedFile
    ensures MoveIsHarmless(files, ConfiguredMode(files, portable), true, current)
  {
  }

  // ----- what a Save keeps -----

  /**
    If the primary written by a Save is damaged or lost later, the next Load returns the settings that were in
    force before that Save: exactly unless a flagged primary was moved aside that was needed, or the one that
    was replaced could not be read itself (and the defaults were not in force).
   */
  lemma PreviousSettingsSurvive(files: Files, preserveDamaged: bool, current: AppSettings, candidate: AppSettings, id: nat,
                                portable: bool, damaged: Option<Data>)
    requires FreshLoad(files, portable) == Loaded(current)
    requires Validates(candidate) && candidate.storageMode == ConfiguredMode(files, portable)
    requires Unreadable(damaged)
    ensures var mode := ConfiguredMode(files, portable);
            var later := Spoiled(SavedFiles(files, mode, preserveDamaged, candidate, id), SettingsPath(mode), damaged);
            FreshLoad(later, portable) == Loaded(current) <==>
              if preserveDamaged && SettingsPath(mode) in files then MoveIsHarmless(files, mode, preserveDamaged, current)
              else Primary(files, mode).None? || !Unreadable(Primary(files, mode)) || current == DEFAULTS.(storageMode := mode)
  {
    var mode := ConfiguredMode(files, portable);
    var start, saved := Start(files, mode, preserveDamaged, id), SavedFiles(files, mode, preserveDamaged, candidate, id);
    var later := Spoiled(saved, SettingsPath(mode), damaged);
    StartKeepsTheRest(files, mode, preserveDamaged, id);
    assert At(later, BootstrapPath(portable)) == At(start, BootstrapPath(portable));
    assert At(later, Backup(BootstrapPath(portable))) == At(start, Backup(BootstrapPath(portable)));
    assert At(later, Main(BootstrapJson)) == At(start, Main(BootstrapJson));
    SameBootstrap(files, later, portable);
    assert Primary(later, mode) == damaged;
    assert Previous(later, mode) == if SettingsPath(mode) in start then Primary(start, mode) else Previous(start, mode);
  }

  /** The primary that is moved aside is kept as it is. */
  lemma DamagedPrimaryIsKept(files: Files, mode: StorageMode, candidate: AppSettings, id: nat)
    requires SettingsPath(mode) in files
    ensures At(SavedFiles(files, mode, true, candidate, id), Damaged(SettingsPath(mode), id)) == Primary(files, mode)
    ensures Previous(SavedFiles(files, mode, true, candidate, id), mode) == Previous(files, mode)
  {
  }

  // ----- migration -----

  /** The settings of `mode` and its protected data are as before. */
  ghost predicate Untouched(before: Snapshot, mode: StorageMode, s: Snapshot) {
    && Primary(s.files, mode) == Primary(before.files, mode)
    && Previous(s.files, mode) == Previous(before.files, mode)
    && LicenseIn(s, mode) == LicenseIn(before, mode)
    && SessionIn(s, mode) == SessionIn(before, mode)
  }

  /** What a process stopped anywhere in a migration leaves: the untouched source in force, or the complete target. */
  ghost predicate MigrationSafe(before: Snapshot, source: StorageMode, target: StorageMode, current: AppSettings,
                                s: Snapshot, portable: bool) {
    && Untouched(before, source, s)
    && (ConfiguredMode(s.files, portable) == source ==> FreshLoad(s.files, portable) == Loaded(current))
    && (ConfiguredMode(s.files, portable) != source ==>
          && ConfiguredMode(s.files, portable) == target
          && FreshLoad(s.files, portable) == Loaded(current.(storageMode := target))
          && LicenseIn(s, target) == LicenseIn(before, source)
          && SessionIn(s, target) == SessionIn(before, source))
  }

  /** Nothing outside the target location has changed. */
  ghost predicate Uncommitted(before: Snapshot, target: StorageMode, s: Snapshot) {
    && (forall path :: !IsSecretOf(path, target) && path != SettingsPath(target) && path != Backup(SettingsPath(target)) ==>
                         At(s.files, path) == At(before.files, path))
    && (target == PortableLocal ==> s.credential == before.credential)
  }

  lemma UncommittedIsSafe(before: Snapshot, source: StorageMode, target: StorageMode, current: AppSettings, s: Snapshot, portable: bool)
    requires source != target && ConfiguredMode(before.files, portable) == source
    requires FreshLoad(before.files, portable) == Loaded(current)
    requires Uncommitted(before, target, s)
    ensures ConfiguredMode(s.files, portable) == source && MigrationSafe(before, source, target, current, s, portable)
  {
    SameBootstrap(s.files, before.files, portable);
    SourceIsUntouched(before, source, target, s);
  }

  lemma SourceIsUntouched(before: Snapshot, source: StorageMode, target: StorageMode, s: Snapshot)
    requires source != target && Uncommitted(before, target, s)
    ensures Untouched(before, source, s)
  {
    assert At(s.files, LicensePath(source)) == At(before.files, LicensePath(source));
    assert At(s.files, SessionPath(source)) == At(before.files, SessionPath(source));
  }

  /** The target is complete: verified settings, and the license and session of the source. */
  ghost predicate Prepared(before: Snapshot, source: StorageMode, target: StorageMode, candidate: AppSettings, s: Snapshot) {
    && Uncommitted(before, target, s)
    && Primary(s.files, target) == Some(SettingsData(candidate))
    && LicenseIn(s, target) == LicenseIn(before, source)
    && SessionIn(s, target) == SessionIn(before, source)
  }

  function Committed(s: Snapshot, target: StorageMode, portable: bool): Snapshot {
    s.(files := Written(s.files, BootstrapPath(portable), BootData(target), true))
  }

  function OtherMode(mode: StorageMode): StorageMode {
    if mode == PortableLocal then ProfileAppData else PortableLocal
  }

  /** A location whose primary is damaged, with settings that differ from the defaults in its backup. */
  function DamagedDisk(mode: StorageMode): Snapshot {
    Snapshot(map[SettingsPath(mode) := Garbage(0), Backup(SettingsPath(mode)) := SettingsData(RecoveredSettings(mode))], None)
  }

  function RecoveredSettings(mode: StorageMode): AppSettings {
    DEFAULTS.(storageMode := mode, intervalSeconds := 300)
  }

  /** That disk after a migration: whether it succeeds, and what is on disk. */
  function StaleMigration(portable: bool): (bool, Snapshot) {
    var mode := DefaultMode(portable);
    Migrated(DamagedDisk(mode), mode, OtherMode(mode), RecoveredSettings(OtherMode(mode)), portable)
  }

  lemma DamagedDiskLoads(portable: bool)
    ensures var mode := DefaultMode(portable);
            && ConfiguredMode(DamagedDisk(mode).files, portable) == mode
            && FreshLoad(DamagedDisk(mode).files, portable) == Loaded(RecoveredSettings(mode))
            && Read(Primary(DamagedDisk(mode).files, mode), mode) == DamagedFile
  {
  }

  /** No secret is stored on that disk, so the migration copies none. */
  lemma StaleMigrationIsComplete(portable: bool)
    ensures var mode := DefaultMode(portable);
            var target := OtherMode(mode);
            var placed := SettingsPlaced(DamagedDisk(mode), target, RecoveredSettings(target));
            StaleMigration(portable) == (true, Committed(placed, target, portable))
  {
    var mode := DefaultMode(portable);
    var target := OtherMode(mode);
    var placed := SettingsPlaced(DamagedDisk(mode), target, RecoveredSettings(target));
    assert forall m: StorageMode :: LicensePath(m) !in placed.files && SessionPath(m) !in placed.files;
    assert LicenseIn(placed, mode) == LicenseIn(placed, target) == Some(EMPTY);
    assert SessionIn(placed, mode) == SessionIn(placed, target) == Some(EMPTY);
    assert forall m: StorageMode :: Backup(LicensePath(m)) !in placed.files && Backup(SessionPath(m)) !in placed.files;
    assert Without(placed.files, LicensePath(target)) == placed.files;
    assert Without(placed.files, SessionPath(target)) == placed.files;
    assert PutLicense(placed, target, EMPTY) == placed && PutSession(placed, target, EMPTY) == placed;
  }

  lemma MovedAsideLoads(files: Files, mode: StorageMode, portable: bool, id: nat)
    requires ConfiguredMode(files, portable) == mode && Previous(files, mode).None?
    ensures FreshLoad(Start(files, mode, true, id), portable) == Loaded(DEFAULTS.(storageMode := mode))
  {
    StartKeepsTheRest(files, mode, true, id);
    SameBootstrap(Start(files, mode, true, id), files, portable);
  }

  /**
    The settings recovered from the backup are migrated, and are in force. A Save under a flag that is still
    set then moves the good new primary aside, and stopping there loses them.
   */
  lemma StaleFlagLosesSettings(portable: bool, candidate: AppSettings, id: nat)
    ensures var target := OtherMode(DefaultMode(portable));
            var (ok, after) := StaleMigration(portable);
            var moved := after.(files := Start(after.files, target, true, id));
            && ok && ConfiguredMode(after.files, portable) == target
            && Primary(after.files, target) == Some(SettingsData(RecoveredSettings(target)))
            && FreshLoad(after.files, portable) == Loaded(RecoveredSettings(target))
            && moved in SaveStages(after, target, true, candidate, id)
            && FreshLoad(moved.files, portable) == Loaded(DEFAULTS.(storageMode := target))
  {
    var target := OtherMode(DefaultMode(portable));
    var placed := SettingsPlaced(DamagedDisk(DefaultMode(portable)), target, RecoveredSettings(target));
    StaleMigrationIsComplete(portable);
    CommittedModeIsConfigured(placed.files, portable, target);
    CommitTouchesNothingElse(placed, target, target, portable);
    MovedAsideLoads(Committed(placed, target, portable).files, target, portable, id);
  }

  /** License and session of both locations are the same. */
  ghost predicate SameSecrets(a: Snapshot, b: Snapshot) {
    forall mode: StorageMode :: LicenseIn(a, mode) == LicenseIn(b, mode) && SessionIn(a, mode) == SessionIn(b, mode)
  }

  lemma StagesKeepSecrets(s: Snapshot, mode: StorageMode, preserveDamaged: bool, candidate: AppSettings, id: nat, stage: Snapshot)
    requires stage in SaveStages(s, mode, preserveDamaged, candidate, id)
    ensures SameSecrets(s, stage)
  {
    forall m: StorageMode ensures LicenseIn(s, m) == LicenseIn(stage, m) && SessionIn(s, m) == SessionIn(stage, m) {
      assert At(stage.files, LicensePath(m)) == At(s.files, LicensePath(m));
      assert At(stage.files, SessionPath(m)) == At(s.files, SessionPath(m));
    }
  }

  /** Wherever it is stopped, a Save under a truthful flag leaves the old settings or the candidate to the next Load. */
  lemma TruthfulSaveIsRecoverable(s: Snapshot, preserveDamaged: bool, current: AppSettings, candidate: AppSettings, id: nat, portable: bool)
    requires FreshLoad(s.files, portable) == Loaded(current)
    requires Validates(candidate) && candidate.storageMode == ConfiguredMode(s.files, portable)
    requires var mode := ConfiguredMode(s.files, portable);
             preserveDamaged ==> Read(Primary(s.files, mode), mode) == DamagedFile
    ensures SaveRecoverable(s, ConfiguredMode(s.files, portable), preserveDamaged, current, candidate, id, portable)
  {
    if preserveDamaged {
      DamagedPrimaryIsHarmless(s.files, portable, current);
    }
    SaveRecoverableExactlyWhen(s, preserveDamaged, current, candidate, id, portable);
  }

  /** The target settings in place, nothing else touched. */
  function SettingsPlaced(s: Snapshot, target: StorageMode, candidate: AppSettings): Snapshot {
    s.(files := Written(s.files, SettingsPath(target), SettingsData(candidate), true))
  }

  /** A migration when no file operation fails: whether it succeeds, and everything on disk afterwards. */
  function Migrated(s: Snapshot, source: StorageMode, target: StorageMode, candidate: AppSettings, portable: bool): (bool, Snapshot) {
    var (ok, copied) := Copy(SettingsPlaced(s, target, candidate), source, target);
    (ok, if ok then Committed(copied, target, portable) else copied)
  }

  lemma CommittedIsSafe(before: Snapshot, source: StorageMode, target: StorageMode, current: AppSettings, s: Snapshot, portable: bool)
    requires source != target && Validates(current)
    requires Prepared(before, source, target, current.(storageMode := target), s)
    ensures var committed := Committed(s, target, portable);
            && ConfiguredMode(committed.files, portable) == target
            && FreshLoad(committed.files, portable) == Loaded(current.(storageMode := target))
            && MigrationSafe(before, source, target, current, committed, portable)
  {
    var committed := Committed(s, target, portable);
    CommittedModeIsConfigured(s.files, portable, target);
    SourceIsUntouched(before, source, target, s);
    CommitTouchesNothingElse(s, source, target, portable);
    CommitTouchesNothingElse(s, target, target, portable);
    assert Untouched(before, source, committed);
    assert Read(Primary(committed.files, target), target) == Good(current.(storageMode := target));
    assert FreshLoad(committed.files, portable) == FromFiles(Primary(committed.files, target), Previous(committed.files, target), target);
  }

  /** Without failures a migration succeeds exactly when all secrets can be read and the license is stored trimmed. */
  lemma MigrationSucceedsExactlyWhen(s: Snapshot, source: StorageMode, target: StorageMode, candidate: AppSettings, portable: bool)
    ensures Migrated(s, source, target, candidate, portable).0 <==> Open(s, source, target)
  {
    CopySucceedsExactlyWhen(SettingsPlaced(s, target, candidate), source, target);
  }

  lemma CommitTouchesNothingElse(s: Snapshot, mode: StorageMode, target: StorageMode, portable: bool)
    ensures var committed := Committed(s, target, portable);
            && Primary(committed.files, mode) == Primary(s.files, mode)
            && Previous(committed.files, mode) == Previous(s.files, mode)
            && LicenseIn(committed, mode) == LicenseIn(s, mode)
            && SessionIn(committed, mode) == SessionIn(s, mode)
  {
  }
}

/** The settings store (SettingsService.cs), with what a restart would find after each of its file operations. */
module SettingsServices {
  import opened Options
  import opened Preferences
  import opened Disks
  import opened AtomicFile
  import opened RuntimeModes
  import opened ProtectedStore
  import opened SecretStores
  import opened SettingsFiles

  datatype SaveOutcome = Saved | InvalidData | IoFailure

  class SettingsService {
    const secrets: SecretStore
    var current: AppSettings
    var mode: StorageMode
    var preserveDamaged: bool

    constructor (secrets: SecretStore)
      ensures this.secrets == secrets && current == DEFAULTS && !preserveDamaged
      ensures mode == ConfiguredMode(secrets.disk.files, secrets.portable)
    {
      this.secrets := secrets;
      current := DEFAULTS;
      preserveDamaged := false;
      new;
      mode := GetConfiguredStorageMode(secrets.disk, secrets.portable);
    }

    /** Memory agrees with disk: the current settings are valid and what a fresh Load would return. */
    ghost predicate Consistent()
      reads this, secrets.disk
    {
      && Validates(current) && current.storageMode == mode
      && mode == ConfiguredMode(secrets.disk.Now().files, secrets.portable)
      && FreshLoad(secrets.disk.Now().files, secrets.portable) == Loaded(current)
    }

    /** The preserve flag tells the truth about the primary it is going to be applied to. */
    ghost predicate FlagIsTrue()
      reads this, secrets.disk
    {
      preserveDamaged ==> Read(Primary(secrets.disk.Now().files, mode), mode) == DamagedFile
    }

    /** A primary that cannot be read is flagged. */
    ghost predicate UnreadableIsFlagged()
      reads this, secrets.disk
    {
      var primary := Primary(secrets.disk.Now().files, mode);
      primary.Some? && Unreadable(primary) ==> preserveDamaged
    }

    method Load() returns (outcome: LoadOutcome)
      modifies this
      ensures outcome == FreshLoad(secrets.disk.Now().files, secrets.portable)
      ensures mode == ConfiguredMode(secrets.disk.Now().files, secrets.portable)
      ensures outcome.Loaded? ==> current == outcome.settings && Consistent()
      ensures outcome.Escaped? ==> current == old(current)
      ensures preserveDamaged <==> Read(Primary(secrets.disk.Now().files, mode), mode) == DamagedFile
      ensures preserveDamaged <==> Primary(secrets.disk.Now().files, mode).Some? && Unreadable(Primary(secrets.disk.Now().files, mode))
    {
      mode := GetConfiguredStorageMode(secrets.disk, secrets.portable);
      preserveDamaged := false;
      var paths := [SettingsPath(mode), Backup(SettingsPath(mode))];
      ghost var files := secrets.disk.Now().files;
      for i := 0 to |paths|
        invariant current == old(current) && mode == ConfiguredMode(files, secrets.portable)
        invariant i > 0 ==> FallsThrough(Read(Primary(files, mode), mode))
        invariant i > 1 ==> FallsThrough(Read(Previous(files, mode), mode))
        invariant preserveDamaged <==> i > 0 && Read(Primary(files, mode), mode).DamagedFile?
      {
        assert At(secrets.disk.files, paths[i]) == if i == 0 then Primary(files, mode) else Previous(files, mode);
        match Read(At(secrets.disk.files, paths[i]), mode) {
          case Missing =>
          case DamagedFile =>
            if paths[i] == SettingsPath(mode) { preserveDamaged := true; }
          case Invalid => return Escaped;
          case Good(settings) =>
            current := settings;
            return Loaded(settings);
        }
      }
      current := DEFAULTS.(storageMode := mode);
      return Loaded(current);
    }

    /** The first part of `Save`: a primary that Load found damaged is kept as evidence. */
    method MoveDamagedAside() returns (ok: bool, ghost id: nat)
      modifies this`preserveDamaged, secrets.disk
      ensures ok ==>
                secrets.disk.Now() == old(secrets.disk.Now()).(files := Start(old(secrets.disk.Now()).files, mode, old(preserveDamaged), id))
      ensures ok ==> preserveDamaged == (old(preserveDamaged) && Primary(old(secrets.disk.Now()).files, mode).None?)
      ensures !ok ==> secrets.disk.Now() == old(secrets.disk.Now()) && preserveDamaged == old(preserveDamaged)
      ensures Through(old(secrets.disk.trace), secrets.disk.trace, {old(secrets.disk.Now()), secrets.disk.Now()})
      ensures secrets.disk.faults >= old(secrets.disk.faults) && (secrets.disk.faults == old(secrets.disk.faults) <==> ok)
    {
      id := 0;
      ok := true;
      var path := SettingsPath(mode);
      if preserveDamaged && path in secrets.disk.files {
        var guid: nat := *;
        id := guid;
        ok := secrets.disk.Move(path, Damaged(path, guid));
        if ok {
          preserveDamaged := false;
          assert secrets.disk.Now().files == MovedAside(old(secrets.disk.Now()).files, mode, id);
        }
      }
    }

    /**
      A Save that failed after it moved the primary aside under the preserve flag, when nothing but that
      primary holds the settings.
     */
    ghost predicate LosesSettings(before: Snapshot, preserved: bool, settings: AppSettings, outcome: SaveOutcome, after: Snapshot)
      reads this`mode
    {
      outcome == IoFailure && after != before && !MoveIsHarmless(before.files, mode, preserved, settings)
    }

    /**
      `Save`. `id` names the file a damaged primary is moved to. Stopped at any step it leaves the next Load
      with exactly the old settings or exactly the new ones, as long as the preserve flag is truthful.
     */
    method Save(settings: AppSettings) returns (outcome: SaveOutcome, ghost id: nat)
      modifies this, secrets.disk
      ensures outcome == InvalidData <==> !Validates(settings)
      ensures mode == old(mode)
      ensures current == if outcome == Saved then settings.(storageMode := mode) else old(current)
      ensures secrets.disk.Now() in SaveStages(old(secrets.disk.Now()), mode, old(preserveDamaged), settings.(storageMode := mode), id)
      ensures Through(old(secrets.disk.trace), secrets.disk.trace,
                      SaveStages(old(secrets.disk.Now()), mode, old(preserveDamaged), settings.(storageMode := mode), id))
      ensures outcome == Saved ==>
                secrets.disk.Now().files == SavedFiles(old(secrets.disk.Now()).files, mode, old(preserveDamaged), current, id)
      ensures outcome == Saved && old(Consistent() && FlagIsTrue() && UnreadableIsFlagged()) ==>
                forall damaged :: Unreadable(damaged) ==>
                  FreshLoad(Spoiled(secrets.disk.Now().files, SettingsPath(mode), damaged), secrets.portable) == Loaded(old(current))
      ensures outcome == Saved && old(preserveDamaged && SettingsPath(mode) in secrets.disk.files) ==>
                At(secrets.disk.Now().files, Damaged(SettingsPath(mode), id)) == old(Primary(secrets.disk.Now().files, mode))
      ensures old(UnreadableIsFlagged()) ==> UnreadableIsFlagged()
      ensures outcome == InvalidData ==> secrets.disk.Now() == old(secrets.disk.Now()) && preserveDamaged == old(preserveDamaged)
      ensures old(FlagIsTrue()) ==> FlagIsTrue() && (outcome == Saved ==> !preserveDamaged)
      ensures outcome == Saved && mode == old(ConfiguredMode(secrets.disk.Now().files, secrets.portable)) ==> Consistent()
      ensures old(Consistent()) && old(FlagIsTrue()) ==> Consistent()
      ensures old(Consistent()) && old(FlagIsTrue()) ==>
                forall i :: |old(secrets.disk.trace)| <= i < |secrets.disk.trace| ==>
                  FreshLoad(secrets.disk.trace[i].files, secrets.portable) in {Loaded(old(current)), Loaded(settings.(storageMode := mode))}
      ensures old(Consistent()) ==>
                (Consistent() <==> !LosesSettings(old(secrets.disk.Now()), old(preserveDamaged), old(current), outcome, secrets.disk.Now()))
      ensures preserveDamaged ==> old(preserveDamaged)
      ensures SameSecrets(old(secrets.disk.Now()), secrets.disk.Now())
      ensures secrets.disk.faults >= old(secrets.disk.faults)
      ensures secrets.disk.faults == old(secrets.disk.faults) <==> outcome != IoFailure
    {
      id := 0;
      var candidate := settings.(storageMode := mode);
      if !Validates(candidate) { return InvalidData, id; }
      var ok;
      ok, id := WriteCandidate(candidate);
      StagesKeepSecrets(old(secrets.disk.Now()), mode, old(preserveDamaged), candidate, id, secrets.disk.Now());
      if old(Consistent()) && old(FlagIsTrue()) {
        TruthfulSaveIsRecoverable(old(secrets.disk.Now()), old(preserveDamaged), old(current), candidate, id, secrets.portable);
      }
      if !ok { return IoFailure, id; }
      SavedKeepsPrevious(old(secrets.disk.Now()).files, old(preserveDamaged), old(current), candidate, id, secrets.portable);
      current := candidate;
      return Saved, id;
    }

    /** The file operations of `Save`. */
    method WriteCandidate(candidate: AppSettings) returns (ok: bool, ghost id: nat)
      requires Validates(candidate) && candidate.storageMode == mode
      modifies this`preserveDamaged, secrets.disk
      ensures secrets.disk.Now() in SaveStages(old(secrets.disk.Now()), mode, old(preserveDamaged), candidate, id)
      ensures Through(old(secrets.disk.trace), secrets.disk.trace,
                      SaveStages(old(secrets.disk.Now()), mode, old(preserveDamaged), candidate, id))
      ensures ok ==> secrets.disk.Now().files == SavedFiles(old(secrets.disk.Now()).files, mode, old(preserveDamaged), candidate, id)
      ensures old(FlagIsTrue()) ==> FlagIsTrue() && (ok ==> !preserveDamaged)
      ensures ok && mode == old(ConfiguredMode(secrets.disk.Now().files, secrets.portable)) ==>
                ConfiguredMode(secrets.disk.Now().files, secrets.portable) == mode
                && FreshLoad(secrets.disk.Now().files, secrets.portable) == Loaded(candidate)
      ensures old(Consistent()) && !ok ==>
                (Consistent() <==> secrets.disk.Now() == old(secrets.disk.Now())
                                   || MoveIsHarmless(old(secrets.disk.Now()).files, mode, old(preserveDamaged), current))
      ensures old(Consistent()) && old(FlagIsTrue()) && !ok ==> Consistent()
      ensures old(UnreadableIsFlagged()) ==> UnreadableIsFlagged()
      ensures preserveDamaged ==> old(preserveDamaged)
      ensures secrets.disk.faults >= old(secrets.disk.faults) && (secrets.disk.faults == old(secrets.disk.faults) <==> ok)
    {
      ghost var before := secrets.disk.Now();
      ok, id := MoveDamagedAside();
      ghost var traced := secrets.disk.trace;
      if mode == ConfiguredMode(before.files, secrets.portable) {
        StageLoads(before.files, old(preserveDamaged), candidate, id, secrets.portable);
      }
      if !ok { return; }
      ok := Write(secrets.disk, SettingsPath(mode), SettingsData(candidate), true);
      ThroughChain(old(secrets.disk.trace), traced, secrets.disk.trace,
                   {before, before.(files := Start(before.files, mode, old(preserveDamaged), id))},
                   {before.(files := Start(before.files, mode, old(preserveDamaged), id)), secrets.disk.Now()});
    }

    /** `MigrateStorage`. Wherever it fails or is stopped, MigrationSafe says what a restart finds. */
    method MigrateStorage(target: StorageMode) returns (ok: bool)
      modifies this, secrets.disk
      ensures preserveDamaged == old(preserveDamaged)
      ensures mode == if ok then target else old(mode)
      ensures target == old(mode) ==> ok && current == old(current) && secrets.disk.Now() == old(secrets.disk.Now())
      ensures !ok ==> current == old(current)
      ensures ok && target != old(mode) ==> current == old(current).(storageMode := target)
      ensures old(Consistent()) ==> Consistent()
      ensures old(UnreadableIsFlagged()) ==> UnreadableIsFlagged()
      ensures old(Consistent()) && ok && target != old(mode) ==>
                Open(secrets.disk.Now(), target, old(mode))
      ensures old(Consistent()) && target != old(mode) ==>
                MigrationSafe(old(secrets.disk.Now()), old(mode), target, old(current), secrets.disk.Now(), secrets.portable)
      ensures old(Consistent()) && target != old(mode) ==>
                MigrationTrace(old(secrets.disk.trace), secrets.disk.trace, old(secrets.disk.Now()), old(mode), target,
                               old(current), secrets.portable)
      ensures secrets.disk.faults >= old(secrets.disk.faults)
      ensures secrets.disk.faults == old(secrets.disk.faults) && target != old(mode) ==>
                (ok, secrets.disk.Now()) ==
                Migrated(old(secrets.disk.Now()), old(mode), target, old(current).(storageMode := target), secrets.portable)
      ensures secrets.disk.faults == old(secrets.disk.faults) && target != old(mode) ==>
                (ok <==> Open(old(secrets.disk.Now()), old(mode), target))
    {
      if mode == target { return true; }
      MigrationSucceedsExactlyWhen(secrets.disk.Now(), mode, target, current.(storageMode := target), secrets.portable);
      ok := MoveStorage(target);
    }

    /** A migration to another location. */
    method MoveStorage(target: StorageMode) returns (ok: bool)
      requires target != mode
      modifies this`mode, this`current, secrets.disk
      ensures mode == if ok then target else old(mode)
      ensures current == if ok then old(current).(storageMode := target) else old(current)
      ensures old(Consistent()) ==> Consistent()
      ensures old(UnreadableIsFlagged()) ==> UnreadableIsFlagged()
      ensures old(Consistent()) && ok ==> Open(secrets.disk.Now(), target, old(mode))
      ensures old(Consistent()) ==>
                MigrationSafe(old(secrets.disk.Now()), old(mode), target, old(current), secrets.disk.Now(), secrets.portable)
      ensures old(Consistent()) ==>
                MigrationTrace(old(secrets.disk.trace), secrets.disk.trace, old(secrets.disk.Now()), old(mode), target,
                               old(current), secrets.portable)
      ensures secrets.disk.faults >= old(secrets.disk.faults)
      ensures secrets.disk.faults == old(secrets.disk.faults) ==>
                (ok, secrets.disk.Now()) ==
                Migrated(old(secrets.disk.Now()), old(mode), target, old(current).(storageMode := target), secrets.portable)
    {
      ghost var prepared, traced;
      ok, prepared, traced := Relocate(target);
      if old(Consistent()) {
        MigrationIsSafe(old(secrets.disk.Now()), old(mode), target, old(current), prepared, secrets.disk.Now(), secrets.portable);
        TraceThroughCommit(old(secrets.disk.Now()), old(mode), target, old(current), old(secrets.disk.trace), traced, secrets.disk.trace,
                           prepared, secrets.disk.Now(), secrets.portable);
      }
    }

    /** A migration to another location, as the two sides of its commit point. */
    method Relocate(target: StorageMode) returns (ok: bool, ghost prepared: Snapshot, ghost traced: seq<Snapshot>)
      requires target != mode
      modifies this`mode, this`current, secrets.disk
      ensures mode == (if ok then target else old(mode))
      ensures current == (if ok then old(current).(storageMode := target) else old(current))
      ensures Uncommitted(old(secrets.disk.Now()), target, prepared)
      ensures secrets.disk.Now() != prepared || ok ==>
                Prepared(old(secrets.disk.Now()), old(mode), target, old(current).(storageMode := target), prepared)
      ensures secrets.disk.Now() == (if ok then Committed(prepared, target, secrets.portable) else prepared)
      ensures ok ==> Transferable(old(secrets.disk.Now()), old(mode))
      ensures Primary(secrets.disk.Now().files, mode) ==
                if ok then Some(SettingsData(current)) else Primary(old(secrets.disk.Now()).files, mode)
      ensures old(secrets.disk.trace) <= traced && Through(traced, secrets.disk.trace, {prepared, secrets.disk.Now()})
      ensures forall i :: |old(secrets.disk.trace)| <= i < |traced| ==> Uncommitted(old(secrets.disk.Now()), target, traced[i])
      ensures secrets.disk.faults >= old(secrets.disk.faults)
      ensures secrets.disk.faults == old(secrets.disk.faults) ==>
                (ok, secrets.disk.Now()) ==
                Migrated(old(secrets.disk.Now()), old(mode), target, old(current).(storageMode := target), secrets.portable)
    {
      var candidate := current.(storageMode := target);
      ok := PrepareTarget(mode, target, candidate);
      prepared, traced := secrets.disk.Now(), secrets.disk.trace;
      if !ok { return; }
      ok := Commit(target);
      if !ok { return; }
      mode := target;
      current := candidate;
    }

    /** The commit point: the bootstrap record is written and read back. */
    method Commit(target: StorageMode) returns (ok: bool)
      modifies secrets.disk
      ensures secrets.disk.Now() == (if ok then Committed(old(secrets.disk.Now()), target, secrets.portable) else old(secrets.disk.Now()))
      ensures Through(old(secrets.disk.trace), secrets.disk.trace, {old(secrets.disk.Now()), secrets.disk.Now()})
      ensures secrets.disk.faults >= old(secrets.disk.faults) && (secrets.disk.faults == old(secrets.disk.faults) <==> ok)
    {
      ok := SetConfiguredStorageMode(secrets.disk, secrets.portable, target);
      CommittedModeIsConfigured(old(secrets.disk.Now()).files, secrets.portable, target);
      if ok {
        var committed := GetConfiguredStorageMode(secrets.disk, secrets.portable);
        ok := committed == target;
      }
    }

    /** The part of a migration before its commit point. */
    method PrepareTarget(source: StorageMode, target: StorageMode, candidate: AppSettings) returns (ok: bool)
      requires source != target
      modifies secrets.disk
      ensures Uncommitted(old(secrets.disk.Now()), target, secrets.disk.Now())
      ensures ok ==> Prepared(old(secrets.disk.Now()), source, target, candidate, secrets.disk.Now())
      ensures ok ==> Transferable(old(secrets.disk.Now()), source)
      ensures old(secrets.disk.trace) <= secrets.disk.trace
      ensures forall i :: |old(secrets.disk.trace)| <= i < |secrets.disk.trace| ==>
                Uncommitted(old(secrets.disk.Now()), target, secrets.disk.trace[i])
      ensures secrets.disk.faults >= old(secrets.disk.faults)
      ensures secrets.disk.faults == old(secrets.disk.faults) ==>
                (ok, secrets.disk.Now()) == Copy(SettingsPlaced(old(secrets.disk.Now()), target, candidate), source, target)
    {
      ghost var before := secrets.disk.Now();
      var path := SettingsPath(target);
      ok := Write(secrets.disk, path, SettingsData(candidate), true);
      if !ok { return; }
      assert path in Visible(secrets.disk.files);
      if !(path in secrets.disk.files && secrets.disk.files[path] == SettingsData(candidate)) { return false; }
      ghost var written, traced := secrets.disk.Now(), secrets.disk.trace;
      var outcome := secrets.CopyTo(source, target);
      ok := outcome == Copied;
      CopyStaysUncommitted(before, target, written, secrets.disk.Now(), SettingsData(candidate));
      forall i | |old(secrets.disk.trace)| <= i < |secrets.disk.trace|
        ensures Uncommitted(before, target, secrets.disk.trace[i])
      {
        if i < |traced| {
          assert secrets.disk.trace[i] == traced[i];
        } else {
          CopyStaysUncommitted(before, target, written, secrets.disk.trace[i], SettingsData(candidate));
        }
      }
    }
  }

  /** A Save keeps what it replaces: the settings in force in the backup, and a damaged primary under another name. */
  lemma SavedKeepsPrevious(files: Files, preserveDamaged: bool, current: AppSettings, candidate: AppSettings, id: nat, portable: bool)
    requires Validates(candidate)
    ensures var mode := candidate.storageMode;
            var saved := SavedFiles(files, mode, preserveDamaged, candidate, id);
            && !Unreadable(Primary(saved, mode))
            && (preserveDamaged && SettingsPath(mode) in files ==>
                  At(saved, Damaged(SettingsPath(mode), id)) == Primary(files, mode))
            && (mode == ConfiguredMode(files, portable) && FreshLoad(files, portable) == Loaded(current)
                && (preserveDamaged ==> Read(Primary(files, mode), mode) == DamagedFile)
                && (Primary(files, mode).Some? && Unreadable(Primary(files, mode)) ==> preserveDamaged) ==>
                  forall damaged :: Unreadable(damaged) ==>
                    FreshLoad(Spoiled(saved, SettingsPath(mode), damaged), portable) == Loaded(current))
  {
    var mode := candidate.storageMode;
    assert Primary(SavedFiles(files, mode, preserveDamaged, candidate, id), mode) == Some(SettingsData(candidate));
    if preserveDamaged && SettingsPath(mode) in files {
      DamagedPrimaryIsKept(files, mode, candidate, id);
    }
    if mode == ConfiguredMode(files, portable) && FreshLoad(files, portable) == Loaded(current) {
      if preserveDamaged && Read(Primary(files, mode), mode) == DamagedFile {
        DamagedPrimaryIsHarmless(files, portable, current);
      }
      forall damaged | Unreadable(damaged)
        ensures (preserveDamaged ==> Read(Primary(files, mode), mode) == DamagedFile)
                && (Primary(files, mode).Some? && Unreadable(Primary(files, mode)) ==> preserveDamaged) ==>
                  FreshLoad(Spoiled(SavedFiles(files, mode, preserveDamaged, candidate, id), SettingsPath(mode), damaged), portable)
                  == Loaded(current)
      {
        PreviousSettingsSurvive(files, preserveDamaged, current, candidate, id, portable, damaged);
      }
    }
  }

  /** What can be asked of the settings store. SaveAndMigrate is how the settings page commits a draft. */
  datatype Operation =
    | LoadAgain
    | SaveOnly(settings: AppSettings)
    | MigrateOnly(target: StorageMode)
    | SaveAndMigrate(candidate: AppSettings, target: StorageMode)

  /** A migration that no save precedes, and a later save. */
  predicate SaveAfterBareMigration(operations: seq<Operation>, n: nat) {
    exists i, j :: 0 <= i < j < n <= |operations| && operations[i].MigrateOnly?
                   && (operations[j].SaveOnly? || operations[j].SaveAndMigrate?)
  }

  /**
    After every completed run of loads, saves and migrations in any order, whatever failed in it, the settings
    in memory are valid and are what a fresh Load would return, unless a Save of the run lost them. That
    takes a file operation that failed, in a Save that came after a migration that no save preceded.
   */
  method AnyRun(service: SettingsService, operations: seq<Operation>) returns (ghost lost: bool)
    requires service.Consistent() && service.FlagIsTrue()
    modifies service, service.secrets.disk
    ensures !lost ==>
              && service.Consistent() && Validates(service.current)
              && FreshLoad(service.secrets.disk.Now().files, service.secrets.portable) == Loaded(service.current)
    ensures lost ==>
              service.secrets.disk.faults > old(service.secrets.disk.faults) && SaveAfterBareMigration(operations, |operations|)
    ensures (forall i :: 0 <= i < |operations| ==> !operations[i].MigrateOnly?) ==> service.FlagIsTrue()
    ensures old(service.UnreadableIsFlagged()) ==> service.UnreadableIsFlagged()
  {
    lost := false;
    for i := 0 to |operations|
      invariant !lost ==> service.Consistent()
      invariant (forall j :: 0 <= j < i ==> !operations[j].MigrateOnly?) ==> !lost && service.FlagIsTrue()
      invariant lost ==> service.secrets.disk.faults > old(service.secrets.disk.faults) && SaveAfterBareMigration(operations, i)
      invariant service.secrets.disk.faults >= old(service.secrets.disk.faults)
      invariant old(service.UnreadableIsFlagged()) ==> service.UnreadableIsFlagged()
    {
      ghost var loses := Perform(service, operations[i]);
      if loses && !lost {
        var j :| 0 <= j < i && operations[j].MigrateOnly?;
        lost := true;
      }
    }
  }

  /** One operation; `loses` if it is a Save that lost the settings. */
  method Perform(service: SettingsService, operation: Operation) returns (ghost loses: bool)
    modifies service, service.secrets.disk
    ensures service.secrets.disk.faults >= old(service.secrets.disk.faults)
    ensures old(service.UnreadableIsFlagged()) ==> service.UnreadableIsFlagged()
    ensures old(service.Consistent()) ==> (!loses ==> service.Consistent())
    ensures old(service.Consistent() && service.FlagIsTrue()) ==> !loses && (!operation.MigrateOnly? ==> service.FlagIsTrue())
    ensures loses ==> service.secrets.disk.faults > old(service.secrets.disk.faults) && (operation.SaveOnly? || operation.SaveAndMigrate?)
  {
    loses := false;
    match operation {
      case LoadAgain =>
        var outcome := service.Load();
      case SaveOnly(settings) =>
        loses := SaveOne(service, settings, None);
      case MigrateOnly(target) =>
        var migrated := service.MigrateStorage(target);
      case SaveAndMigrate(candidate, target) =>
        loses := SaveOne(service, candidate, Some(target));
    }
  }

  /** A save, and the migration that follows it when it succeeds. */
  method SaveOne(service: SettingsService, settings: AppSettings, target: Option<StorageMode>) returns (ghost loses: bool)
    modifies service, service.secrets.disk
    ensures service.secrets.disk.faults >= old(service.secrets.disk.faults)
    ensures old(service.UnreadableIsFlagged()) ==> service.UnreadableIsFlagged()
    ensures old(service.Consistent()) ==> (service.Consistent() <==> !loses)
    ensures old(service.Consistent() && service.FlagIsTrue()) ==> !loses && service.FlagIsTrue()
    ensures loses ==> service.secrets.disk.faults > old(service.secrets.disk.faults)
  {
    var outcome, id := service.Save(settings);
    loses := service.LosesSettings(old(service.secrets.disk.Now()), old(service.preserveDamaged), old(service.current), outcome,
                                   service.secrets.disk.Now());
    if outcome == Saved && target.Some? {
      var migrated := service.MigrateStorage(target.value);
    }
  }

  /** The flag set by Load outlives a migration, and is no longer true of the new primary. */
  method StaleFlagSurvivesMigration(service: SettingsService)
    requires service.secrets.disk.Now() == DamagedDisk(DefaultMode(service.secrets.portable))
    modifies service, service.secrets.disk
    ensures service.secrets.disk.faults == old(service.secrets.disk.faults) ==>
              && service.secrets.disk.Now() == StaleMigration(service.secrets.portable).1
              && service.Consistent() && service.preserveDamaged && !service.FlagIsTrue()
  {
    DamagedDiskLoads(service.secrets.portable);
    StaleFlagLosesSettings(service.secrets.portable, DEFAULTS, 0);
    var outcome := service.Load();
    var migrated := service.MigrateStorage(OtherMode(service.mode));
  }

  lemma CopyStaysUncommitted(before: Snapshot, target: StorageMode, written: Snapshot, s: Snapshot, data: Data)
    requires written == before.(files := Written(before.files, SettingsPath(target), data, true))
    requires OnlySecretsOf(written, target, s)
    ensures Uncommitted(before, target, s) && At(s.files, SettingsPath(target)) == Some(data)
  {
    assert At(s.files, SettingsPath(target)) == At(written.files, SettingsPath(target));
  }

  ghost predicate MigrationTrace(earlier: seq<Snapshot>, later: seq<Snapshot>, before: Snapshot, source: StorageMode, target: StorageMode,
                                 current: AppSettings, portable: bool) {
    earlier <= later && forall i :: |earlier| <= i < |later| ==> MigrationSafe(before, source, target, current, later[i], portable)
  }

  /** Both sides of the commit point. */
  lemma MigrationIsSafe(before: Snapshot, source: StorageMode, target: StorageMode, current: AppSettings,
                        prepared: Snapshot, now: Snapshot, portable: bool)
    requires source != target && Validates(current) && ConfiguredMode(before.files, portable) == source
    requires FreshLoad(before.files, portable) == Loaded(current)
    requires Uncommitted(before, target, prepared)
    requires now == prepared ||
             (now == Committed(prepared, target, portable) && Prepared(before, source, target, current.(storageMode := target), prepared))
    ensures MigrationSafe(before, source, target, current, prepared, portable)
    ensures MigrationSafe(before, source, target, current, now, portable)
    ensures ConfiguredMode(prepared.files, portable) == source
    ensures now != prepared ==> ConfiguredMode(now.files, portable) == target
    ensures now == Committed(prepared, target, portable) ==> ConfiguredMode(now.files, portable) == target
  {
    UncommittedIsSafe(before, source, target, current, prepared, portable);
    CommittedModeIsConfigured(prepared.files, portable, target);
    if now != prepared {
      CommittedIsSafe(before, source, target, current, prepared, portable);
    }
  }

  lemma TraceThroughCommit(before: Snapshot, source: StorageMode, target: StorageMode, current: AppSettings,
                           a: seq<Snapshot>, b: seq<Snapshot>, c: seq<Snapshot>, prepared: Snapshot, now: Snapshot, portable: bool)
    requires source != target && ConfiguredMode(before.files, portable) == source
    requires FreshLoad(before.files, portable) == Loaded(current)
    requires a <= b && forall i :: |a| <= i < |b| ==> Uncommitted(before, target, b[i])
    requires Through(b, c, {prepared, now})
    requires MigrationSafe(before, source, target, current, prepared, portable)
    requires MigrationSafe(before, source, target, current, now, portable)
    ensures MigrationTrace(a, c, before, source, target, current, portable)
  {
    forall i | |a| <= i < |c| ensures MigrationSafe(before, source, target, current, c[i], portable) {
      if i < |b| {
        assert c[i] == b[i];
        UncommittedIsSafe(before, source, target, current, b[i], portable);
      }
    }
  }
}
