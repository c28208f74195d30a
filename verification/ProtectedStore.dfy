/** Which storage location is in force, as the bootstrap files on disk say (AppRuntimeModeService.cs). */
module RuntimeModes {
  import opened Options
  import opened Preferences
  import opened Disks
  import opened AtomicFile

  /** `BootstrapPath`: beside the executable for the portable distribution, in the profile otherwise. */
  function BootstrapPath(portable: bool): Path {
    Main(if portable then BootstrapJson else RuntimeJson)
  }

  function DefaultMode(portable: bool): StorageMode {
    if portable then PortableLocal else ProfileAppData
  }

  function BootMode(files: Files, path: Path, otherwise: StorageMode): StorageMode {
    if path in files && files[path].BootData? then files[path].mode else otherwise
  }

  /** What `GetConfiguredStorageMode` finds: the first readable record of the three candidates, or the default. */
  function ConfiguredMode(files: Files, portable: bool): StorageMode {
    BootMode(files, BootstrapPath(portable),
             BootMode(files, Backup(BootstrapPath(portable)),
                      BootMode(files, Main(BootstrapJson), DefaultMode(portable))))
  }

  /** `GetConfiguredStorageMode`. */
  method GetConfiguredStorageMode(disk: Disk, portable: bool) returns (mode: StorageMode)
    ensures mode == ConfiguredMode(disk.files, portable) == ConfiguredMode(disk.Now().files, portable)
  {
    var candidates := [BootstrapPath(portable), Backup(BootstrapPath(portable)), Main(BootstrapJson)];
    for i := 0 to |candidates|
      invariant forall k :: 0 <= k < i ==> !(candidates[k] in disk.files && disk.files[candidates[k]].BootData?)
    {
      if candidates[i] in disk.files && disk.files[candidates[i]].BootData? {
        assert i > 0 ==> !(candidates[0] in disk.files && disk.files[candidates[0]].BootData?);
        assert i > 1 ==> !(candidates[1] in disk.files && disk.files[candidates[1]].BootData?);
        return disk.files[candidates[i]].mode;
      }
    }
    assert !(candidates[0] in disk.files && disk.files[candidates[0]].BootData?);
    assert !(candidates[1] in disk.files && disk.files[candidates[1]].BootData?);
    assert !(candidates[2] in disk.files && disk.files[candidates[2]].BootData?);
    return DefaultMode(portable);
  }

  /** `SetConfiguredStorageMode`: the commit point of a migration. */
  method SetConfiguredStorageMode(disk: Disk, portable: bool, mode: StorageMode) returns (ok: bool)
    modifies disk
    ensures disk.credential == old(disk.credential)
    ensures Visible(disk.files) == if ok then Written(Visible(old(disk.files)), BootstrapPath(portable), BootData(mode), true)
                                   else Visible(old(disk.files))
    ensures ok ==> ConfiguredMode(disk.Now().files, portable) == mode
    ensures ok && old(BootstrapPath(portable) in disk.files ==> disk.files[BootstrapPath(portable)].BootData?) ==>
              forall damaged: Option<Data> :: (damaged.Some? ==> !damaged.value.BootData?) ==>
                ConfiguredMode(Spoiled(disk.Now().files, BootstrapPath(portable), damaged), portable)
                == old(ConfiguredMode(disk.files, portable))
    ensures Through(old(disk.trace), disk.trace, {old(disk.Now()), disk.Now()})
    ensures disk.faults >= old(disk.faults)
    ensures disk.faults == old(disk.faults) <==> ok
  {
    ghost var before := disk.Now().files;
    ok := Write(disk, BootstrapPath(portable), BootData(mode), true);
    if ok {
      CommittedModeIsConfigured(before, portable, mode);
      forall damaged: Option<Data> | damaged.Some? ==> !damaged.value.BootData?
        ensures (BootstrapPath(portable) in before ==> before[BootstrapPath(portable)].BootData?) ==>
                  ConfiguredMode(Spoiled(disk.Now().files, BootstrapPath(portable), damaged), portable) == ConfiguredMode(before, portable)
      {
        if BootstrapPath(portable) in before ==> before[BootstrapPath(portable)].BootData? {
          PreviousModeIsKept(before, portable, mode, damaged);
        }
      }
    }
  }

  /**
    The record that a commit replaces is still there: if the new one is damaged or lost, the mode is what it was
    before. Only a record that could not be read is not worth keeping.
   */
  lemma PreviousModeIsKept(files: Files, portable: bool, mode: StorageMode, damaged: Option<Data>)
    requires BootstrapPath(portable) in files ==> files[BootstrapPath(portable)].BootData?
    requires damaged.Some? ==> !damaged.value.BootData?
    ensures ConfiguredMode(Spoiled(Written(files, BootstrapPath(portable), BootData(mode), true), BootstrapPath(portable), damaged), portable)
            == ConfiguredMode(files, portable)
  {
  }

  /** Without any record a portable distribution keeps its data beside the executable, another one in the profile. */
  lemma ModeOfFirstStart(portable: bool)
    ensures ConfiguredMode(map[], portable) == PortableLocal <==> portable
  {
  }

  /** What an installation in the profile commits is never found by a portable one. */
  lemma CommitsStayApart(files: Files, mode: StorageMode)
    ensures ConfiguredMode(Written(files, BootstrapPath(false), BootData(mode), true), true) == ConfiguredMode(files, true)
  {
  }

  /** The mode is what was last committed, whatever the older records say. */
  lemma CommittedModeIsConfigured(files: Files, portable: bool, mode: StorageMode)
    ensures ConfiguredMode(Written(files, BootstrapPath(portable), BootData(mode), true), portable) == mode
  {
  }
}

/**
  The protected store as functions on what is on disk: licenses and sessions of the two storage
  locations, migration between them, and logout.
 */
module ProtectedStore {
  import opened Options
  import opened Texts
  import opened Sessions
  import opened Preferences
  import opened Disks
  import opened AtomicFile

  function SessionPath(mode: StorageMode): Path { Main(SecretFile(mode, SessionBin)) }
  function LicensePath(mode: StorageMode): Path { Main(SecretFile(mode, LicenseBin)) }
  function RecoveryPath(mode: StorageMode): Path { Main(SecretFile(mode, RecoveryBin)) }

  /** `TryReadProtected`: nothing for an unreadable file, the empty text for a missing one. */
  function TextAt(files: Files, path: Path): Option<Text> {
    if path !in files then Some(EMPTY)
    else if files[path].Protected? then Some(files[path].text)
    else None
  }

  function LicenseIn(s: Snapshot, mode: StorageMode): Option<Text> {
    if mode == PortableLocal then TextAt(s.files, LicensePath(mode))
    else Some(if s.credential.Some? then s.credential.value else EMPTY)
  }

  function SessionIn(s: Snapshot, mode: StorageMode): Option<Text> {
    TextAt(s.files, SessionPath(mode))
  }

  function Without(files: Files, path: Path): Files {
    files - {path, Backup(path)}
  }

  /** `SaveLicenseKey`. */
  function PutLicense(s: Snapshot, mode: StorageMode, license: Text): Snapshot {
    if mode == PortableLocal then
      s.(files := if IsBlank(license) then Without(s.files, LicensePath(mode))
                  else Written(s.files, LicensePath(mode), Protected(Trim(license)), true))
    else s.(credential := if IsBlank(license) then None else Some(Trim(license)))
  }

  /** `ReplaceSession`. */
  function PutSession(s: Snapshot, mode: StorageMode, session: Text): Snapshot {
    s.(files := if session == EMPTY then Without(s.files, SessionPath(mode))
                else Written(s.files, SessionPath(mode), Protected(session), true))
  }

  /** The record that keeps the overwritten license and session of a migration target. */
  function RecoveryRecord(license: Text, session: Text): Text {
    Json(Obj(map["license" := Str(license), "session" := Str(session)]))
  }

  function PutRecovery(s: Snapshot, mode: StorageMode, license: Text, session: Text): Snapshot {
    if license == EMPTY && session == EMPTY then s
    else s.(files := Written(s.files, RecoveryPath(mode), Protected(RecoveryRecord(license, session)), true))
  }

  /** What a protected file held before it is replaced is then its backup; one that is deleted leaves none. */
  lemma PutsKeepPrevious(s: Snapshot, mode: StorageMode, license: Text, session: Text)
    ensures At(PutSession(s, mode, session).files, Backup(SessionPath(mode))) ==
            if session == EMPTY then None
            else if SessionPath(mode) in s.files then At(s.files, SessionPath(mode)) else At(s.files, Backup(SessionPath(mode)))
    ensures At(PutLicense(s, PortableLocal, license).files, Backup(LicensePath(PortableLocal))) ==
            if IsBlank(license) then None
            else if LicensePath(PortableLocal) in s.files then At(s.files, LicensePath(PortableLocal))
            else At(s.files, Backup(LicensePath(PortableLocal)))
    ensures license != EMPTY || session != EMPTY ==>
              At(PutRecovery(s, mode, license, session).files, Backup(RecoveryPath(mode))) ==
              if RecoveryPath(mode) in s.files then At(s.files, RecoveryPath(mode)) else At(s.files, Backup(RecoveryPath(mode)))
  {
  }

  predicate Readable(s: Snapshot, mode: StorageMode) {
    LicenseIn(s, mode).Some? && SessionIn(s, mode).Some?
  }

  /** What a migration from `mode` needs: its secrets can be read, and the license is stored trimmed. */
  predicate Transferable(s: Snapshot, mode: StorageMode) {
    Readable(s, mode) && IsTrimmed(LicenseIn(s, mode).value)
  }

  /** A migration of secrets can succeed. */
  predicate Open(s: Snapshot, source: StorageMode, target: StorageMode) {
    Transferable(s, source) && Readable(s, target)
  }

  /** `CopyTo` when no file operation fails: whether it returns normally, and what it leaves. */
  function Copy(s: Snapshot, source: StorageMode, target: StorageMode): (bool, Snapshot) {
    if !Readable(s, source) || !Readable(s, target) then (false, s)
    else
      var license, session := LicenseIn(s, source).value, SessionIn(s, source).value;
      var oldLicense, oldSession := LicenseIn(s, target).value, SessionIn(s, target).value;
      var copied := PutSession(PutLicense(PutRecovery(s, target, oldLicense, oldSession), target, license), target, session);
      if LicenseIn(copied, target) == Some(license) && SessionIn(copied, target) == Some(session)
      then (true, copied)
      else (false, PutSession(PutLicense(copied, target, oldLicense), target, oldSession))
  }

  /** Without failures a migration of secrets succeeds exactly when everything can be read and the license is stored trimmed. */
  lemma CopySucceedsExactlyWhen(s: Snapshot, source: StorageMode, target: StorageMode)
    ensures Copy(s, source, target).0 <==> Open(s, source, target)
    ensures Copy(s, source, target).0 ==>
              && LicenseIn(Copy(s, source, target).1, target) == LicenseIn(s, source)
              && SessionIn(Copy(s, source, target).1, target) == SessionIn(s, source)
  {
    if Readable(s, source) {
      TrimIsIdempotent(LicenseIn(s, source).value);
      TrimmedExactlyWhen(LicenseIn(s, source).value);
    }
  }

  // ----- logout -----

  /** `RedactRecoverySession`: the record without its "session" entry, when that entry is one to remove. */
  function Redacted(d: Data, owner: Option<Session>, activeMode: bool): Data {
    if d.Protected? && d.text.Json? && d.text.value.Obj? && "session" in d.text.value.members
       && d.text.value.members["session"].Str?
       && (activeMode || SameFamily(Some(d.text.value.members["session"].text), owner))
    then Protected(Json(Obj(d.text.value.members - {"session"})))
    else d
  }

  /** What logout leaves of the file at `path`. */
  function Kept(path: Path, d: Data, owner: Option<Session>, active: StorageMode): Option<Data> {
    match path
    case Main(SecretFile(mode, name)) => KeptSecret(mode, name, d, owner, active)
    case Backup(Main(SecretFile(mode, name))) => KeptSecret(mode, name, d, owner, active)
    case _ => Some(d)
  }

  function KeptSecret(mode: StorageMode, name: SecretName, d: Data, owner: Option<Session>, active: StorageMode): Option<Data> {
    match name
    case LicenseBin => Some(d)
    case SessionBin =>
      if mode == active || SameFamily(if d.Protected? then Some(d.text) else None, owner) then None else Some(d)
    case RecoveryBin => Some(Redacted(d, owner, mode == active))
  }

  function Owner(files: Files, active: StorageMode): Option<Session> {
    Identity(TextAt(files, SessionPath(active)))
  }

  /** `DeleteSession` when no file operation fails. */
  function LoggedOut(files: Files, active: StorageMode): Files {
    var owner := Owner(files, active);
    map path | path in files && Kept(path, files[path], owner, active).Some? :: Kept(path, files[path], owner, active).value
  }

  function At(files: Files, path: Path): Option<Data> {
    if path in files then Some(files[path]) else None
  }

  predicate IsSessionOrRecovery(path: Path) {
    match path
    case Main(SecretFile(_, name)) => name != LicenseBin
    case Backup(Main(SecretFile(_, name))) => name != LicenseBin
    case _ => false
  }

  function ModeOf(path: Path): StorageMode
    requires IsSessionOrRecovery(path)
  {
    if path.Main? then path.place.mode else path.of.place.mode
  }

  /** The session text a session or recovery file holds, if any can be read. */
  function SessionEntry(path: Path, d: Data): Option<Text>
    requires IsSessionOrRecovery(path)
  {
    if !d.Protected? then None
    else if (if path.Main? then path.place.name else path.of.place.name) == SessionBin then Some(d.text)
    else if d.text.Json? && d.text.value.Obj? && "session" in d.text.value.members && d.text.value.members["session"].Str?
    then Some(d.text.value.members["session"].text)
    else None
  }

  /**
    Logout is a frame: every other file, license, unreadable inactive file, and inactive session or
    recovery record of another grant is exactly what it was; nothing is created; and what does change
    was a session that is gone, or a recovery record that lost its "session" entry and nothing else.
   */
  lemma LogoutFrame(files: Files, active: StorageMode, path: Path)
    ensures At(files, path).None? ==> At(LoggedOut(files, active), path).None?
    ensures !IsSessionOrRecovery(path) ==> At(LoggedOut(files, active), path) == At(files, path)
    ensures path in files && IsSessionOrRecovery(path) && ModeOf(path) != active
            && (SessionEntry(path, files[path]).None?
                || !SameFamily(SessionEntry(path, files[path]), Owner(files, active)))
            ==> At(LoggedOut(files, active), path) == At(files, path)
    ensures path in files && At(LoggedOut(files, active), path) != At(files, path) ==>
              && IsSessionOrRecovery(path)
              && match At(LoggedOut(files, active), path) {
                   case None => SessionPath(ModeOf(path)) == path || Backup(SessionPath(ModeOf(path))) == path
                   case Some(d) =>
                     && (RecoveryPath(ModeOf(path)) == path || Backup(RecoveryPath(ModeOf(path))) == path)
                     && files[path].Protected? && files[path].text.Json? && files[path].text.value.Obj?
                     && d == Protected(Json(Obj(map k | k in files[path].text.value.members && k != "session"
                                                  :: files[path].text.value.members[k])))
                 }
  {
    if path in files && IsSessionOrRecovery(path) && files[path].Protected? && files[path].text.Json? && files[path].text.value.Obj? {
      var members := files[path].text.value.members;
      assert members - {"session"} == map k | k in members && k != "session" :: members[k];
    }
  }

  /** The session text of a file or an entry, as a record. */
  function RecordIn(entry: Option<Text>): Option<Session> {
    match entry
    case None => None
    case Some(text) => (match Parse(text) case Read(s) => Some(s) case _ => None)
  }

  /**
    In the other location logout changes exactly the readable records of the same grant, field by field: a
    record of another grant of the same deployment stays, and so does one that cannot be told.
   */
  lemma LogoutErasesExactly(files: Files, active: StorageMode, path: Path)
    requires path in files && IsSessionOrRecovery(path) && ModeOf(path) != active
    ensures At(LoggedOut(files, active), path) != At(files, path) <==>
              var mine, other := RecordIn(TextAt(files, SessionPath(active))), RecordIn(SessionEntry(path, files[path]));
              && mine.Some? && other.Some? && Complete(mine.value) && Complete(other.value) && SameGrant(mine.value, other.value)
  {
    if (if path.Main? then path.place.name else path.of.place.name) == RecoveryBin {
      var d := files[path];
      if SessionEntry(path, d).Some? {
        assert "session" in d.text.value.members && "session" !in d.text.value.members - {"session"};
      }
    }
  }

  /** After logout the active location is signed out, and no readable record of the owner's grant is left anywhere. */
  lemma LogoutErasesFamily(files: Files, active: StorageMode, path: Path)
    requires path in LoggedOut(files, active) && IsSessionOrRecovery(path)
    ensures SessionPath(active) !in LoggedOut(files, active) && Backup(SessionPath(active)) !in LoggedOut(files, active)
    ensures !SameFamily(SessionEntry(path, LoggedOut(files, active)[path]), Owner(files, active))
    ensures ModeOf(path) == active ==> SessionEntry(path, LoggedOut(files, active)[path]).None?
  {
  }

  /** Signing out again changes nothing. */
  lemma LogoutTwiceIsOnce(files: Files, active: StorageMode)
    ensures LoggedOut(LoggedOut(files, active), active) == LoggedOut(files, active)
  {
    var once := LoggedOut(files, active);
    assert SessionPath(active) !in once;
    assert Owner(once, active).None?;
    forall path | path in once ensures Kept(path, once[path], None, active) == Some(once[path]) {
      assert Kept(path, files[path], Owner(files, active), active) == Some(once[path]);
    }
  }
}
