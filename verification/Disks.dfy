/** Persisted preferences (AppSettings.cs) and the rules they are validated by. */
module Preferences {
  import opened Scheduling

  datatype StorageMode = ProfileAppData | PortableLocal

  /** The stored names; Unknown is any other text in the file. */
  datatype KeepAliveMethod = Keyboard | Mouse | UnknownMethod(text: string)

  datatype Theme = Light | Dark | System | UnknownTheme(text: string)

  datatype AppSettings = AppSettings(
    storageMode: StorageMode,
    keepAliveMethod: KeepAliveMethod,
    intervalSeconds: int,
    keepAwakeEnabled: bool,
    virtualKeyCode: int,
    mousePixelDelta: int,
    theme: Theme,
    startOnBoot: bool,
    showNotifications: bool,
    enableAutomaticUpdateChecks: bool,
    enableStartupAccountSync: bool,
    startMinimizedToTray: bool,
    scheduledActionEnabled: bool,
    scheduledActionType: ScheduledAction,
    scheduledActionTime: string)

  const DEFAULTS := AppSettings(ProfileAppData, Keyboard, 60, false, 126, 2, Light,
                                false, true, false, false, false, false, Shutdown, "")

  /** `SettingsService.Validate`. */
  predicate Validates(s: AppSettings) {
    && 20 <= s.intervalSeconds <= 86400
    && 1 <= s.mousePixelDelta <= 5
    && 124 <= s.virtualKeyCode <= 135
    && !s.keepAliveMethod.UnknownMethod?
    && !s.theme.UnknownTheme?
    && !s.scheduledActionType.Undefined?
  }
}

/**
  The files and the Windows credential the application keeps, with one method per file-system
  primitive. Every primitive may fail; `faults` counts the failures. `trace` records what a process
  that stopped after each primitive would leave behind.
 */
module Disks {
  import opened Options
  import opened Preferences
  import opened Texts

  datatype SecretName = LicenseBin | SessionBin | RecoveryBin

  datatype Place =
    | SettingsFile(mode: StorageMode)
    | SecretFile(mode: StorageMode, name: SecretName)
    | RuntimeJson      // runtime.json in the profile directory
    | BootstrapJson    // KeepMeAlive.bootstrap.json beside the executable

  /** Backup is ".bak", Temp is ".<guid>.tmp", Damaged is ".damaged-<guid>". */
  datatype Path = Main(place: Place) | Backup(of: Path) | Temp(of: Path, id: nat) | Damaged(of: Path, id: nat)

  /** What a file parses as: settings, the JSON literal null, a bootstrap record, a protected text, or none of these. */
  datatype Data =
    | SettingsData(settings: AppSettings)
    | NullData
    | BootData(mode: StorageMode)
    | Protected(text: Text)
    | Garbage(code: nat)

  type Files = map<Path, Data>

  /** What the application can find again after a restart: it never looks for a temporary file. */
  datatype Snapshot = Snapshot(files: Files, credential: Option<Text>)

  ghost function Visible(files: Files): Files {
    map p | p in files && !p.Temp? :: files[p]
  }

  /** The trace has only grown, and only by snapshots in `allowed`. */
  ghost predicate Through(before: seq<Snapshot>, after: seq<Snapshot>, allowed: set<Snapshot>) {
    before <= after && forall i :: |before| <= i < |after| ==> after[i] in allowed
  }

  lemma ThroughChain(a: seq<Snapshot>, b: seq<Snapshot>, c: seq<Snapshot>, first: set<Snapshot>, second: set<Snapshot>)
    requires Through(a, b, first) && Through(b, c, second)
    ensures Through(a, c, first + second)
  {
    forall i | |a| <= i < |c| ensures c[i] in first + second {
      if i < |b| {
        assert c[i] == b[i];
      }
    }
  }

  class Disk {
    var files: Files
    var credential: Option<Text>
    ghost var trace: seq<Snapshot>
    ghost var faults: nat

    ghost function Now(): Snapshot
      reads this
    {
      Snapshot(Visible(files), credential)
    }

    /** `new FileStream(path, FileMode.CreateNew)`, written and flushed. A failure may leave a torn file. */
    method CreateNew(path: Path, data: Data) returns (ok: bool)
      requires path.Temp?
      modifies this
      ensures Now() == old(Now()) && credential == old(credential) && trace == old(trace)
      ensures forall p :: p != path ==> (p in files <==> p in old(files))
      ensures ok ==> path !in old(files) && files == old(files)[path := data]
      ensures faults == old(faults) <==> ok
      ensures faults >= old(faults)
    {
      if path in files {
        faults := faults + 1;
        return false;
      }
      if * {
        files := files[path := data];
        assert Visible(files) == Visible(old(files));
        return true;
      }
      if * {
        files := files[path := Garbage(0)];
      }
      assert Visible(files) == Visible(old(files));
      faults := faults + 1;
      return false;
    }

    /** `File.Replace`: atomic, keeping the old contents when a backup path is given. */
    method Replace(source: Path, target: Path, backup: Option<Path>) returns (ok: bool)
      requires source in files && target in files && source != target
      modifies this
      ensures credential == old(credential)
      ensures ok ==> files == (if backup.Some? then old(files)[backup.value := old(files)[target]] else old(files))
                              [target := old(files)[source]] - {source}
      ensures ok ==> trace == old(trace) + [Now()]
      ensures !ok ==> files == old(files) && trace == old(trace)
      ensures faults == old(faults) <==> ok
      ensures faults >= old(faults)
    {
      if * {
        faults := faults + 1;
        return false;
      }
      var contents, previous := files[source], files[target];
      if backup.Some? {
        files := files[backup.value := previous];
      }
      files := files[target := contents] - {source};
      trace := trace + [Now()];
      return true;
    }

    /** `File.Move` to a path that must not exist. */
    method Move(source: Path, target: Path) returns (ok: bool)
      requires source in files && source != target
      modifies this
      ensures credential == old(credential)
      ensures ok ==> target !in old(files) && files == old(files)[target := old(files)[source]] - {source}
      ensures ok ==> trace == old(trace) + [Now()]
      ensures !ok ==> files == old(files) && trace == old(trace)
      ensures faults == old(faults) <==> ok
      ensures faults >= old(faults)
    {
      if target in files {
        faults := faults + 1;
        return false;
      }
      if * {
        faults := faults + 1;
        return false;
      }
      files := files[target := files[source]] - {source};
      trace := trace + [Now()];
      return true;
    }

    /** `File.Delete`. */
    method Delete(path: Path) returns (ok: bool)
      modifies this
      ensures credential == old(credential)
      ensures ok ==> files == old(files) - {path} && trace == old(trace) + [Now()]
      ensures !ok ==> files == old(files) && trace == old(trace)
      ensures faults == old(faults) <==> ok
      ensures faults >= old(faults)
    {
      if * {
        faults := faults + 1;
        return false;
      }
      files := files - {path};
      trace := trace + [Now()];
      return true;
    }

    /** `CredWrite`, or `CredDelete` when there is nothing to store. */
    method SetCredential(value: Option<Text>) returns (ok: bool)
      modifies this
      ensures files == old(files)
      ensures ok ==> credential == value && trace == old(trace) + [Now()]
      ensures !ok ==> credential == old(credential) && trace == old(trace)
      ensures faults == old(faults) <==> ok
      ensures faults >= old(faults)
    {
      if * {
        faults := faults + 1;
        return false;
      }
      credential := value;
      trace := trace + [Now()];
      return true;
    }
  }
}

/** Writing a file so that a restart finds either the old or the new one (AtomicFile.cs). */
module AtomicFile {
  import opened Options
  import opened Disks

  /** The files after a completed write. */
  function Written(files: Files, path: Path, data: Data, preserveBackup: bool): Files {
    (if preserveBackup && path in files then files[Backup(path) := files[path]] else files)[path := data]
  }

  /** The files once the one at `path` has been damaged, or has disappeared. */
  function Spoiled(files: Files, path: Path, damaged: Option<Data>): Files {
    if damaged.Some? then files[path := damaged.value] else files - {path}
  }

  /**
    `Write`. Whatever step fails or is the last to run, what can be found again is either all of the old files
    or all of the new ones. A completed write that is to preserve a backup leaves the file it replaced there.
   */
  method Write(disk: Disk, path: Path, data: Data, preserveBackup: bool) returns (ok: bool)
    requires !path.Temp?
    modifies disk
    ensures disk.credential == old(disk.credential)
    ensures Visible(disk.files) == if ok then Written(Visible(old(disk.files)), path, data, preserveBackup)
                                   else Visible(old(disk.files))
    ensures ok ==> Keeps(old(disk.Now()).files, disk.Now().files, path, data, preserveBackup)
    ensures Through(old(disk.trace), disk.trace, {old(disk.Now()), disk.Now()})
    ensures disk.faults >= old(disk.faults)
    ensures disk.faults == old(disk.faults) <==> ok
    ensures disk.faults == old(disk.faults) ==> forall p: Path :: p.Temp? ==> (p in disk.files <==> p in old(disk.files))
  {
    WrittenKeeps(disk.Now().files, path, data, preserveBackup);
    ok := WriteCore(disk, path, data, preserveBackup);
  }

  /** The new data is in place, and the old file in the backup; without one to keep, the backup is as it was. */
  ghost predicate Keeps(before: Files, after: Files, path: Path, data: Data, preserveBackup: bool) {
    && path in after && after[path] == data
    && (if preserveBackup && path in before then Backup(path) in after && after[Backup(path)] == before[path]
        else (Backup(path) in after <==> Backup(path) in before)
             && (Backup(path) in before ==> after[Backup(path)] == before[Backup(path)]))
    && (forall p :: p != path && p != Backup(path) ==> (p in after <==> p in before))
    && (forall p :: p != path && p != Backup(path) && p in before ==> after[p] == before[p])
  }

  lemma WrittenKeeps(files: Files, path: Path, data: Data, preserveBackup: bool)
    ensures Keeps(files, Written(files, path, data, preserveBackup), path, data, preserveBackup)
  {
    BackupIsAnother(path);
  }

  lemma BackupIsAnother(path: Path)
    ensures Backup(path) != path
  {
    if path.Backup? {
      BackupIsAnother(path.of);
    }
  }

  /** The temporary file takes the place of the one at `path`. */
  method Place(disk: Disk, temporary: Path, path: Path, preserveBackup: bool) returns (ok: bool)
    requires temporary.Temp? && !path.Temp? && temporary in disk.files
    modifies disk
    ensures disk.credential == old(disk.credential)
    ensures disk.files == if ok then Written(old(disk.files), path, old(disk.files)[temporary], preserveBackup) - {temporary} else old(disk.files)
    ensures disk.trace == if ok then old(disk.trace) + [disk.Now()] else old(disk.trace)
    ensures disk.faults >= old(disk.faults) && (disk.faults == old(disk.faults) <==> ok)
  {
    if path in disk.files {
      ok := disk.Replace(temporary, path, if preserveBackup then Some(Backup(path)) else None);
    } else {
      ok := disk.Move(temporary, path);
    }
  }

  /** `WriteCore`: a temporary file takes the place of the old one, and is removed when it could not. */
  method WriteCore(disk: Disk, path: Path, data: Data, preserveBackup: bool) returns (ok: bool)
    requires !path.Temp?
    modifies disk
    ensures disk.credential == old(disk.credential)
    ensures Visible(disk.files) == if ok then Written(Visible(old(disk.files)), path, data, preserveBackup)
                                   else Visible(old(disk.files))
    ensures Through(old(disk.trace), disk.trace, {old(disk.Now()), disk.Now()})
    ensures disk.faults >= old(disk.faults)
    ensures disk.faults == old(disk.faults) <==> ok
    ensures disk.faults == old(disk.faults) ==> forall p: Path :: p.Temp? ==> (p in disk.files <==> p in old(disk.files))
  {
    var id: nat := *;
    var temporary := Temp(path, id);
    ok := disk.CreateNew(temporary, data);
    if ok {
      ok := Place(disk, temporary, path, preserveBackup);
    }
    if temporary in disk.files {
      var removed := disk.Delete(temporary);
      ok := ok && removed;
    }
  }
}
