/**
 Backups of the tracked data files: one directory for each backup, a manifest that lists them, and
 the clean-up that keeps the newest. The file system is maps from names to contents; a state file
 that parses is the MigrationState it holds, and clocks are parameters.
 */
module Backup {
  import opened Wrappers
  import opened Clipboard
  import opened Planner

  /** An id made by CreateBackup (the version and the second of its making), or any other text. */
  datatype BackupId = Stamp(version: Version, second: nat) | Named(text: string)

  datatype HistoryEntry = HistoryEntry(
    fromVersion: Version, toVersion: Version, timestamp: nat, backupId: BackupId, success: bool, applied: seq<MigrationId>)

  /** The text form of a migration's id leaves out the patch numbers. */
  datatype MigrationId = MigrationId(fromMajor: nat, fromMinor: nat, toMajor: nat, toMinor: nat)

  datatype MigrationState = MigrationState(
    schemaVersion: Version, appVersion: Version, lastMigration: Option<nat>, history: seq<HistoryEntry>)

  datatype Blob = Raw(bytes: seq<byte>) | State(state: MigrationState)

  type Files = map<string, Blob>

  datatype Info = Info(id: BackupId, appVersion: Version, schemaVersion: Version, timestamp: nat, files: seq<string>)

  datatype Manifest = Missing | Unreadable | Manifest(backups: seq<Info>)

  datatype Disk = Disk(data: Files, backups: map<BackupId, Files>, manifest: Manifest)

  datatype Error = BadManifest | NoSuchBackup | BadState | MigrationFailed(id: MigrationId)

  const STATE_FILE := "migration_state.json"
  const FILES_TO_BACKUP: seq<string> := ["config.toml", "history.json", "trust.json", STATE_FILE]
  const MAX_BACKUPS := 5
  const NANOS := 1_000_000_000

  // ---------- copying ----------

  /** The named files of one directory copied over those of another, one after the other. */
  function Copied(names: seq<string>, source: Files, target: Files): Files {
    if names == [] then target
    else
      var before := Copied(names[..|names| - 1], source, target);
      var name := names[|names| - 1];
      if name in source then before[name := source[name]] else before
  }

  lemma {:induction false} CopiedFile(names: seq<string>, source: Files, target: Files, name: string)
    ensures var result := Copied(names, source, target);
            if name in names && name in source then name in result && result[name] == source[name]
            else (name in result <==> name in target) && (name in target ==> result[name] == target[name])
  {
    if names != [] {
      var n := |names| - 1;
      CopiedFile(names[..n], source, target, name);
      assert names == names[..n] + [names[n]];
    }
  }

  /** The names that are there to be copied, in order. */
  function Present(names: seq<string>, source: Files): seq<string> {
    if names == [] then []
    else
      var name := names[|names| - 1];
      Present(names[..|names| - 1], source) + if name in source then [name] else []
  }

  // ---------- clean-up ----------

  /** Behind every entry that is not later: what a stable sort does with the last element. */
  function Insert(e: Info, s: seq<Info>): seq<Info> {
    if s == [] || s[|s| - 1].timestamp <= e.timestamp then s + [e]
    else Insert(e, s[..|s| - 1]) + [s[|s| - 1]]
  }

  function SortByTime(s: seq<Info>): seq<Info> {
    if s == [] then [] else Insert(s[|s| - 1], SortByTime(s[..|s| - 1]))
  }

  function Ids(s: seq<Info>): set<BackupId> {
    set i | 0 <= i < |s| :: s[i].id
  }

  function Cleaned(disk: Disk): Disk
    requires disk.manifest.Manifest?
  {
    var n := |disk.manifest.backups|;
    if n <= MAX_BACKUPS then disk
    else
      var sorted := SortByTime(disk.manifest.backups);
      SortKeepsLength(disk.manifest.backups);
      disk.(backups := disk.backups - Ids(sorted[..n - MAX_BACKUPS]),
            manifest := Manifest(sorted[n - MAX_BACKUPS..]))
  }

  lemma {:induction false} SortKeepsLength(s: seq<Info>)
    ensures |SortByTime(s)| == |s|
  {
    if s != [] {
      SortKeepsLength(s[..|s| - 1]);
      InsertLength(s[|s| - 1], SortByTime(s[..|s| - 1]));
    }
  }

  lemma {:induction false} InsertLength(e: Info, s: seq<Info>)
    ensures |Insert(e, s)| == |s| + 1
  {
    if s != [] {
      InsertLength(e, s[..|s| - 1]);
    }
  }

  // ---------- the three operations ----------

  function Listed(manifest: Manifest): seq<Info> {
    if manifest.Manifest? then manifest.backups else []
  }

  function StampAt(version: Version, now: nat): BackupId {
    Stamp(version, now / NANOS)
  }

  /** Files already in a directory of the same name stay where they are not overwritten. */
  function WithDirectory(disk: Disk, id: BackupId): Disk {
    var there := if id in disk.backups then disk.backups[id] else map[];
    disk.(backups := disk.backups[id := Copied(FILES_TO_BACKUP, disk.data, there)])
  }

  function InfoOf(data: Files, app: Version, version: Version, now: nat): Info {
    Info(StampAt(version, now), app, app, now, Present(FILES_TO_BACKUP, data))
  }

  function Created(disk: Disk, app: Version, version: Version, now: nat): Disk {
    var copied := WithDirectory(disk, StampAt(version, now));
    if disk.manifest.Unreadable? then copied
    else Cleaned(copied.(manifest := Manifest(Listed(disk.manifest) + [InfoOf(disk.data, app, version, now)])))
  }

  /** A restore puts back what the backup holds and removes nothing. */
  function Restored(disk: Disk, id: BackupId): Disk {
    if id !in disk.backups then disk
    else disk.(data := Copied(FILES_TO_BACKUP, disk.backups[id], disk.data))
  }

  /** The data directory, the backup directory and the manifest, as every manager sees them. */
  class FileSystem {
    var data: Files
    var backups: map<BackupId, Files>
    var manifest: Manifest

    constructor (disk: Disk)
      ensures View() == disk
    {
      data, backups, manifest := disk.data, disk.backups, disk.manifest;
    }

    function View(): Disk
      reads this
    {
      Disk(data, backups, manifest)
    }
  }

  class BackupManager {
    const fs: FileSystem
    const app: Version

    constructor (fs: FileSystem, app: Version)
      ensures this.fs == fs && this.app == app
    {
      this.fs, this.app := fs, app;
    }

    method CreateBackup(version: Version, now: nat) returns (r: Result<BackupId, Error>)
      modifies fs
      ensures r == if old(fs.manifest).Unreadable? then Err(BadManifest) else Ok(Stamp(version, now / 1_000_000_000))
      ensures fs.View() == Created(old(fs.View()), app, version, now)
    {
      hide SortByTime, Cleaned, Ids;
      var id := Stamp(version, now / NANOS);
      ghost var there := if id in fs.backups then fs.backups[id] else map[];
      if id !in fs.backups {
        fs.backups := fs.backups[id := map[]];
      }
      var files: seq<string> := [];
      var i := 0;
      while i < |FILES_TO_BACKUP|
        invariant i <= |FILES_TO_BACKUP|
        invariant fs.data == old(fs.data) && fs.manifest == old(fs.manifest)
        invariant files == Present(FILES_TO_BACKUP[..i], fs.data)
        invariant fs.backups == old(fs.backups)[id := Copied(FILES_TO_BACKUP[..i], fs.data, there)]
      {
        var name := FILES_TO_BACKUP[i];
        assert FILES_TO_BACKUP[..i + 1][..i] == FILES_TO_BACKUP[..i];
        if name in fs.data {
          fs.backups := fs.backups[id := fs.backups[id][name := fs.data[name]]];
          files := files + [name];
        }
        i := i + 1;
      }
      assert FILES_TO_BACKUP[..i] == FILES_TO_BACKUP;
      var added := AddToManifest(Info(id, app, app, now, files));
      if !added { return Err(BadManifest); }
      var _ := Cleanup();
      r := Ok(id);
    }

    method RestoreBackup(id: BackupId) returns (r: Result<(), Error>)
      modifies fs
      ensures r == if id in old(fs.backups) then Ok(()) else Err(NoSuchBackup)
      ensures fs.View() == Restored(old(fs.View()), id)
    {
      if id !in fs.backups { return Err(NoSuchBackup); }
      var source := fs.backups[id];
      var i := 0;
      while i < |FILES_TO_BACKUP|
        invariant i <= |FILES_TO_BACKUP|
        invariant fs.backups == old(fs.backups) && fs.manifest == old(fs.manifest)
        invariant fs.data == Copied(FILES_TO_BACKUP[..i], source, old(fs.data))
      {
        var name := FILES_TO_BACKUP[i];
        assert FILES_TO_BACKUP[..i + 1][..i] == FILES_TO_BACKUP[..i];
        if name in source {
          fs.data := fs.data[name := source[name]];
        }
        i := i + 1;
      }
      assert FILES_TO_BACKUP[..i] == FILES_TO_BACKUP;
      r := Ok(());
    }

    method AddToManifest(info: Info) returns (ok: bool)
      modifies fs`manifest
      ensures ok == !old(fs.manifest).Unreadable?
      ensures fs.manifest == if ok then Manifest(Listed(old(fs.manifest)) + [info]) else old(fs.manifest)
    {
      if fs.manifest.Unreadable? { return false; }
      fs.manifest := Manifest(Listed(fs.manifest) + [info]);
      ok := true;
    }

    method Cleanup() returns (removed: Result<nat, Error>)
      modifies fs`manifest, fs`backups
      ensures old(fs.manifest).Unreadable? ==> removed == Err(BadManifest)
      ensures !old(fs.manifest).Unreadable? ==>
                removed == Ok(if |Listed(old(fs.manifest))| <= MAX_BACKUPS then 0 else |Listed(old(fs.manifest))| - MAX_BACKUPS)
      ensures fs.View() == if old(fs.manifest).Manifest? then Cleaned(old(fs.View())) else old(fs.View())
    {
      hide SortByTime, Insert;
      if fs.manifest.Unreadable? { return Err(BadManifest); }
      var n := |Listed(fs.manifest)|;
      if n <= MAX_BACKUPS { return Ok(0); }
      SortKeepsLength(fs.manifest.backups);
      var sorted := SortByTime(fs.manifest.backups);
      var gone := sorted[..n - MAX_BACKUPS];
      var i := 0;
      while i < |gone|
        invariant i <= |gone| && fs.manifest == old(fs.manifest)
        invariant fs.backups == old(fs.backups) - Ids(gone[..i])
      {
        assert Ids(gone[..i + 1]) == Ids(gone[..i]) + {gone[i].id} by {
          OneMoreId(gone, i);
        }
        if gone[i].id in fs.backups {
          fs.backups := fs.backups - {gone[i].id};
        }
        i := i + 1;
      }
      assert gone[..i] == gone;
      fs.manifest := Manifest(sorted[n - MAX_BACKUPS..]);
      removed := Ok(|gone|);
    }

    method LatestBackup() returns (r: Result<Option<Info>, Error>)
      ensures r == if fs.manifest.Unreadable? then Err(BadManifest) else Ok(Latest(fs.manifest))
    {
      if fs.manifest.Unreadable? { return Err(BadManifest); }
      var listed := Listed(fs.manifest);
      r := Ok(if listed == [] then None else Some(listed[|listed| - 1]));
    }
  }

  function Latest(manifest: Manifest): Option<Info> {
    var listed := Listed(manifest);
    if listed == [] then None else Some(listed[|listed| - 1])
  }

  lemma OneMoreId(s: seq<Info>, i: nat)
    requires i < |s|
    ensures Ids(s[..i + 1]) == Ids(s[..i]) + {s[i].id}
  {
    forall id | id in Ids(s[..i]) + {s[i].id}
      ensures id in Ids(s[..i + 1])
    {
      var j :| 0 <= j <= i && s[j].id == id;
      assert s[..i + 1][j].id == id;
    }
    forall id | id in Ids(s[..i + 1])
      ensures id in Ids(s[..i]) + {s[i].id}
    {
      var j :| 0 <= j <= i && s[..i + 1][j].id == id;
      assert j < i ==> s[..i][j].id == id;
    }
  }
}
