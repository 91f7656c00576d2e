/**
 Running migrations: back up, load the recorded state, apply each migration in turn, restore on the
 first that fails, record the target version when none does; and rolling a run back.
 A migration's `up` may change any data file in any way, and may fail after having changed some.
 */
module Migrations {
  import opened Wrappers
  import opened Planner
  import opened Backup

  datatype Outcome = Outcome(ok: bool, data: Files)

  type Up = Files -> Outcome

  type Step = Migration<Up>

  function IdOf(m: Step): MigrationId {
    MigrationId(m.from.major, m.from.minor, m.to.major, m.to.minor)
  }

  function IdsOf(pending: seq<Step>): seq<MigrationId> {
    if pending == [] then [] else IdsOf(pending[..|pending| - 1]) + [IdOf(pending[|pending| - 1])]
  }

  // ---------- the recorded state ----------

  function Load(data: Files, app: Version): Result<MigrationState, Error> {
    if STATE_FILE !in data then Ok(MigrationState(app, app, None, []))
    else if data[STATE_FILE].State? then Ok(data[STATE_FILE].state)
    else Err(BadState)
  }

  function Saved(data: Files, state: MigrationState): Files {
    data[STATE_FILE := State(state)]
  }

  function WithEntry(state: MigrationState, entry: HistoryEntry): MigrationState {
    state.(lastMigration := Some(entry.timestamp), schemaVersion := entry.toVersion, history := state.history + [entry])
  }

  function FindEntry(history: seq<HistoryEntry>, id: BackupId): Option<HistoryEntry> {
    if history == [] then None
    else if history[0].backupId == id then Some(history[0])
    else FindEntry(history[1..], id)
  }

  /** The backup of the last run that succeeded. */
  function LatestBackupId(history: seq<HistoryEntry>): Option<BackupId> {
    if history == [] then None
    else if history[|history| - 1].success then Some(history[|history| - 1].backupId)
    else LatestBackupId(history[..|history| - 1])
  }

  // ---------- run, rollback, migrate ----------

  datatype Ran = Ran(data: Files, failed: Option<nat>)

  function RunUps(data: Files, pending: seq<Step>, at: nat): (ran: Ran)
    requires at <= |pending|
    ensures ran.failed.Some? ==> ran.failed.value < |pending|
    decreases |pending| - at
  {
    if at == |pending| then Ran(data, None)
    else
      var outcome := pending[at].up(data);
      if outcome.ok then RunUps(outcome.data, pending, at + 1) else Ran(outcome.data, Some(at))
  }

  datatype Attempt = Attempt(disk: Disk, result: Result<(), Error>)

  /** From the loaded state on, the backup already made. */
  function Applied(disk: Disk, state: MigrationState, pending: seq<Step>, from: Version, to: Version,
                   backup: Option<BackupId>, now: nat): Attempt
  {
    var ran := RunUps(disk.data, pending, 0);
    var after := disk.(data := ran.data);
    if ran.failed.Some? then
      Attempt(if backup.Some? then Restored(after, backup.value) else after,
              Err(MigrationFailed(IdOf(pending[ran.failed.value]))))
    else
      var id := if backup.Some? then backup.value else Named("none");
      var entry := HistoryEntry(from, to, now, id, true, IdsOf(pending));
      Attempt(disk.(data := Saved(ran.data, WithEntry(state, entry))), Ok(()))
  }

  function Run(disk: Disk, app: Version, migrations: seq<Step>, from: Version, to: Version, createBackup: bool,
               backupAt: nat, now: nat): Attempt
    requires AllRaise(migrations)
  {
    var pending := Pending(migrations, from, to);
    if pending == [] then Attempt(disk, Ok(()))
    else
      var saved := if createBackup then Created(disk, app, from, backupAt) else disk;
      if createBackup && disk.manifest.Unreadable? then Attempt(saved, Err(BadManifest))
      else
        var loaded := Load(saved.data, app);
        if loaded.Err? then Attempt(saved, Err(loaded.error))
        else Applied(saved, loaded.value, pending, from, to, if createBackup then Some(StampAt(from, backupAt)) else None, now)
  }

  function Rollback(disk: Disk, app: Version, id: BackupId): Attempt {
    if id !in disk.backups then Attempt(disk, Err(NoSuchBackup))
    else
      var restored := Restored(disk, id);
      var loaded := Load(restored.data, app);
      if loaded.Err? then Attempt(restored, Err(loaded.error))
      else
        var entry := FindEntry(loaded.value.history, id);
        if entry.None? then Attempt(restored, Ok(()))
        else
          var state := loaded.value.(schemaVersion := entry.value.fromVersion);
          Attempt(restored.(data := Saved(restored.data, state)), Ok(()))
  }

  function MigrateIfNeeded(disk: Disk, app: Version, migrations: seq<Step>, backupAt: nat, now: nat): Attempt
    requires AllRaise(migrations)
  {
    var loaded := Load(disk.data, app);
    if loaded.Err? then Attempt(disk, Err(loaded.error))
    else if !Less(loaded.value.schemaVersion, app) then Attempt(disk, Ok(()))
    else Run(disk, app, migrations, loaded.value.schemaVersion, app, true, backupAt, now)
  }

  class MigrationManager {
    const fs: FileSystem
    const app: Version
    const migrations: seq<Step>
    const backupManager: BackupManager

    predicate Valid() {
      backupManager.fs == fs && backupManager.app == app && AllRaise(migrations)
    }

    constructor (fs: FileSystem, app: Version, migrations: seq<Step>)
      requires AllRaise(migrations)
      ensures Valid() && this.fs == fs && this.app == app && this.migrations == migrations
    {
      this.fs, this.app, this.migrations := fs, app, migrations;
      backupManager := new BackupManager(fs, app);
    }

    method RunMigrations(from: Version, to: Version, createBackup: bool, backupAt: nat, now: nat) returns (r: Result<(), Error>)
      requires Valid()
      modifies fs
      ensures Attempt(fs.View(), r) == Run(old(fs.View()), app, migrations, from, to, createBackup, backupAt, now)
    {
      hide Created, Restored, Pending;
      var pending := GetPending(migrations, from, to);
      if |pending| == 0 { return Ok(()); }
      var backupId: Option<BackupId> := None;
      if createBackup {
        var made := backupManager.CreateBackup(from, backupAt);
        if made.Err? { return Err(made.error); }
        backupId := Some(made.value);
      }
      var loaded := Load(fs.data, app);
      if loaded.Err? { return Err(loaded.error); }
      ghost var saved := fs.View();
      var applied: seq<MigrationId> := [];
      var i := 0;
      while i < |pending|
        invariant i <= |pending| && fs.backups == saved.backups && fs.manifest == saved.manifest
        invariant RunUps(saved.data, pending, 0) == RunUps(fs.data, pending, i)
        invariant applied == IdsOf(pending[..i])
      {
        var outcome := pending[i].up(fs.data);
        fs.data := outcome.data;
        if !outcome.ok {
          if backupId.Some? {
            var _ := backupManager.RestoreBackup(backupId.value);
          }
          return Err(MigrationFailed(IdOf(pending[i])));
        }
        assert pending[..i + 1][..i] == pending[..i];
        applied := applied + [IdOf(pending[i])];
        i := i + 1;
      }
      assert pending[..i] == pending;
      var id := if backupId.Some? then backupId.value else Named("none");
      fs.data := Saved(fs.data, WithEntry(loaded.value, HistoryEntry(from, to, now, id, true, applied)));
      r := Ok(());
    }

    method RollbackTo(id: BackupId) returns (r: Result<(), Error>)
      requires Valid()
      modifies fs
      ensures Attempt(fs.View(), r) == Rollback(old(fs.View()), app, id)
    {
      var restored := backupManager.RestoreBackup(id);
      if restored.Err? { return Err(restored.error); }
      var loaded := Load(fs.data, app);
      if loaded.Err? { return Err(loaded.error); }
      var entry := FindEntry(loaded.value.history, id);
      if entry.Some? {
        fs.data := Saved(fs.data, loaded.value.(schemaVersion := entry.value.fromVersion));
      }
      r := Ok(());
    }

    method Migrate(backupAt: nat, now: nat) returns (r: Result<(), Error>)
      requires Valid()
      modifies fs
      ensures Attempt(fs.View(), r) == MigrateIfNeeded(old(fs.View()), app, migrations, backupAt, now)
    {
      var loaded := Load(fs.data, app);
      if loaded.Err? { return Err(loaded.error); }
      if !Less(loaded.value.schemaVersion, app) { return Ok(()); }
      r := RunMigrations(loaded.value.schemaVersion, app, true, backupAt, now);
    }
  }
}
