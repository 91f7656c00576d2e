/**
 What a failed run puts back, what a rollback undoes, what a run records, and that migrating twice
 is migrating once.
 */
module MigrationLaws {
  import opened Wrappers
  import opened Planner
  import opened Backup
  import opened BackupLaws
  import opened Migrations

  /** No earlier backup of this version was made in the same second. */
  ghost predicate FreshId(disk: Disk, id: BackupId) {
    id !in disk.backups && id !in Ids(Listed(disk.manifest))
  }

  /** The clean-up inside CreateBackup spares a backup made now. */
  predicate Survives(disk: Disk, now: nat) {
    Later(Listed(disk.manifest), now) < 5
  }

  // ---------- restoring ----------

  /** The directory of the backup made now, after the clean-up, if it is still there. */
  predicate StillThere(disk: Disk, app: Version, version: Version, now: nat) {
    StampAt(version, now) in Created(disk, app, version, now).backups
  }

  function Earlier(disk: Disk, id: BackupId): Files {
    if id in disk.backups then disk.backups[id] else map[]
  }

  /** Where a tracked file comes from when the backup made now is restored over changed data: the data
      of that moment, else an earlier backup of the same name, else it is left alone. */
  function Source(disk: Disk, app: Version, version: Version, now: nat, changed: Files, name: string): Files {
    if !StillThere(disk, app, version, now) || name !in FILES_TO_BACKUP then changed
    else if name in disk.data then disk.data
    else if name in Earlier(disk, StampAt(version, now)) then Earlier(disk, StampAt(version, now))
    else changed
  }

  lemma RestoredFile(disk: Disk, app: Version, version: Version, now: nat, changed: Files, name: string)
    ensures var saved := Created(disk, app, version, now);
            Same(Restored(saved.(data := changed), StampAt(version, now)).data,
                 Source(disk, app, version, now, changed, name), name)
  {
    hide Created, Copied, FILES_TO_BACKUP;
    var saved := Created(disk, app, version, now);
    if StillThere(disk, app, version, now) {
      BackupHolds(disk, app, version, now, name);
      CopiedFile(FILES_TO_BACKUP, saved.backups[StampAt(version, now)], changed, name);
    }
  }

  lemma CreatedKeepsData(disk: Disk, app: Version, version: Version, now: nat)
    ensures Created(disk, app, version, now).data == disk.data
  {
    hide Copied, Present, SortByTime, Ids;
  }

  /** After a run that failed, whatever its migrations did: with a backup that is still there, every
      tracked file that existed has its earlier contents; every other file is as Source says; and
      without a backup every file is as the migrations left it. */
  lemma FailedRunRestores(disk: Disk, app: Version, migrations: seq<Step>, from: Version, to: Version,
                          createBackup: bool, backupAt: nat, now: nat, name: string)
    requires AllRaise(migrations)
    requires var r := Run(disk, app, migrations, from, to, createBackup, backupAt, now).result;
             r.Err? && r.error.MigrationFailed?
    ensures var after := Run(disk, app, migrations, from, to, createBackup, backupAt, now).disk.data;
            var left := RunUps(disk.data, Pending(migrations, from, to), 0).data;
            && (createBackup ==> !disk.manifest.Unreadable?)
            && Same(after, if createBackup then Source(disk, app, from, backupAt, left, name) else left, name)
            && (createBackup && StillThere(disk, app, from, backupAt) && name in FILES_TO_BACKUP && name in disk.data ==>
                  Same(after, disk.data, name))
  {
    hide Created, Restored, Pending, RunUps, FILES_TO_BACKUP;
    CreatedKeepsData(disk, app, from, backupAt);
    RestoredFile(disk, app, from, backupAt, RunUps(disk.data, Pending(migrations, from, to), 0).data, name);
  }

  /** So the tracked files are exactly what they were if and only if the migrations left none of them
      where there had been none: a restore deletes nothing. */
  lemma FailedRunRestoresExactly(disk: Disk, app: Version, migrations: seq<Step>, from: Version, to: Version,
                                 backupAt: nat, now: nat)
    requires AllRaise(migrations) && FreshId(disk, StampAt(from, backupAt)) && Survives(disk, backupAt)
    requires var r := Run(disk, app, migrations, from, to, true, backupAt, now).result;
             r.Err? && r.error.MigrationFailed?
    ensures var after := Run(disk, app, migrations, from, to, true, backupAt, now).disk.data;
            var left := RunUps(disk.data, Pending(migrations, from, to), 0).data;
            (forall name :: name in FILES_TO_BACKUP ==> Same(after, disk.data, name)) <==>
            (forall name :: name in FILES_TO_BACKUP && name in left ==> name in disk.data)
  {
    hide Run, Pending, RunUps, Created, Later, Ids, FILES_TO_BACKUP;
    FailedRunRestores(disk, app, migrations, from, to, true, backupAt, now, "");
    FreshBackupSurvives(disk, app, from, backupAt);
    forall name | name in FILES_TO_BACKUP
      ensures var after := Run(disk, app, migrations, from, to, true, backupAt, now).disk.data;
              var left := RunUps(disk.data, Pending(migrations, from, to), 0).data;
              Same(after, if name in disk.data then disk.data else left, name)
    {
      FailedRunRestores(disk, app, migrations, from, to, true, backupAt, now, name);
    }
  }

  // ---------- rolling back ----------

  ghost predicate NotRecorded(data: Files, app: Version, id: BackupId) {
    Load(data, app).Ok? && FindEntry(Load(data, app).value.history, id).None?
  }

  lemma {:induction false} FindLast(history: seq<HistoryEntry>, entry: HistoryEntry)
    requires FindEntry(history, entry.backupId).None?
    ensures FindEntry(history + [entry], entry.backupId) == Some(entry)
  {
    if history == [] {
      assert [entry][0] == entry;
    } else {
      FindLast(history[1..], entry);
      assert (history + [entry])[1..] == history[1..] + [entry];
    }
  }

  /** The disk after a run that succeeded with something to do. */
  lemma AfterRun(disk: Disk, app: Version, migrations: seq<Step>, from: Version, to: Version, createBackup: bool,
                 backupAt: nat, now: nat)
    requires AllRaise(migrations) && Pending(migrations, from, to) != []
    requires Run(disk, app, migrations, from, to, createBackup, backupAt, now).result.Ok?
    ensures var after := Run(disk, app, migrations, from, to, createBackup, backupAt, now).disk;
            var pending := Pending(migrations, from, to);
            var id := if createBackup then StampAt(from, backupAt) else Named("none");
            var entry := HistoryEntry(from, to, now, id, true, IdsOf(pending));
            && Load(disk.data, app).Ok?
            && RunUps(disk.data, pending, 0).failed.None?
            && (createBackup ==> !disk.manifest.Unreadable?)
            && after == (if createBackup then Created(disk, app, from, backupAt) else disk).(
                          data := Saved(RunUps(disk.data, pending, 0).data, WithEntry(Load(disk.data, app).value, entry)))
  {
    hide Created, Restored, Pending, RunUps;
    CreatedKeepsData(disk, app, from, backupAt);
  }

  /** The migrations run in order, each on what the one before it left, up to the first that fails:
      the others never run. */
  lemma {:induction false} StopsAtTheFirstFailure(data: Files, pending: seq<Step>, at: nat)
    requires at <= |pending|
    ensures var ran := RunUps(data, pending, at);
            match ran.failed
            case None =>
              at < |pending| ==>
                (var n := |pending| - 1;
                 var before := RunUps(data, pending[..n], at);
                 before.failed.None? && pending[n].up(before.data) == Outcome(true, ran.data))
            case Some(k) =>
              && at <= k < |pending|
              && (var before := RunUps(data, pending[..k], at);
                  before.failed.None? && pending[k].up(before.data) == Outcome(false, ran.data))
    decreases |pending| - at
  {
    if at < |pending| && pending[at].up(data).ok {
      StopsAtTheFirstFailure(pending[at].up(data).data, pending, at + 1);
    } else if at == |pending| {
      assert RunUps(data, pending, at) == Ran(data, None);
    }
  }

  /** A successful run records its target and one more entry, on top of the state that was recorded
      before it, whatever the migrations wrote over the state file. */
  lemma RunRecordsItsTarget(disk: Disk, app: Version, migrations: seq<Step>, from: Version, to: Version,
                            createBackup: bool, backupAt: nat, now: nat)
    requires AllRaise(migrations) && Pending(migrations, from, to) != []
    requires Run(disk, app, migrations, from, to, createBackup, backupAt, now).result.Ok?
    ensures var after := Load(Run(disk, app, migrations, from, to, createBackup, backupAt, now).disk.data, app);
            var before := Load(disk.data, app);
            && before.Ok? && after.Ok?
            && after.value.schemaVersion == to
            && after.value.appVersion == before.value.appVersion
            && (var id := if createBackup then StampAt(from, backupAt) else Named("none");
                after.value.history == before.value.history +
                                       [HistoryEntry(from, to, now, id, true, IdsOf(Pending(migrations, from, to)))]
                && LatestBackupId(after.value.history) == Some(id))
            && after.value.lastMigration == Some(now)
  {
    hide Created, Run, Pending, RunUps, IdsOf;
    AfterRun(disk, app, migrations, from, to, createBackup, backupAt, now);
  }

  /** The recorded version has been reached by migrations if and only if some chain of them reaches
      it: a plan that stops short is recorded as if it had arrived. */
  lemma RecordedVersionIsReached(disk: Disk, app: Version, migrations: seq<Step>, from: Version, to: Version,
                                 createBackup: bool, backupAt: nat, now: nat)
    requires AllRaise(migrations) && UniqueSources(migrations) && Pending(migrations, from, to) != []
    requires Run(disk, app, migrations, from, to, createBackup, backupAt, now).result.Ok?
    ensures var after := Load(Run(disk, app, migrations, from, to, createBackup, backupAt, now).disk.data, app);
            && after.Ok?
            && (after.value.schemaVersion == End(Pending(migrations, from, to), from) <==>
                  exists chain :: IsChain(migrations, chain, from) && End(chain, from) == to)
  {
    hide Run, Pending, Load, UniqueSources, End, IsChain;
    RunRecordsItsTarget(disk, app, migrations, from, to, createBackup, backupAt, now);
    PlanReachesIfAnyChainDoes(migrations, from, to);
  }

  lemma SameState(a: Files, b: Files, app: Version)
    requires Same(a, b, STATE_FILE)
    ensures Load(a, app) == Load(b, app)
  {
  }

  lemma StateFileIsTracked()
    ensures STATE_FILE in FILES_TO_BACKUP
  {
    assert FILES_TO_BACKUP[3] == STATE_FILE;
  }

  /** With an earlier state file, the rollback finds that file restored and the run not in it. */
  lemma RollbackToEarlierState(disk: Disk, app: Version, id: BackupId, now: nat, after: Disk)
    requires id in after.backups && Same(Restored(after, id).data, disk.data, STATE_FILE)
    requires NotRecorded(disk.data, app, id)
    ensures Rollback(after, app, id) == Attempt(Restored(after, id), Ok(()))
  {
    hide Restored, FindEntry, Load;
    SameState(Restored(after, id).data, disk.data, app);
  }

  /** Without one, it finds the state the run has just saved, and the run's own entry in that. */
  lemma RollbackToEntry(after: Disk, app: Version, id: BackupId, state: MigrationState, entry: HistoryEntry, data: Files)
    requires id in after.backups && entry.backupId == id && state.history == []
    requires Same(Restored(after, id).data, Saved(data, WithEntry(state, entry)), STATE_FILE)
    ensures var back := Rollback(after, app, id);
            && back.result.Ok? && Load(back.disk.data, app).Ok?
            && Load(back.disk.data, app).value.schemaVersion == entry.fromVersion
            && forall name :: name != STATE_FILE ==> Same(back.disk.data, Restored(after, id).data, name)
  {
    hide Restored, FindEntry;
    assert FindEntry([], id).None? by { FindNothing(id); }
    FindLast([], entry);
    assert [] + [entry] == [entry];
    SameState(Restored(after, id).data, Saved(data, WithEntry(state, entry)), app);
  }

  lemma FindNothing(id: BackupId)
    ensures FindEntry([], id).None?
  {
  }

  ghost predicate CanRunBackedUp(disk: Disk, app: Version, migrations: seq<Step>, from: Version, to: Version, backupAt: nat, now: nat)
    requires AllRaise(migrations)
  {
    && Pending(migrations, from, to) != []
    && Run(disk, app, migrations, from, to, true, backupAt, now).result.Ok?
    && FreshId(disk, StampAt(from, backupAt)) && NotRecorded(disk.data, app, StampAt(from, backupAt))
  }

  lemma FreshIsKept(disk: Disk, app: Version, version: Version, now: nat)
    requires FreshId(disk, StampAt(version, now)) && !disk.manifest.Unreadable?
    ensures StillThere(disk, app, version, now) <==> Survives(disk, now)
  {
    hide Created, Later, Ids;
    FreshBackupSurvives(disk, app, version, now);
  }

  lemma FreshRestores(disk: Disk, app: Version, version: Version, now: nat, changed: Files, name: string)
    requires FreshId(disk, StampAt(version, now)) && !disk.manifest.Unreadable? && Survives(disk, now)
    ensures var saved := Created(disk, app, version, now);
            Same(Restored(saved.(data := changed), StampAt(version, now)).data,
                 if name in FILES_TO_BACKUP && name in disk.data then disk.data else changed, name)
  {
    hide Created, Restored, Survives, FILES_TO_BACKUP;
    FreshIsKept(disk, app, version, now);
    RestoredFile(disk, app, version, now, changed, name);
  }

  /** Where the rollback of a run with a surviving backup starts from, and how it ends. */
  lemma RolledBack(disk: Disk, app: Version, migrations: seq<Step>, from: Version, to: Version, backupAt: nat, now: nat)
    requires AllRaise(migrations) && CanRunBackedUp(disk, app, migrations, from, to, backupAt, now)
    requires Survives(disk, backupAt)
    ensures var after := Run(disk, app, migrations, from, to, true, backupAt, now).disk;
            var id := StampAt(from, backupAt);
            var back := Rollback(after, app, id);
            && id in after.backups && back.result.Ok? && Load(back.disk.data, app).Ok?
            && (forall name :: name in FILES_TO_BACKUP && name in disk.data ==> Same(Restored(after, id).data, disk.data, name))
            && if STATE_FILE in disk.data then back.disk == Restored(after, id)
               else
                 && Load(back.disk.data, app).value.schemaVersion == from
                 && forall name :: name != STATE_FILE ==> Same(back.disk.data, Restored(after, id).data, name)
  {
    hide Run, Rollback, Restored, Created, Pending, RunUps, Later, Ids, FILES_TO_BACKUP, IdsOf, FindEntry;
    var id := StampAt(from, backupAt);
    var after := Run(disk, app, migrations, from, to, true, backupAt, now).disk;
    AfterRun(disk, app, migrations, from, to, true, backupAt, now);
    FreshIsKept(disk, app, from, backupAt);
    StateFileIsTracked();
    assert after == Created(disk, app, from, backupAt).(data := after.data);
    FreshRestores(disk, app, from, backupAt, after.data, STATE_FILE);
    forall name | name in FILES_TO_BACKUP && name in disk.data
      ensures Same(Restored(after, id).data, disk.data, name)
    {
      FreshRestores(disk, app, from, backupAt, after.data, name);
    }
    if STATE_FILE in disk.data {
      RollbackToEarlierState(disk, app, id, now, after);
    } else {
      var pending := Pending(migrations, from, to);
      var entry := HistoryEntry(from, to, now, id, true, IdsOf(pending));
      RollbackToEntry(after, app, id, Load(disk.data, app).value, entry, RunUps(disk.data, pending, 0).data);
    }
  }

  lemma NoBackupNoRollback(disk: Disk, app: Version, id: BackupId)
    requires id !in disk.backups
    ensures Rollback(disk, app, id) == Attempt(disk, Err(NoSuchBackup))
  {
  }

  /** Running with a backup and rolling it back: the rollback finds its backup exactly when the
      clean-up spared it, and then every tracked file that existed has its earlier contents. */
  lemma RollbackRestores(disk: Disk, app: Version, migrations: seq<Step>, from: Version, to: Version,
                         backupAt: nat, now: nat, name: string)
    requires AllRaise(migrations) && CanRunBackedUp(disk, app, migrations, from, to, backupAt, now)
    ensures var after := Run(disk, app, migrations, from, to, true, backupAt, now).disk;
            var back := Rollback(after, app, StampAt(from, backupAt));
            && (back.result.Ok? <==> Survives(disk, backupAt))
            && (back.result.Err? ==> back.disk == after)
            && (back.result.Ok? && name in FILES_TO_BACKUP && name in disk.data ==> Same(back.disk.data, disk.data, name))
  {
    hide Run, Rollback, Restored, Created, Pending, RunUps, Later, Ids, FILES_TO_BACKUP, FindEntry;
    AfterRun(disk, app, migrations, from, to, true, backupAt, now);
    FreshIsKept(disk, app, from, backupAt);
    if Survives(disk, backupAt) {
      RolledBack(disk, app, migrations, from, to, backupAt, now);
      var after := Run(disk, app, migrations, from, to, true, backupAt, now).disk;
      var back := Rollback(after, app, StampAt(from, backupAt)).disk;
      assert name in FILES_TO_BACKUP && name in disk.data ==> Same(Restored(after, StampAt(from, backupAt)).data, disk.data, name);
      assert name != STATE_FILE ==> Same(back.data, Restored(after, StampAt(from, backupAt)).data, name);
    } else {
      NoBackupNoRollback(Run(disk, app, migrations, from, to, true, backupAt, now).disk, app, StampAt(from, backupAt));
    }
  }

  /** The recorded version is then the one recorded before the run, or `from` if none was: so it is
      `from` again exactly when no other version had been recorded. */
  lemma RollbackUndoesTheVersion(disk: Disk, app: Version, migrations: seq<Step>, from: Version, to: Version,
                                 backupAt: nat, now: nat)
    requires AllRaise(migrations) && CanRunBackedUp(disk, app, migrations, from, to, backupAt, now)
    requires Survives(disk, backupAt)
    ensures var after := Run(disk, app, migrations, from, to, true, backupAt, now).disk;
            var recorded := Load(Rollback(after, app, StampAt(from, backupAt)).disk.data, app);
            && recorded.Ok?
            && (recorded.value.schemaVersion == from <==>
                  STATE_FILE !in disk.data || Load(disk.data, app).value.schemaVersion == from)
  {
    hide Run, Rollback, Restored, Created, Pending, RunUps, Later, Ids, FILES_TO_BACKUP, FindEntry;
    RolledBack(disk, app, migrations, from, to, backupAt, now);
    StateFileIsTracked();
    if STATE_FILE in disk.data {
      var after := Run(disk, app, migrations, from, to, true, backupAt, now).disk;
      SameState(Restored(after, StampAt(from, backupAt)).data, disk.data, app);
    }
  }

  /** A clock that never goes back always spares the backup just made. */
  lemma {:induction false} NoneLaterSurvives(listed: seq<Info>, now: nat)
    requires forall i :: 0 <= i < |listed| ==> listed[i].timestamp <= now
    ensures Later(listed, now) == 0
  {
    if listed != [] {
      NoneLaterSurvives(listed[..|listed| - 1], now);
    }
  }

  // ---------- migrating at every start ----------

  /** Once it has succeeded, migrating again, at any later time, changes nothing. */
  lemma MigratingAgainChangesNothing(disk: Disk, app: Version, migrations: seq<Step>, backupAt: nat, now: nat,
                                     backupAgain: nat, again: nat)
    requires AllRaise(migrations)
    requires MigrateIfNeeded(disk, app, migrations, backupAt, now).result.Ok?
    ensures var once := MigrateIfNeeded(disk, app, migrations, backupAt, now).disk;
            MigrateIfNeeded(once, app, migrations, backupAgain, again) == Attempt(once, Ok(()))
  {
    hide Created, Pending, RunUps, Load;
    var loaded := Load(disk.data, app);
    if loaded.Ok? && Less(loaded.value.schemaVersion, app) && Pending(migrations, loaded.value.schemaVersion, app) != [] {
      RunRecordsItsTarget(disk, app, migrations, loaded.value.schemaVersion, app, true, backupAt, now);
    }
  }

  /** A failed migration with a backup still there leaves the recorded state as it was, so the next
      start loads the same version and plans the same migrations. */
  lemma FailedMigrationIsTriedAgain(disk: Disk, app: Version, migrations: seq<Step>, backupAt: nat, now: nat)
    requires AllRaise(migrations)
    requires var r := MigrateIfNeeded(disk, app, migrations, backupAt, now).result;
             r.Err? && r.error.MigrationFailed?
    requires Load(disk.data, app).Ok? && StillThere(disk, app, Load(disk.data, app).value.schemaVersion, backupAt)
    ensures Load(MigrateIfNeeded(disk, app, migrations, backupAt, now).disk.data, app) == Load(disk.data, app)
  {
    hide Run, StillThere, FILES_TO_BACKUP;
    var from := Load(disk.data, app).value.schemaVersion;
    StateFileIsTracked();
    FailedRunRestores(disk, app, migrations, from, app, true, backupAt, now, STATE_FILE);
    SameState(Run(disk, app, migrations, from, app, true, backupAt, now).disk.data, disk.data, app);
  }

  // ---------- what decides how a run ends ----------

  /** With something to do, a run succeeds exactly when its backup's manifest, the recorded state and
      every migration let it; it fails on the first of these that does not, and before any migration has
      run no data has changed. */
  lemma RunSucceedsExactly(disk: Disk, app: Version, migrations: seq<Step>, from: Version, to: Version, createBackup: bool,
                           backupAt: nat, now: nat)
    requires AllRaise(migrations)
    ensures var run := Run(disk, app, migrations, from, to, createBackup, backupAt, now);
            var pending := Pending(migrations, from, to);
            var ran := RunUps(disk.data, pending, 0);
            && (pending == [] ==> run == Attempt(disk, Ok(())))
            && (pending != [] ==>
                  && (run.result.Ok? <==>
                        && !(createBackup && disk.manifest.Unreadable?)
                        && (STATE_FILE in disk.data ==> disk.data[STATE_FILE].State?) && ran.failed.None?)
                  && (createBackup && disk.manifest.Unreadable? ==> run.result == Err(BadManifest) && run.disk.data == disk.data)
                  && (!(createBackup && disk.manifest.Unreadable?) && STATE_FILE in disk.data && disk.data[STATE_FILE].Raw? ==>
                        run.result == Err(BadState) && run.disk.data == disk.data)
                  && (ran.failed.Some? && !(createBackup && disk.manifest.Unreadable?) &&
                      (STATE_FILE in disk.data ==> disk.data[STATE_FILE].State?) ==>
                        run.result == Err(MigrationFailed(IdOf(pending[ran.failed.value])))))
  {
    hide Created, Restored, Pending, RunUps, IdsOf;
    CreatedKeepsData(disk, app, from, backupAt);
  }

  /** Migrating at a start runs what is pending from the recorded version to the program's, with a
      backup, exactly when the recorded version is the older; without a state file, or with nothing
      pending, nothing is touched. */
  lemma MigratesExactlyWhatIsOlder(disk: Disk, app: Version, migrations: seq<Step>, backupAt: nat, now: nat)
    requires AllRaise(migrations)
    ensures var attempt := MigrateIfNeeded(disk, app, migrations, backupAt, now);
            && (STATE_FILE !in disk.data ==> attempt == Attempt(disk, Ok(())))
            && (STATE_FILE in disk.data && disk.data[STATE_FILE].Raw? ==> attempt == Attempt(disk, Err(BadState)))
            && (STATE_FILE in disk.data && disk.data[STATE_FILE].State? ==>
                  var recorded := disk.data[STATE_FILE].state.schemaVersion;
                  if Less(recorded, app) && Pending(migrations, recorded, app) != [] then
                    && (attempt.result.Ok? ==>
                          && Load(attempt.disk.data, app).Ok? && Load(attempt.disk.data, app).value.schemaVersion == app
                          && RunUps(disk.data, Pending(migrations, recorded, app), 0).failed.None?
                          && (forall name :: name != STATE_FILE ==>
                                Same(attempt.disk.data, RunUps(disk.data, Pending(migrations, recorded, app), 0).data, name)))
                    && attempt.disk.backups == (if disk.manifest.Unreadable? then attempt.disk.backups
                                                else Created(disk, app, recorded, backupAt).backups)
                  else attempt == Attempt(disk, Ok(())))
  {
    hide Created, Pending, RunUps, IdsOf, Run;
    if STATE_FILE in disk.data && disk.data[STATE_FILE].State? {
      var recorded := disk.data[STATE_FILE].state.schemaVersion;
      if Less(recorded, app) {
        RunKeepsBackups(disk, app, migrations, recorded, app, backupAt, now);
        if Pending(migrations, recorded, app) != [] && Run(disk, app, migrations, recorded, app, true, backupAt, now).result.Ok? {
          AfterRun(disk, app, migrations, recorded, app, true, backupAt, now);
        }
      }
    }
  }

  lemma RunKeepsBackups(disk: Disk, app: Version, migrations: seq<Step>, from: Version, to: Version, backupAt: nat, now: nat)
    requires AllRaise(migrations)
    ensures var run := Run(disk, app, migrations, from, to, true, backupAt, now);
            if Pending(migrations, from, to) == [] then run == Attempt(disk, Ok(()))
            else run.disk.backups == Created(disk, app, from, backupAt).backups
  {
    hide Created, Pending, RunUps, IdsOf, Copied;
  }

  // ---------- the history ----------

  /** Each applied migration by its id: both versions without their patch numbers, in the order run. */
  lemma {:induction false} IdsInOrder(pending: seq<Step>, i: nat)
    ensures |IdsOf(pending)| == |pending|
    ensures i < |pending| ==>
              IdsOf(pending)[i] == MigrationId(pending[i].from.major, pending[i].from.minor, pending[i].to.major, pending[i].to.minor)
  {
    if pending != [] {
      IdsInOrder(pending[..|pending| - 1], i);
    }
  }

  /** The entry found is the first that has the id. */
  lemma {:induction false} FindsTheFirst(history: seq<HistoryEntry>, id: BackupId, i: nat)
    ensures FindEntry(history, id).None? <==> forall j :: 0 <= j < |history| ==> history[j].backupId != id
    ensures i < |history| && history[i].backupId == id && (forall j :: 0 <= j < i ==> history[j].backupId != id) ==>
              FindEntry(history, id) == Some(history[i])
  {
    if history != [] && history[0].backupId != id {
      FindsTheFirst(history[1..], id, if i == 0 then 0 else i - 1);
      assert forall j :: 1 <= j < |history| ==> history[j] == history[1..][j - 1];
    }
  }

  /** The latest backup of a state is that of the last entry that succeeded. */
  lemma {:induction false} LatestIsLastSuccess(history: seq<HistoryEntry>, i: nat)
    ensures LatestBackupId(history).None? <==> forall j :: 0 <= j < |history| ==> !history[j].success
    ensures i < |history| && history[i].success && (forall j :: i < j < |history| ==> !history[j].success) ==>
              LatestBackupId(history) == Some(history[i].backupId)
  {
    if history != [] && !history[|history| - 1].success {
      LatestIsLastSuccess(history[..|history| - 1], i);
    }
  }

  // ---------- rolling back past later runs ----------

  datatype Job = Job(from: Version, to: Version, createBackup: bool, backupAt: nat, now: nat)

  function RunJob(disk: Disk, app: Version, migrations: seq<Step>, job: Job): Attempt
    requires AllRaise(migrations)
  {
    Run(disk, app, migrations, job.from, job.to, job.createBackup, job.backupAt, job.now)
  }

  /** Further runs, one after the other. */
  function RunAll(disk: Disk, app: Version, migrations: seq<Step>, jobs: seq<Job>): Disk
    requires AllRaise(migrations)
  {
    if jobs == [] then disk
    else RunJob(RunAll(disk, app, migrations, jobs[..|jobs| - 1]), app, migrations, jobs[|jobs| - 1]).disk
  }

  /** Each of them succeeds, and none makes a backup of the given id. */
  ghost predicate SucceedWithout(disk: Disk, app: Version, migrations: seq<Step>, jobs: seq<Job>, id: BackupId)
    requires AllRaise(migrations)
  {
    jobs == [] ||
    (var before, job := jobs[..|jobs| - 1], jobs[|jobs| - 1];
     && SucceedWithout(disk, app, migrations, before, id)
     && RunJob(RunAll(disk, app, migrations, before), app, migrations, job).result.Ok?
     && (job.createBackup ==> Stamp(job.from, job.backupAt / 1_000_000_000) != id))
  }

  /** What one more successful run leaves: the recorded history, extended, and the other directories. */
  lemma OneMoreRun(disk: Disk, app: Version, migrations: seq<Step>, job: Job, id: BackupId)
    requires AllRaise(migrations) && RunJob(disk, app, migrations, job).result.Ok? && Load(disk.data, app).Ok?
    requires job.createBackup ==> Stamp(job.from, job.backupAt / 1_000_000_000) != id
    ensures var after := RunJob(disk, app, migrations, job).disk;
            && (id in after.backups ==> id in disk.backups && after.backups[id] == disk.backups[id])
            && Load(after.data, app).Ok?
            && Load(disk.data, app).value.history <= Load(after.data, app).value.history
            && (STATE_FILE in disk.data ==> STATE_FILE in after.data)
  {
    hide Created, Pending, RunUps, IdsOf, Run;
    var pending := Pending(migrations, job.from, job.to);
    if pending == [] {
      NothingToRun(disk, app, migrations, job);
    } else {
      AfterRun(disk, app, migrations, job.from, job.to, job.createBackup, job.backupAt, job.now);
      if job.createBackup {
        CreatedKeepsOthers(disk, app, job.from, job.backupAt, id);
      }
    }
  }

  lemma NothingToRun(disk: Disk, app: Version, migrations: seq<Step>, job: Job)
    requires AllRaise(migrations) && Pending(migrations, job.from, job.to) == []
    ensures RunJob(disk, app, migrations, job).disk == disk
  {
  }

  lemma {:induction false} LaterRuns(disk: Disk, app: Version, migrations: seq<Step>, jobs: seq<Job>, id: BackupId)
    requires AllRaise(migrations) && SucceedWithout(disk, app, migrations, jobs, id) && Load(disk.data, app).Ok?
    ensures var after := RunAll(disk, app, migrations, jobs);
            && (id in after.backups ==> id in disk.backups && after.backups[id] == disk.backups[id])
            && Load(after.data, app).Ok?
            && Load(disk.data, app).value.history <= Load(after.data, app).value.history
            && (STATE_FILE in disk.data ==> STATE_FILE in after.data)
  {
    hide RunJob, Load;
    if jobs != [] {
      var before, job := jobs[..|jobs| - 1], jobs[|jobs| - 1];
      LaterRuns(disk, app, migrations, before, id);
      OneMoreRun(RunAll(disk, app, migrations, before), app, migrations, job, id);
    }
  }

  /** Restoring a backup that is still as it was made, over whatever data there is by now. */
  lemma DirectoryRestores(disk: Disk, app: Version, version: Version, made: nat, later: Disk, name: string)
    requires FreshId(disk, StampAt(version, made)) && StillThere(disk, app, version, made)
    requires var id := StampAt(version, made);
             id in later.backups && later.backups[id] == Created(disk, app, version, made).backups[id]
    ensures Same(Restored(later, StampAt(version, made)).data,
                 if name in FILES_TO_BACKUP && name in disk.data then disk.data else later.data, name)
  {
    hide Created, Copied, FILES_TO_BACKUP, Ids;
    BackupHolds(disk, app, version, made, name);
    CopiedFile(FILES_TO_BACKUP, later.backups[StampAt(version, made)], later.data, name);
  }

  lemma RollbackToFirstEntry(later: Disk, app: Version, id: BackupId)
    requires id in later.backups && Same(Restored(later, id).data, later.data, STATE_FILE)
    requires Load(later.data, app).Ok? && Load(later.data, app).value.history != []
    requires Load(later.data, app).value.history[0].backupId == id
    ensures var back, entry := Rollback(later, app, id), Load(later.data, app).value.history[0];
            && back.result.Ok? && Load(back.disk.data, app).Ok?
            && Load(back.disk.data, app).value.schemaVersion == entry.fromVersion
            && forall name :: name != STATE_FILE ==> Same(back.disk.data, Restored(later, id).data, name)
  {
    hide Restored;
    SameState(Restored(later, id).data, later.data, app);
  }

  /** The disk after the run, and after any further successful ones that do not reuse its backup's id. */
  ghost predicate RanOn(disk: Disk, app: Version, migrations: seq<Step>, from: Version, to: Version, backupAt: nat, now: nat,
                        jobs: seq<Job>, later: Disk)
    requires AllRaise(migrations)
  {
    var first := Run(disk, app, migrations, from, to, true, backupAt, now).disk;
    && CanRunBackedUp(disk, app, migrations, from, to, backupAt, now)
    && SucceedWithout(first, app, migrations, jobs, StampAt(from, backupAt))
    && later == RunAll(first, app, migrations, jobs)
  }

  lemma LaterFacts(disk: Disk, app: Version, migrations: seq<Step>, from: Version, to: Version, backupAt: nat, now: nat,
                   jobs: seq<Job>, later: Disk)
    requires AllRaise(migrations) && RanOn(disk, app, migrations, from, to, backupAt, now, jobs, later)
    requires StampAt(from, backupAt) in later.backups
    ensures var id := StampAt(from, backupAt);
            && StillThere(disk, app, from, backupAt) && later.backups[id] == Created(disk, app, from, backupAt).backups[id]
            && Load(later.data, app).Ok?
            && (STATE_FILE !in disk.data ==>
                  var history := Load(later.data, app).value.history;
                  history != [] && history[0].backupId == id && history[0].fromVersion == from)
  {
    hide Created, Pending, RunUps, IdsOf, Run, RunAll, SucceedWithout, FreshId, NotRecorded;
    AfterRun(disk, app, migrations, from, to, true, backupAt, now);
    LaterRuns(Run(disk, app, migrations, from, to, true, backupAt, now).disk, app, migrations, jobs, StampAt(from, backupAt));
  }

  /** Rolling back a run after any number of further runs succeeds exactly while its backup is still
      there, and then does what it would have done at once: tracked files that existed have their
      contents of that time, and the recorded version is `from` again exactly when no other version had
      been recorded, whatever the later runs recorded. */
  lemma RollbackPastLaterRuns(disk: Disk, app: Version, migrations: seq<Step>, from: Version, to: Version, backupAt: nat,
                              now: nat, jobs: seq<Job>, later: Disk)
    requires AllRaise(migrations) && RanOn(disk, app, migrations, from, to, backupAt, now, jobs, later)
    ensures var id := StampAt(from, backupAt);
            var back := Rollback(later, app, id);
            && (back.result.Ok? <==> id in later.backups)
            && (back.result.Ok? ==>
                  && (forall name :: name in FILES_TO_BACKUP && name in disk.data ==> Same(back.disk.data, disk.data, name))
                  && Load(back.disk.data, app).Ok?
                  && (Load(back.disk.data, app).value.schemaVersion == from <==>
                        STATE_FILE !in disk.data || Load(disk.data, app).value.schemaVersion == from))
  {
    hide Run, RunAll, Rollback, Restored, Created, Pending, SucceedWithout, FILES_TO_BACKUP, FindEntry, Load;
    var id := StampAt(from, backupAt);
    if id in later.backups {
      LaterFacts(disk, app, migrations, from, to, backupAt, now, jobs, later);
      StateFileIsTracked();
      DirectoryRestores(disk, app, from, backupAt, later, STATE_FILE);
      forall name | name in FILES_TO_BACKUP && name in disk.data
        ensures Same(Restored(later, id).data, disk.data, name)
      {
        DirectoryRestores(disk, app, from, backupAt, later, name);
      }
      if STATE_FILE in disk.data {
        RollbackToEarlierState(disk, app, id, now, later);
        SameState(Restored(later, id).data, disk.data, app);
      } else {
        RollbackToFirstEntry(later, app, id);
        var back := Rollback(later, app, id).disk;
        forall name | name in FILES_TO_BACKUP && name in disk.data
          ensures Same(back.data, disk.data, name)
        {
          assert Same(back.data, Restored(later, id).data, name);
        }
      }
    } else {
      NoBackupNoRollback(later, app, id);
    }
  }
}
