/**
 What a backup just made can count on, and what a sequence of backups leaves behind.
 */
module BackupLaws {
  import opened Wrappers
  import opened Planner
  import opened Backup

  // ---------- the sort is a stable sort ----------

  predicate Sorted(s: seq<Info>) {
    |s| < 2 || (s[|s| - 2].timestamp <= s[|s| - 1].timestamp && Sorted(s[..|s| - 1]))
  }

  /** The entries made at one time, in order. */
  function At(s: seq<Info>, time: nat): seq<Info> {
    if s == [] then []
    else At(s[..|s| - 1], time) + if s[|s| - 1].timestamp == time then [s[|s| - 1]] else []
  }

  function Later(s: seq<Info>, time: nat): nat {
    if s == [] then 0
    else Later(s[..|s| - 1], time) + if s[|s| - 1].timestamp > time then 1 else 0
  }

  lemma {:induction false} NothingLater(s: seq<Info>, time: nat)
    requires Sorted(s) && (s == [] || s[|s| - 1].timestamp <= time)
    ensures Later(s, time) == 0
  {
    if s != [] {
      NothingLater(s[..|s| - 1], time);
    }
  }

  lemma {:induction false} InsertSorts(e: Info, s: seq<Info>)
    requires Sorted(s)
    ensures Sorted(Insert(e, s))
    ensures Insert(e, s) != []
    ensures var last := Insert(e, s)[|Insert(e, s)| - 1].timestamp;
            s == [] || (last == if s[|s| - 1].timestamp <= e.timestamp then e.timestamp else s[|s| - 1].timestamp)
    ensures s == [] ==> Insert(e, s) == [e]
  {
    if s != [] && s[|s| - 1].timestamp > e.timestamp {
      var t := s[..|s| - 1];
      InsertSorts(e, t);
      var r := Insert(e, t);
      assert Insert(e, s)[..|r|] == r;
    } else {
      assert (s + [e])[..|s|] == s;
    }
  }

  lemma AtSnoc(s: seq<Info>, e: Info, time: nat)
    ensures At(s + [e], time) == At(s, time) + if e.timestamp == time then [e] else []
  {
    assert (s + [e])[..|s|] == s;
  }

  lemma {:induction false} InsertBehindItsEquals(e: Info, s: seq<Info>, time: nat)
    ensures At(Insert(e, s), time) == At(s, time) + if e.timestamp == time then [e] else []
  {
    hide At;
    if s == [] || s[|s| - 1].timestamp <= e.timestamp {
      AtSnoc(s, e, time);
    } else {
      var t, last := s[..|s| - 1], s[|s| - 1];
      InsertBehindItsEquals(e, t, time);
      AtSnoc(Insert(e, t), last, time);
      AtSnoc(t, last, time);
      assert t + [last] == s;
      assert At(t, time) + [] == At(t, time);
    }
  }

  /** Sorted by time, and entries of one time stay in their order: this determines the result. */
  lemma {:induction false} SortIsStable(s: seq<Info>, time: nat)
    ensures Sorted(SortByTime(s)) && At(SortByTime(s), time) == At(s, time)
  {
    if s != [] {
      var t := s[..|s| - 1];
      SortIsStable(t, time);
      InsertSorts(s[|s| - 1], SortByTime(t));
      InsertBehindItsEquals(s[|s| - 1], SortByTime(t), time);
    }
  }

  lemma InsertAtEnd(e: Info, s: seq<Info>)
    requires s == [] || s[|s| - 1].timestamp <= e.timestamp
    ensures Insert(e, s) == s + [e]
  {
  }

  lemma {:induction false} SortedStays(s: seq<Info>)
    requires Sorted(s)
    ensures SortByTime(s) == s
  {
    hide Insert;
    if s != [] {
      var before, e := s[..|s| - 1], s[|s| - 1];
      SortedStays(before);
      InsertAtEnd(e, before);
      assert SortByTime(s) == Insert(e, before);
      assert before + [e] == s;
    }
  }

  lemma PlaceSnoc<T>(t: seq<T>, p: nat, e: T, last: T)
    requires p <= |t|
    ensures (t[..p] + [e] + t[p..]) + [last] == (t + [last])[..p] + [e] + (t + [last])[p..]
  {
  }

  lemma {:induction false} InsertPlace(e: Info, s: seq<Info>)
    requires Sorted(s)
    ensures Later(s, e.timestamp) <= |s|
    ensures var p := |s| - Later(s, e.timestamp);
            Insert(e, s) == s[..p] + [e] + s[p..]
  {
    if s == [] || s[|s| - 1].timestamp <= e.timestamp {
      NothingLater(s, e.timestamp);
      assert s[..|s|] + [e] + s[|s|..] == s + [e];
    } else {
      var t, last := s[..|s| - 1], s[|s| - 1];
      InsertPlace(e, t);
      PlaceSnoc(t, |t| - Later(t, e.timestamp), e, last);
      assert s == t + [last];
    }
  }

  lemma {:induction false} InsertKeepsLater(e: Info, s: seq<Info>, time: nat)
    ensures Later(Insert(e, s), time) == Later(s, time) + if e.timestamp > time then 1 else 0
  {
    if s == [] || s[|s| - 1].timestamp <= e.timestamp {
      assert (s + [e])[..|s|] == s;
    } else {
      var t, last := s[..|s| - 1], s[|s| - 1];
      InsertKeepsLater(e, t, time);
      assert (Insert(e, t) + [last])[..|Insert(e, t)|] == Insert(e, t);
    }
  }

  lemma {:induction false} SortKeepsEntries(s: seq<Info>, time: nat)
    ensures Later(SortByTime(s), time) == Later(s, time)
    ensures Ids(SortByTime(s)) == Ids(s)
  {
    if s != [] {
      var n := |s| - 1;
      SortKeepsEntries(s[..n], time);
      InsertKeepsLater(s[n], SortByTime(s[..n]), time);
      InsertAddsId(s[n], SortByTime(s[..n]));
      OneMoreId(s, n);
      assert s[..n + 1] == s;
    }
  }

  lemma {:induction false} InsertAddsId(e: Info, s: seq<Info>)
    ensures Ids(Insert(e, s)) == Ids(s) + {e.id}
  {
    if s == [] || s[|s| - 1].timestamp <= e.timestamp {
      IdsSnoc(s, e);
    } else {
      var n := |s| - 1;
      InsertAddsId(e, s[..n]);
      IdsSnoc(Insert(e, s[..n]), s[n]);
      IdsSnoc(s[..n], s[n]);
      assert s[..n] + [s[n]] == s;
    }
  }

  lemma IdsSnoc(s: seq<Info>, e: Info)
    ensures Ids(s + [e]) == Ids(s) + {e.id}
  {
    OneMoreId(s + [e], |s|);
    assert (s + [e])[..|s|] == s && (s + [e])[..|s| + 1] == s + [e];
  }

  // ---------- the backup just made ----------

  /** The clean-up inside CreateBackup spares the new backup exactly when fewer than five listed
      backups carry a later time: with a clock that never goes back, always. */
  lemma FreshBackupSurvives(disk: Disk, app: Version, version: Version, now: nat)
    requires !disk.manifest.Unreadable? && StampAt(version, now) !in Ids(Listed(disk.manifest))
    ensures StampAt(version, now) in Created(disk, app, version, now).backups <==>
            Later(Listed(disk.manifest), now) < 5
  {
    hide SortByTime, Copied, Present;
    var id, past, info := StampAt(version, now), Listed(disk.manifest), InfoOf(disk.data, app, version, now);
    var n := |past| + 1;
    LaterFits(past, now);
    if n > MAX_BACKUPS {
      RemovedFirst(past, info);
      SortKeepsLength(past + [info]);
      assert SortByTime(past + [info])[..n - MAX_BACKUPS] == Gone(past, info);
    }
  }

  lemma {:induction false} LaterFits(s: seq<Info>, time: nat)
    ensures Later(s, time) <= |s|
  {
    if s != [] {
      LaterFits(s[..|s| - 1], time);
    }
  }

  function Gone(past: seq<Info>, info: Info): seq<Info>
    requires |past| + 1 > MAX_BACKUPS
  {
    SortKeepsLength(past + [info]);
    SortByTime(past + [info])[..|past| + 1 - MAX_BACKUPS]
  }

  lemma SortSnoc(s: seq<Info>, e: Info)
    ensures SortByTime(s + [e]) == Insert(e, SortByTime(s))
  {
    assert (s + [e])[..|s|] == s;
  }

  lemma RemovedFirst(past: seq<Info>, info: Info)
    requires |past| + 1 > MAX_BACKUPS && info.id !in Ids(past)
    ensures info.id in Ids(Gone(past, info)) <==> Later(past, info.timestamp) >= MAX_BACKUPS
  {
    hide SortByTime, Insert, Sorted, Later, Ids;
    var s := SortByTime(past);
    SortSnoc(past, info);
    SortKeepsLength(past);
    SortKeepsEntries(past, info.timestamp);
    SortIsStable(past, 0);
    InsertPlace(info, s);
    IdAtPlace(s, info, |s| - Later(s, info.timestamp), |past| + 1 - MAX_BACKUPS);
  }

  lemma IdAtPlace(s: seq<Info>, e: Info, p: nat, k: nat)
    requires p <= |s| && k <= |s| + 1 && e.id !in Ids(s)
    ensures e.id in Ids((s[..p] + [e] + s[p..])[..k]) <==> p < k
  {
    var t := s[..p] + [e] + s[p..];
    if p < k {
      assert t[..k][p].id == e.id;
    }
    forall i | 0 <= i < k && i != p
      ensures t[..k][i].id != e.id
    {
      assert t[i] == if i < p then s[i] else s[i - 1];
      assert s[if i < p then i else i - 1].id in Ids(s);
    }
  }

  /** A file is the same in two directories, or in neither. */
  ghost predicate Same(a: Files, b: Files, name: string) {
    (name in a <==> name in b) && (name in a ==> a[name] == b[name])
  }

  /** If it is spared it holds the tracked files as they were, besides what an earlier backup of the
      same name had left in its directory. */
  lemma BackupHolds(disk: Disk, app: Version, version: Version, now: nat, name: string)
    requires StampAt(version, now) in Created(disk, app, version, now).backups
    ensures var id := StampAt(version, now);
            var there := if id in disk.backups then disk.backups[id] else map[];
            Same(Created(disk, app, version, now).backups[id],
                 if name in FILES_TO_BACKUP && name in disk.data then disk.data else there, name)
  {
    hide SortByTime, Copied, Present, Ids;
    var id := StampAt(version, now);
    CopiedFile(FILES_TO_BACKUP, disk.data, if id in disk.backups then disk.backups[id] else map[], name);
  }

  /** The manifest's list of files names exactly those a backup in a new directory holds. */
  lemma {:induction false} InfoListsTheCopy(names: seq<string>, data: Files, name: string)
    ensures name in Present(names, data) <==> name in Copied(names, data, map[])
  {
    if names != [] {
      InfoListsTheCopy(names[..|names| - 1], data, name);
    }
  }

  // ---------- backups one after another ----------

  /** The tracked files as they stand, and the moment of a backup. */
  datatype Request = Request(data: Files, version: Version, now: nat)

  function AllMade(app: Version, requests: seq<Request>): Disk {
    if requests == [] then Disk(map[], map[], Missing)
    else
      var last := requests[|requests| - 1];
      Created(AllMade(app, requests[..|requests| - 1]).(data := last.data), app, last.version, last.now)
  }

  function Infos(app: Version, requests: seq<Request>): seq<Info> {
    if requests == [] then []
    else
      var last := requests[|requests| - 1];
      Infos(app, requests[..|requests| - 1]) + [InfoOf(last.data, app, last.version, last.now)]
  }

  /** Ids differ and times never go back. */
  predicate InOrder(app: Version, requests: seq<Request>) {
    requests == [] ||
    (var before, last := requests[..|requests| - 1], requests[|requests| - 1];
     && StampAt(last.version, last.now) !in Ids(Infos(app, before))
     && (before != [] ==> before[|before| - 1].now <= last.now)
     && InOrder(app, before))
  }

  function Newest(s: seq<Info>): seq<Info> {
    if |s| <= MAX_BACKUPS then s else s[|s| - MAX_BACKUPS..]
  }

  predicate Distinct(s: seq<Info>) {
    s == [] || (s[|s| - 1].id !in Ids(s[..|s| - 1]) && Distinct(s[..|s| - 1]))
  }

  /** One more backup with a new id and no earlier time: it goes to the end, and a sixth pushes the
      oldest out of the manifest and of the directory alike. */
  lemma CreatedInOrder(disk: Disk, app: Version, version: Version, now: nat)
    requires !disk.manifest.Unreadable? && |Listed(disk.manifest)| <= MAX_BACKUPS
    requires Sorted(Listed(disk.manifest) + [InfoOf(disk.data, app, version, now)])
    requires StampAt(version, now) !in disk.backups
    ensures var id, listed := StampAt(version, now), Listed(disk.manifest) + [InfoOf(disk.data, app, version, now)];
            var copies := disk.backups[id := Copied(FILES_TO_BACKUP, disk.data, map[])];
            Created(disk, app, version, now) ==
            Disk(disk.data, if |listed| <= MAX_BACKUPS then copies else copies - {listed[0].id}, Manifest(Newest(listed)))
  {
    hide SortByTime, Copied, Present, Sorted;
    var listed := Listed(disk.manifest) + [InfoOf(disk.data, app, version, now)];
    if |listed| > MAX_BACKUPS {
      SortedStays(listed);
      OneMoreId(listed, 0);
      assert Ids(listed[..1]) == {listed[0].id};
    }
  }

  /** The newest backups have their directories, with the tracked files as they were then. */
  ghost predicate Kept(app: Version, requests: seq<Request>, backups: map<BackupId, Files>) {
    && backups.Keys == Ids(Newest(Infos(app, requests)))
    && forall i :: 0 <= i < |requests| && |requests| - MAX_BACKUPS <= i ==>
         var id := StampAt(requests[i].version, requests[i].now);
         id in backups && backups[id] == Copied(FILES_TO_BACKUP, requests[i].data, map[])
  }

  lemma {:induction false} InfosAt(app: Version, requests: seq<Request>, i: nat)
    ensures |Infos(app, requests)| == |requests|
    ensures i < |requests| ==>
              Infos(app, requests)[i] == InfoOf(requests[i].data, app, requests[i].version, requests[i].now)
  {
    if requests != [] {
      InfosAt(app, requests[..|requests| - 1], i);
    }
  }

  lemma {:induction false} InfosInOrder(app: Version, requests: seq<Request>)
    requires InOrder(app, requests)
    ensures Sorted(Infos(app, requests)) && Distinct(Infos(app, requests))
  {
    if requests != [] {
      var n := |requests| - 1;
      var before := requests[..n];
      InfosInOrder(app, before);
      if n > 0 {
        InfosAt(app, before, n - 1);
      } else {
        assert before == [];
      }
      assert Infos(app, requests)[..n] == Infos(app, before);
    }
  }

  lemma {:induction false} SortedSuffix(s: seq<Info>, k: nat)
    requires Sorted(s) && k <= |s|
    ensures Sorted(s[k..])
  {
    if k < |s| {
      SortedSuffix(s[..|s| - 1], k);
      assert s[k..][..|s| - 1 - k] == s[..|s| - 1][k..];
    } else {
      assert s[k..] == [];
    }
  }

  lemma {:induction false} DistinctIds(s: seq<Info>, i: nat, j: nat)
    requires Distinct(s) && i < j < |s|
    ensures s[i].id != s[j].id
  {
    var n := |s| - 1;
    if j < n {
      DistinctIds(s[..n], i, j);
    } else {
      assert s[..n][i].id in Ids(s[..n]);
    }
  }

  lemma IdsOfSuffix(s: seq<Info>, k: nat)
    requires k <= |s|
    ensures Ids(s[k..]) <= Ids(s)
  {
    forall id | id in Ids(s[k..])
      ensures id in Ids(s)
    {
      var i :| 0 <= i < |s| - k && s[k..][i].id == id;
      assert s[k + i].id == id;
    }
  }

  lemma DropFirstId(s: seq<Info>)
    requires s != [] && Distinct(s)
    ensures Ids(s[1..]) == Ids(s) - {s[0].id}
  {
    IdsOfSuffix(s, 1);
    forall id | id in Ids(s) - {s[0].id}
      ensures id in Ids(s[1..])
    {
      var i :| 0 <= i < |s| && s[i].id == id;
      assert s[1..][i - 1].id == id;
    }
    forall i | 1 <= i < |s|
      ensures s[i].id != s[0].id
    {
      DistinctIds(s, 0, i);
    }
    forall id | id in Ids(s[1..])
      ensures id != s[0].id
    {
      var i :| 0 <= i < |s| - 1 && s[1..][i].id == id;
      assert s[1 + i].id == id;
    }
  }

  lemma {:induction false} DistinctSuffix(s: seq<Info>, k: nat)
    requires Distinct(s) && k <= |s|
    ensures Distinct(s[k..])
  {
    if k < |s| {
      var n := |s| - 1;
      DistinctSuffix(s[..n], k);
      assert s[k..][..n - k] == s[..n][k..];
      IdsOfSuffix(s[..n], k);
    } else {
      assert s[k..] == [];
    }
  }

  /** What CreatedInOrder does to the newest of a list is what appending does to the list. */
  lemma NewestSnoc(s: seq<Info>, e: Info)
    ensures var listed := Newest(s) + [e];
            && Newest(listed) == Newest(s + [e])
            && listed == (s + [e])[|s| - |Newest(s)|..]
            && (|listed| > MAX_BACKUPS ==> |s| >= MAX_BACKUPS && listed[0] == (s + [e])[|s| - MAX_BACKUPS])
  {
  }

  lemma IdsOfSix(kept: seq<Info>, e: Info)
    requires Distinct(kept + [e]) && |kept| <= MAX_BACKUPS
    ensures e.id !in Ids(kept)
    ensures Ids(Newest(kept + [e])) == Ids(kept) + {e.id} - if |kept| == MAX_BACKUPS then {(kept + [e])[0].id} else {}
  {
    hide Ids, Sorted;
    assert (kept + [e])[..|kept|] == kept;
    IdsSnoc(kept, e);
    if |kept| == MAX_BACKUPS {
      DropFirstId(kept + [e]);
    }
  }

  lemma NewestIds(s: seq<Info>, e: Info)
    requires Distinct(s + [e]) && Sorted(s + [e])
    ensures var listed := Newest(s) + [e];
            && Sorted(listed)
            && e.id !in Ids(Newest(s))
            && Ids(Newest(listed)) == Ids(Newest(s)) + {e.id} - if |listed| > MAX_BACKUPS then {listed[0].id} else {}
  {
    hide Ids, Sorted, Distinct;
    var k := |s| - |Newest(s)|;
    NewestSnoc(s, e);
    SortedSuffix(s + [e], k);
    DistinctSuffix(s + [e], k);
    IdsOfSix(Newest(s), e);
  }

  /** The entry a sixth backup pushes out is none of the newest five. */
  lemma OldestIsAnother(app: Version, requests: seq<Request>, i: nat)
    requires i < |requests| && |requests| - MAX_BACKUPS <= i && InOrder(app, requests)
    ensures var n := |requests| - 1;
            var listed := Newest(Infos(app, requests[..n])) + [LastInfo(app, requests)];
            |listed| > MAX_BACKUPS ==> listed[0].id != StampAt(requests[i].version, requests[i].now)
  {
    hide Ids, Sorted, Distinct, Present, InOrder, InfoOf, Newest, Infos;
    var n := |requests| - 1;
    InfosAt(app, requests[..n], i);
    assert Infos(app, requests) == Infos(app, requests[..n]) + [LastInfo(app, requests)] by { InfosSnoc(app, requests); }
    NewestSnoc(Infos(app, requests[..n]), LastInfo(app, requests));
    if n >= MAX_BACKUPS {
      FirstOfSix(app, requests, n - MAX_BACKUPS, i);
    }
  }

  lemma InfosSnoc(app: Version, requests: seq<Request>)
    requires requests != []
    ensures Infos(app, requests) == Infos(app, requests[..|requests| - 1]) + [LastInfo(app, requests)]
  {
  }

  lemma FirstOfSix(app: Version, requests: seq<Request>, k: nat, i: nat)
    requires InOrder(app, requests) && k < i < |requests|
    ensures |Infos(app, requests)| == |requests|
    ensures Infos(app, requests)[k].id != StampAt(requests[i].version, requests[i].now)
  {
    hide Ids, Sorted, Distinct, Present, InOrder, Infos;
    InfosAt(app, requests, i);
    InfosInOrder(app, requests);
    DistinctIds(Infos(app, requests), k, i);
  }

  /** What CreatedInOrder says of the directories, from the requests' point of view. */
  lemma NextContents(app: Version, requests: seq<Request>, backups: map<BackupId, Files>, next: map<BackupId, Files>)
    requires requests != [] && InOrder(app, requests)
    requires var n := |requests| - 1;
             var before, e := requests[..n], LastInfo(app, requests);
             var listed := Newest(Infos(app, before)) + [e];
             && Kept(app, before, backups)
             && (var copies := backups[e.id := Copied(FILES_TO_BACKUP, requests[n].data, map[])];
                 next == if |listed| <= MAX_BACKUPS then copies else copies - {listed[0].id})
    ensures forall i :: 0 <= i < |requests| && |requests| - MAX_BACKUPS <= i ==>
              var id := StampAt(requests[i].version, requests[i].now);
              id in next && next[id] == Copied(FILES_TO_BACKUP, requests[i].data, map[])
  {
    hide Ids, Sorted, Distinct, Present, Copied, InOrder, Infos, Newest, InfoOf;
    var n := |requests| - 1;
    forall i | 0 <= i < |requests| && |requests| - MAX_BACKUPS <= i
      ensures var id := StampAt(requests[i].version, requests[i].now);
              id in next && next[id] == Copied(FILES_TO_BACKUP, requests[i].data, map[])
    {
      OldestIsAnother(app, requests, i);
      assert LastInfo(app, requests).id == StampAt(requests[n].version, requests[n].now) by { LastInfoId(app, requests); }
      if i < n {
        assert requests[..n][i] == requests[i];
        IdsDiffer(app, requests, i, n);
      }
    }
  }

  function LastInfo(app: Version, requests: seq<Request>): Info
    requires requests != []
  {
    var last := requests[|requests| - 1];
    InfoOf(last.data, app, last.version, last.now)
  }

  lemma LastInfoId(app: Version, requests: seq<Request>)
    requires requests != []
    ensures var last := requests[|requests| - 1];
            LastInfo(app, requests).id == StampAt(last.version, last.now)
  {
  }

  lemma IdsDiffer(app: Version, requests: seq<Request>, i: nat, j: nat)
    requires InOrder(app, requests) && i < j < |requests|
    ensures StampAt(requests[i].version, requests[i].now) != StampAt(requests[j].version, requests[j].now)
  {
    hide Ids, Sorted, Distinct, Present, InOrder, Infos;
    FirstOfSix(app, requests, i, j);
    InfosAt(app, requests, i);
  }

  lemma NextKept(app: Version, requests: seq<Request>, disk: Disk)
    requires requests != [] && InOrder(app, requests)
    requires var before := requests[..|requests| - 1];
             && !disk.manifest.Unreadable? && Listed(disk.manifest) == Newest(Infos(app, before))
             && Kept(app, before, disk.backups)
    ensures var last := requests[|requests| - 1];
            var next := Created(disk.(data := last.data), app, last.version, last.now);
            && next.manifest == Manifest(Newest(Infos(app, requests)))
            && Kept(app, requests, next.backups)
            && Latest(next.manifest) == Some(LastInfo(app, requests))
  {
    hide Ids, Sorted, Distinct, Present, Copied, Created, InOrder, Infos, Newest, Kept;
    var n := |requests| - 1;
    var last := requests[n];
    var s, e := Infos(app, requests[..n]), LastInfo(app, requests);
    InfosInOrder(app, requests);
    InfosSnoc(app, requests);
    NewestIds(s, e);
    NewestSnoc(s, e);
    NewestFits(s);
    assert disk.backups.Keys == Ids(Newest(s)) by { KeptKeys(app, requests[..n], disk.backups); }
    CreatedInOrder(disk.(data := last.data), app, last.version, last.now);
    var next := Created(disk.(data := last.data), app, last.version, last.now);
    NextContents(app, requests, disk.backups, next.backups);
    assert next.backups.Keys == Ids(Newest(Newest(s) + [e]));
    assert Kept(app, requests, next.backups) by { KeptBoth(app, requests, next.backups); }
    NewestEndsWith(s, e);
  }

  lemma NewestFits(s: seq<Info>)
    ensures |Newest(s)| <= MAX_BACKUPS
  {
  }

  lemma NewestEndsWith(s: seq<Info>, e: Info)
    ensures Newest(s + [e]) != [] && Newest(s + [e])[|Newest(s + [e])| - 1] == e
  {
  }

  lemma KeptKeys(app: Version, requests: seq<Request>, backups: map<BackupId, Files>)
    requires Kept(app, requests, backups)
    ensures backups.Keys == Ids(Newest(Infos(app, requests)))
  {
  }

  lemma KeptBoth(app: Version, requests: seq<Request>, backups: map<BackupId, Files>)
    requires backups.Keys == Ids(Newest(Infos(app, requests)))
    requires forall i :: 0 <= i < |requests| && |requests| - MAX_BACKUPS <= i ==>
               var id := StampAt(requests[i].version, requests[i].now);
               id in backups && backups[id] == Copied(FILES_TO_BACKUP, requests[i].data, map[])
    ensures Kept(app, requests, backups)
  {
  }

  lemma {:induction false} InOrderKeepsTheNewest(app: Version, requests: seq<Request>)
    requires InOrder(app, requests)
    ensures var disk := AllMade(app, requests);
            && !disk.manifest.Unreadable?
            && Listed(disk.manifest) == Newest(Infos(app, requests))
            && Kept(app, requests, disk.backups)
    ensures requests != [] ==>
              Latest(AllMade(app, requests).manifest) == Some(LastInfo(app, requests))
    decreases |requests|
  {
    if requests == [] {
      assert Ids([]) == {};
    } else {
      hide Ids, Sorted, Distinct, Present, Copied, Kept, Created;
      var n := |requests| - 1;
      var before, last := requests[..n], requests[n];
      InOrderKeepsTheNewest(app, before);
      NextKept(app, requests, AllMade(app, before));
    }
  }

  // ---------- the same, in versions, seconds and file names ----------

  /** An id is the version and the whole second, no more and no less. */
  lemma StampsTellApart(v1: Version, t1: nat, v2: Version, t2: nat)
    ensures StampAt(v1, t1) == StampAt(v2, t2) <==> v1 == v2 && t1 / 1_000_000_000 == t2 / 1_000_000_000
    ensures t1 + 1_000_000_000 <= t2 ==> StampAt(v1, t1) != StampAt(v2, t2)
  {
  }

  predicate TrackedName(name: string) {
    name in ["config.toml", "history.json", "trust.json", "migration_state.json"]
  }

  lemma TrackedNames(name: string)
    ensures name in FILES_TO_BACKUP <==> TrackedName(name)
    ensures |FILES_TO_BACKUP| == 4
  {
  }

  function IfThere(name: string, data: Files): seq<string> {
    if name in data then [name] else []
  }

  /** The manifest lists the tracked files that were there, in this order. */
  lemma ListedInOrder(data: Files, app: Version, version: Version, now: nat)
    ensures InfoOf(data, app, version, now).files ==
            IfThere("config.toml", data) + IfThere("history.json", data) +
            IfThere("trust.json", data) + IfThere("migration_state.json", data)
  {
    hide StampAt;
    var names := FILES_TO_BACKUP;
    PresentSnoc(names, data, 4);
    PresentSnoc(names, data, 3);
    PresentSnoc(names, data, 2);
    PresentSnoc(names, data, 1);
    assert names[..4] == names;
    assert Present(names[..0], data) == [];
  }

  lemma PresentSnoc(names: seq<string>, data: Files, k: nat)
    requires 0 < k <= |names|
    ensures Present(names[..k], data) == Present(names[..k - 1], data) + IfThere(names[k - 1], data)
  {
    assert names[..k][..k - 1] == names[..k - 1];
  }

  /** A copy holds the tracked files of the data, as they were, and nothing else. */
  ghost predicate IsCopyOf(copy: Files, data: Files) {
    forall name :: (name in copy <==> TrackedName(name) && name in data) && (name in copy ==> copy[name] == data[name])
  }

  lemma CopyOfTracked(data: Files)
    ensures IsCopyOf(Copied(FILES_TO_BACKUP, data, map[]), data)
  {
    hide Copied, TrackedName, FILES_TO_BACKUP;
    forall name
      ensures var copy := Copied(FILES_TO_BACKUP, data, map[]);
              (name in copy <==> TrackedName(name) && name in data) && (name in copy ==> copy[name] == data[name])
    {
      CopiedFile(FILES_TO_BACKUP, data, map[], name);
      TrackedNames(name);
    }
  }

  /** Two backups of one version a second or more apart, or of two versions, with room for both: two
      directories, each with the tracked files of its own moment. */
  lemma SecondBackupKeepsTheFirst(disk: Disk, app: Version, v1: Version, t1: nat, v2: Version, t2: nat, between: Files)
    requires !disk.manifest.Unreadable? && |Listed(disk.manifest)| + 2 <= 5
    requires v1 != v2 || t1 + 1_000_000_000 <= t2
    requires Stamp(v1, t1 / 1_000_000_000) !in disk.backups && Stamp(v2, t2 / 1_000_000_000) !in disk.backups
    ensures var id1, id2 := Stamp(v1, t1 / 1_000_000_000), Stamp(v2, t2 / 1_000_000_000);
            var backups := Created(Created(disk, app, v1, t1).(data := between), app, v2, t2).backups;
            && id1 != id2 && id1 in backups && id2 in backups
            && IsCopyOf(backups[id1], disk.data) && IsCopyOf(backups[id2], between)
  {
    hide Copied, Present, SortByTime, IsCopyOf, FILES_TO_BACKUP;
    CopyOfTracked(disk.data);
    CopyOfTracked(between);
  }

  /** Times never go back, and any two requests differ in the version or in the second. */
  predicate Apart(requests: seq<Request>) {
    forall i, j :: 0 <= i < j < |requests| ==>
      && requests[i].now <= requests[j].now
      && (requests[i].version != requests[j].version ||
          requests[i].now / 1_000_000_000 != requests[j].now / 1_000_000_000)
  }

  lemma {:induction false} ApartIsInOrder(app: Version, requests: seq<Request>)
    requires Apart(requests)
    ensures InOrder(app, requests)
  {
    hide Present;
    if requests != [] {
      var n := |requests| - 1;
      var before, last := requests[..n], requests[n];
      assert Apart(before);
      ApartIsInOrder(app, before);
      InfosAt(app, before, 0);
      forall i | 0 <= i < n
        ensures Infos(app, before)[i].id != StampAt(last.version, last.now)
      {
        InfosAt(app, before, i);
        assert before[i] == requests[i];
      }
    }
  }

  /** The entry and the directory of one of the newest backups. */
  ghost predicate KeptFor(app: Version, request: Request, entry: Info, backups: map<BackupId, Files>) {
    var id := Stamp(request.version, request.now / 1_000_000_000);
    && entry.id == id && entry.timestamp == request.now && entry.appVersion == app && entry.schemaVersion == app
    && id in backups && IsCopyOf(backups[id], request.data)
  }

  /** Backups made at times that never go back, any two of different versions or in different seconds,
      from nothing: the directories are those the manifest lists, they are the newest five, each holds
      the files of its moment, and the latest is the one just made. */
  lemma KeepsTheNewest(app: Version, requests: seq<Request>)
    requires Apart(requests)
    ensures var disk, n := AllMade(app, requests), |requests|;
            var listed, kept := Listed(disk.manifest), if n < 5 then n else 5;
            && !disk.manifest.Unreadable? && |listed| == kept
            && disk.backups.Keys == Ids(listed)
            && (forall j :: 0 <= j < kept ==> KeptFor(app, requests[n - kept + j], listed[j], disk.backups))
            && Latest(disk.manifest) == (if n == 0 then None else Some(listed[kept - 1]))
  {
    hide Apart, InOrder, Infos, KeptFor, AllMade, Ids;
    ApartIsInOrder(app, requests);
    InOrderKeepsTheNewest(app, requests);
    InfosAt(app, requests, 0);
    var disk, n := AllMade(app, requests), |requests|;
    var listed, kept := Listed(disk.manifest), if n < 5 then n else 5;
    forall j | 0 <= j < kept
      ensures KeptFor(app, requests[n - kept + j], listed[j], disk.backups)
    {
      InfosAt(app, requests, n - kept + j);
      EntryIsKept(app, requests, disk.backups, n - kept + j);
    }
  }

  lemma EntryIsKept(app: Version, requests: seq<Request>, backups: map<BackupId, Files>, i: nat)
    requires Kept(app, requests, backups) && i < |requests| && |requests| - 5 <= i
    ensures var q := requests[i]; KeptFor(app, q, InfoOf(q.data, app, q.version, q.now), backups)
  {
    hide Ids, Infos, Copied, Present, IsCopyOf;
    CopyOfTracked(requests[i].data);
  }

  /** A backup of another id leaves a directory as it is, or the clean-up takes it away. */
  lemma CreatedKeepsOthers(disk: Disk, app: Version, version: Version, now: nat, id: BackupId)
    requires id != StampAt(version, now)
    ensures var backups := Created(disk, app, version, now).backups;
            id in backups ==> id in disk.backups && backups[id] == disk.backups[id]
  {
    hide Copied, Present, SortByTime, Ids;
  }
}
