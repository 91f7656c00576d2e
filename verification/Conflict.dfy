/**
 Conflicts of a directory sync: detection, resolution on the two replicas, and the names given
 to renamed files. Times are nanoseconds relative to the Unix epoch.
 */
module Conflict {
  import opened Wrappers
  import opened Clipboard

  const NANOS := 1_000_000_000
  const BACKSLASH := '\\'

  /** Relative paths are kept with forward slashes only. */
  type RelPath = s: string | BACKSLASH !in s witness ""

  function NewPath(s: string): (p: RelPath)
    ensures |p| == |s|
    ensures BACKSLASH !in s ==> p == s
  {
    seq(|s|, i requires 0 <= i < |s| => if s[i] == BACKSLASH then '/' else s[i])
  }

  /** Position of the last occurrence of a character. */
  function RFind(s: string, c: char): (r: Option<nat>)
    ensures r.None? <==> c !in s
    ensures r.Some? ==> r.value < |s| && s[r.value] == c
  {
    if s == [] then None
    else
      var n := |s| - 1;
      assert s == s[..n] + [s[n]];
      if s[n] == c then Some(n) else RFind(s[..n], c)
  }

  lemma {:induction false} RFindJoined(before: string, c: char, after: string)
    requires c !in after
    ensures var s := before + [c] + after;
            RFind(s, c) == Some(|before|) && s[..|before|] == before && s[|before| + 1..] == after
    decreases |after|
  {
    var s := before + [c] + after;
    if after != [] {
      var n := |after| - 1;
      RFindJoined(before, c, after[..n]);
      assert s[..|s| - 1] == before + [c] + after[..n];
      assert s[|s| - 1] == after[n];
    }
  }

  lemma {:induction false} RFindLast(s: string, c: char)
    requires c in s
    ensures c !in s[RFind(s, c).value + 1..]
  {
    var n := |s| - 1;
    assert s == s[..n] + [s[n]];
    if s[n] != c {
      var i := RFind(s[..n], c).value;
      RFindLast(s[..n], c);
      assert s[i + 1..] == s[..n][i + 1..] + [s[n]];
    }
  }

  function Decimal(n: nat): (s: string)
    ensures s != [] && forall i :: 0 <= i < |s| ==> '0' <= s[i] <= '9'
  {
    var digit := ['0' + (n % 10) as char];
    if n < 10 then digit else Decimal(n / 10) + digit
  }

  function Undecimal(s: string): int {
    if s == [] then 0 else 10 * Undecimal(s[..|s| - 1]) + (s[|s| - 1] as int - '0' as int)
  }

  lemma {:induction false} DecimalRoundTrip(n: nat)
    ensures Undecimal(Decimal(n)) == n
  {
    var digit := ['0' + (n % 10) as char];
    assert Undecimal(digit) == n % 10 by { assert digit[..0] == []; }
    if n >= 10 {
      DecimalRoundTrip(n / 10);
      assert Decimal(n)[..|Decimal(n)| - 1] == Decimal(n / 10);
    }
  }

  // ---------- conflict names ----------

  const MARK := ".conflict"

  /** Whole seconds since the epoch; times before it count as the epoch. */
  function Seconds(mtime: int): nat {
    if mtime < 0 then 0 else mtime / NANOS
  }

  function Stamp(secs: nat): string {
    MARK + "." + Decimal(secs)
  }

  lemma StampHasNone(secs: nat, c: char)
    requires c == '/' || c == BACKSLASH
    ensures c !in Stamp(secs)
  {
    assert c !in Decimal(secs);
  }

  lemma StampIsLong(secs: nat)
    ensures |Stamp(secs)| > |MARK|
  {
  }

  function Marked(path: string, secs: nat): string {
    match RFind(path, '.')
    case None => path + Stamp(secs)
    case Some(dot) => path[..dot] + Stamp(secs) + path[dot..]
  }

  function GenerateConflictName(path: RelPath, mtime: int): RelPath {
    NewPath(Marked(path, Seconds(mtime)))
  }

  /** The parts before and after the last dot. */
  function SplitLast(s: string): Option<(string, string)> {
    match RFind(s, '.')
    case None => None
    case Some(i) => Some((s[..i], s[i + 1..]))
  }

  lemma SplitJoined(before: string, after: string)
    requires '.' !in after
    ensures SplitLast(before + "." + after) == Some((before, after))
  {
    RFindJoined(before, '.', after);
  }

  /** Undoes Marked: what follows the last dot is the timestamp if only the mark's own dot comes
      before it, and otherwise the extension the path had. */
  function Unmarked(name: string): Option<(string, int)> {
    match SplitLast(name)
    case None => None
    case Some((head, tail)) =>
      match SplitLast(head)
      case None => None
      case Some((stem, inner)) =>
        if '.' !in stem then Some((stem, Undecimal(tail)))
        else if |stem| < |MARK| then None
        else Some((stem[..|stem| - |MARK|] + "." + tail, Undecimal(inner)))
  }

  lemma UnmarkedPlain(path: string, secs: nat)
    requires '.' !in path
    ensures Unmarked(Marked(path, secs)) == Some((path, secs))
  {
    hide SplitLast, Decimal, Undecimal;
    var digits := Decimal(secs);
    assert path + MARK == path + "." + "conflict";
    assert path + Stamp(secs) == path + MARK + "." + digits;
    SplitJoined(path, "conflict");
    SplitJoined(path + MARK, digits);
    DecimalRoundTrip(secs);
  }

  lemma UnmarkedDotted(path: string, secs: nat)
    requires '.' in path
    ensures Unmarked(Marked(path, secs)) == Some((path, secs))
  {
    hide SplitLast, Decimal, Undecimal, RFind;
    var dot, digits := RFind(path, '.').value, Decimal(secs);
    var stem, ext := path[..dot], path[dot + 1..];
    RFindLast(path, '.');
    assert path == stem + "." + ext && path[dot..] == "." + ext;
    assert Marked(path, secs) == (stem + MARK + "." + digits) + "." + ext;
    SplitJoined(stem + MARK + "." + digits, ext);
    SplitJoined(stem + MARK, digits);
    assert (stem + MARK)[|stem|] == '.';
    assert (stem + MARK)[..|stem|] == stem;
    DecimalRoundTrip(secs);
  }

  lemma MarkedHasNoBackslash(path: RelPath, secs: nat)
    ensures BACKSLASH !in Marked(path, secs)
  {
    hide Stamp;
    StampHasNone(secs, BACKSLASH);
  }

  lemma ConflictNameFacts(path: RelPath, mtime: int)
    ensures Unmarked(GenerateConflictName(path, mtime)) == Some((path, Seconds(mtime)))
    ensures |GenerateConflictName(path, mtime)| > |path|
  {
    hide Unmarked, Stamp;
    StampIsLong(Seconds(mtime));
    MarkedHasNoBackslash(path, Seconds(mtime));
    if '.' in path { UnmarkedDotted(path, Seconds(mtime)); } else { UnmarkedPlain(path, Seconds(mtime)); }
  }

  /** Conflict names are one-to-one in the path and the whole second, for paths with and without
      dots, and never the path itself. */
  lemma ConflictNamesDistinct(p1: RelPath, t1: int, p2: RelPath, t2: int)
    ensures GenerateConflictName(p1, t1) == GenerateConflictName(p2, t2) <==> p1 == p2 && Seconds(t1) == Seconds(t2)
    ensures GenerateConflictName(p1, t1) != p1
  {
    hide Unmarked, Marked;
    ConflictNameFacts(p1, t1);
    ConflictNameFacts(p2, t2);
  }

  /** The name, written out: the mark and the whole seconds stand before the last dot, or at the end. */
  lemma ConflictNameReads(path: RelPath, mtime: int)
    ensures var stamp := ".conflict." + Decimal(if mtime < 0 then 0 else mtime / 1_000_000_000);
            GenerateConflictName(path, mtime) ==
            match RFind(path, '.')
            case None => path + stamp
            case Some(dot) => path[..dot] + stamp + path[dot..]
  {
    hide Decimal, RFind;
    MarkedHasNoBackslash(path, Seconds(mtime));
    assert MARK + "." == ".conflict.";
    assert Stamp(Seconds(mtime)) == ".conflict." + Decimal(Seconds(mtime));
  }

  /** A decimal number as it is written: no leading zero, and each digit what its place says. */
  lemma DecimalDigits(n: nat)
    ensures var d := Decimal(n);
            && (n > 0 ==> d[0] != '0') && (n == 0 ==> d == "0")
            && d[|d| - 1] == "0123456789"[n % 10]
            && (n >= 10 ==> d[..|d| - 1] == Decimal(n / 10))
  {
    if n >= 10 {
      DecimalDigits(n / 10);
    }
  }

  /** Everything up to and including the last slash. */
  function Directory(path: string): string {
    match RFind(path, '/')
    case None => ""
    case Some(i) => path[..i + 1]
  }

  lemma DirectoryOf(dir: string, file: string)
    requires '/' !in file && (dir == "" || dir[|dir| - 1] == '/')
    ensures Directory(dir + file) == dir
  {
    if dir == "" {
      assert dir + file == file;
    } else {
      var before := dir[..|dir| - 1];
      assert dir == before + ['/'];
      RFindJoined(before, '/', file);
      assert (dir + file)[..|dir|] == dir;
    }
  }

  lemma DirectoryAndFile(path: string) returns (dir: string, file: string)
    ensures path == dir + file && '/' !in file && (dir == "" || dir[|dir| - 1] == '/')
  {
    match RFind(path, '/')
    case None => dir, file := "", path;
    case Some(i) =>
      RFindLast(path, '/');
      dir, file := path[..i + 1], path[i + 1..];
  }

  lemma InsertedInFile(dir: string, file: string, k: nat, mark: string)
    requires '/' !in file && '/' !in mark && k <= |file| && (dir == "" || dir[|dir| - 1] == '/')
    ensures Directory((dir + file)[..|dir| + k] + mark + (dir + file)[|dir| + k..]) == dir
  {
    hide Directory;
    var s := dir + file;
    assert s[..|dir| + k] == dir + file[..k];
    assert s[|dir| + k..] == file[k..];
    assert s[..|dir| + k] + mark + s[|dir| + k..] == dir + (file[..k] + mark + file[k..]);
    DirectoryOf(dir, file[..k] + mark + file[k..]);
  }

  lemma InsertedInDirectory(dir: string, file: string, k: nat, mark: string)
    requires '/' !in file && mark != "" && k < |dir| && dir[|dir| - 1] == '/'
    ensures Directory((dir + file)[..k] + mark + (dir + file)[k..]) != dir
  {
    hide Directory;
    var s := dir + file;
    var dir' := dir[..k] + mark + dir[k..];
    assert s[..k] == dir[..k];
    assert s[k..] == dir[k..] + file;
    assert s[..k] + mark + s[k..] == dir' + file;
    DirectoryOf(dir', file);
  }

  lemma MarkStaysInDirectory(path: string, secs: nat, dir: string, file: string)
    requires path == dir + file && '/' !in file && (dir == "" || dir[|dir| - 1] == '/')
    ensures Directory(Marked(path, secs)) == dir <==> RFind(path, '.').None? || RFind(path, '.').value >= |dir|
  {
    hide Stamp, Directory, RFind;
    var mark := Stamp(secs);
    StampHasNone(secs, '/');
    assert mark != "" by { StampIsLong(secs); }
    match RFind(path, '.')
    case None =>
      InsertedInFile(dir, file, |file|, mark);
      assert Marked(path, secs) == path[..|path|] + mark + path[|path|..];
    case Some(dot) =>
      assert Marked(path, secs) == path[..dot] + mark + path[dot..];
      if |dir| <= dot {
        InsertedInFile(dir, file, dot - |dir|, mark);
      } else {
        InsertedInDirectory(dir, file, dot, mark);
      }
  }

  /** The renamed file stays in its directory exactly when no slash follows the path's last dot:
      a dot in a directory's name and none in the file's sends it to another directory. */
  lemma StaysInDirectory(path: RelPath, mtime: int)
    ensures Directory(GenerateConflictName(path, mtime)) == Directory(path) <==>
              RFind(path, '.').None? || '/' !in path[RFind(path, '.').value..]
  {
    hide Marked, RFind, Directory;
    var secs := Seconds(mtime);
    MarkedHasNoBackslash(path, secs);
    var dir, file := DirectoryAndFile(path);
    DirectoryOf(dir, file);
    MarkStaysInDirectory(path, secs, dir, file);
    if RFind(path, '.').Some? {
      var dot := RFind(path, '.').value;
      if |dir| <= dot {
        assert path[dot..] == file[dot - |dir|..];
      } else {
        assert path[dot..][|dir| - 1 - dot] == '/';
      }
    }
  }

  // ---------- detection and resolution ----------

  datatype Conflict = Conflict(path: RelPath, localMtime: int, localHash: u64, remoteMtime: int, remoteHash: u64) {

    function Swap(): Conflict {
      Conflict(path, remoteMtime, remoteHash, localMtime, localHash)
    }

    /** The distance of the two times: whichever order the subtraction succeeds in. */
    function TimeDiff(): nat {
      if localMtime >= remoteMtime then localMtime - remoteMtime else remoteMtime - localMtime
    }

    function TimeDiffSecs(): nat {
      TimeDiff() / NANOS
    }

    predicate IsAmbiguous(windowSecs: nat) {
      localHash != remoteHash && TimeDiff() < windowSecs * NANOS
    }

    predicate RemoteIsNewer() {
      remoteMtime > localMtime
    }
  }

  function Detect(windowSecs: nat, path: RelPath, localMtime: int, localHash: u64, remoteMtime: int, remoteHash: u64)
    : Option<Conflict>
  {
    if localHash == remoteHash then None
    else
      var c := Conflict(path, localMtime, localHash, remoteMtime, remoteHash);
      if c.IsAmbiguous(windowSecs) then Some(c) else None
  }

  /** Detection means: different contents, and whole seconds apart below the window; it does not
      depend on which side looks. */
  lemma DetectionIsSymmetric(windowSecs: nat, path: RelPath, m1: int, h1: u64, m2: int, h2: u64)
    ensures var here, there := Detect(windowSecs, path, m1, h1, m2, h2), Detect(windowSecs, path, m2, h2, m1, h1);
            && (here.Some? <==> h1 != h2 && Conflict(path, m1, h1, m2, h2).TimeDiffSecs() < windowSecs)
            && (here.Some? <==> there.Some?)
            && (here.Some? ==> there.value == here.value.Swap())
  {
    var d := Conflict(path, m1, h1, m2, h2).TimeDiff();
    assert d == d / NANOS * NANOS + d % NANOS;
  }

  /** The same with everything written out: contents differ and the times lie less than the window
      apart, in nanoseconds or, which is the same, in whole seconds; what is reported is the two sides. */
  lemma DetectsExactly(windowSecs: nat, path: RelPath, m1: int, h1: u64, m2: int, h2: u64)
    ensures var found := Detect(windowSecs, path, m1, h1, m2, h2);
            && (found.Some? <==> h1 != h2 && m1 - m2 < windowSecs * 1_000_000_000 && m2 - m1 < windowSecs * 1_000_000_000)
            && (found.Some? <==> h1 != h2 && (if m1 < m2 then m2 - m1 else m1 - m2) / 1_000_000_000 < windowSecs)
            && (found.Some? ==> found.value == Conflict(path, m1, h1, m2, h2))
  {
    var d := if m1 < m2 then m2 - m1 else m1 - m2;
    assert d == d / 1_000_000_000 * 1_000_000_000 + d % 1_000_000_000;
  }

  datatype Resolution = AcceptRemote | KeepLocal | RenameThenAcceptRemote(renameTo: RelPath)

  datatype Strategy = LastWriteWins | KeepBoth | PreferLocal | PreferRemote

  function Resolve(strategy: Strategy, c: Conflict): Resolution {
    match strategy
    case LastWriteWins => if c.RemoteIsNewer() then AcceptRemote else KeepLocal
    case KeepBoth => RenameThenAcceptRemote(GenerateConflictName(c.path, c.localMtime))
    case PreferLocal => KeepLocal
    case PreferRemote => AcceptRemote
  }

  datatype Version = Version(mtime: int, hash: u64)

  type Replica = map<RelPath, Version>

  /** The file operations a resolution stands for. */
  function Settle(files: Replica, path: RelPath, remote: Version, r: Resolution): Replica
    requires path in files
  {
    match r
    case AcceptRemote => files[path := remote]
    case KeepLocal => files
    case RenameThenAcceptRemote(to) => (files - {path})[to := files[path]][path := remote]
  }

  function ConflictAt(path: RelPath, local: Version, remote: Version): Conflict {
    Conflict(path, local.mtime, local.hash, remote.mtime, remote.hash)
  }

  /** What one side makes of its replica when the other holds `remote`. */
  function ResolvedSide(strategy: Strategy, files: Replica, path: RelPath, remote: Version): Replica
    requires path in files
  {
    Settle(files, path, remote, Resolve(strategy, ConflictAt(path, files[path], remote)))
  }

  /** When both sides resolve the same conflict by the same strategy, they agree on the path
      exactly under last-write-wins with different times, and then on the later version. */
  lemma ReplicasAgree(strategy: Strategy, a: Replica, b: Replica, path: RelPath)
    requires path in a && path in b && a[path].hash != b[path].hash
    ensures var a', b' := ResolvedSide(strategy, a, path, b[path]), ResolvedSide(strategy, b, path, a[path]);
            && path in a' && path in b'
            && (a'[path] == b'[path] <==> strategy == LastWriteWins && a[path].mtime != b[path].mtime)
            && (a'[path] == b'[path] ==>
                  a'[path] == if a[path].mtime > b[path].mtime then a[path] else b[path])
            && (strategy == PreferLocal || (strategy == LastWriteWins && a[path].mtime == b[path].mtime) ==> a' == a && b' == b)
            && (strategy == PreferRemote || strategy == KeepBoth ==> a'[path] == b[path] && b'[path] == a[path])
            && (strategy != KeepBoth ==> a'.Keys == a.Keys && forall p <- a.Keys :: p != path ==> a'[p] == a[p])
  {
    ConflictNamesDistinct(path, a[path].mtime, path, b[path].mtime);
  }

  /** Keep-both puts the remote version at the path and the local one under its conflict name, and
      leaves every other file alone exactly when that name was free (or held this very version). */
  lemma KeepBothLosesNothing(files: Replica, path: RelPath, remote: Version)
    requires path in files
    ensures var to := GenerateConflictName(path, files[path].mtime);
            var files' := ResolvedSide(KeepBoth, files, path, remote);
            && path in files' && files'[path] == remote
            && to in files' && files'[to] == files[path]
            && files'.Keys == files.Keys + {to}
            && ((forall p <- files.Keys :: p != path ==> files'[p] == files[p])
                <==> to !in files || files[to] == files[path])
  {
    ConflictNamesDistinct(path, files[path].mtime, path, files[path].mtime);
  }
}
