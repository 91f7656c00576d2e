/**
 Schema versions and the choice of migrations: from a version, the first registered migration that
 starts there and does not pass the target, again and again until the target or a dead end.
 */
module Planner {
  import opened Wrappers

  datatype Version = Version(major: nat, minor: nat, patch: nat)

  predicate Less(a: Version, b: Version) {
    a.major < b.major || (a.major == b.major && (a.minor < b.minor || (a.minor == b.minor && a.patch < b.patch)))
  }

  /** Versions are compared by major, then minor, then patch number, as numbers; any two are ordered. */
  lemma VersionsAreOrdered(a: Version, b: Version, major: nat, minor: nat, patch: nat)
    ensures a == b || Less(a, b) || Less(b, a)
    ensures !(Less(a, b) && Less(b, a)) && !Less(a, a)
    ensures Less(a, a.(patch := patch)) <==> a.patch < patch
    ensures a.minor != minor ==> (Less(a, a.(minor := minor, patch := patch)) <==> a.minor < minor)
    ensures a.major != major ==> (Less(a, Version(major, minor, patch)) <==> a.major < major)
  {
  }

  /** A migration does work U, whatever that is. */
  datatype Migration<U> = Migration(from: Version, to: Version, up: U)

  predicate Raises<U>(m: Migration<U>) {
    Less(m.from, m.to)
  }

  predicate AllRaise<U>(migrations: seq<Migration<U>>) {
    forall i :: 0 <= i < |migrations| ==> Raises(migrations[i])
  }

  predicate Fits<U>(m: Migration<U>, current: Version, to: Version) {
    m.from == current && !Less(to, m.to)
  }

  /** The first migration that fits. */
  function Find<U>(migrations: seq<Migration<U>>, current: Version, to: Version): (found: Option<nat>)
    ensures found.Some? ==> found.value < |migrations| && Fits(migrations[found.value], current, to)
    ensures forall i :: 0 <= i < |migrations| && Fits(migrations[i], current, to) ==> found.Some? && found.value <= i
  {
    if migrations == [] then None
    else
      var before := |migrations| - 1;
      var earlier := Find(migrations[..before], current, to);
      if earlier.None? && Fits(migrations[before], current, to) then Some(before) else earlier
  }

  /** How many migrations start at a version or later: what the loop uses up. */
  function Remaining<U>(migrations: seq<Migration<U>>, current: Version): nat {
    if migrations == [] then 0
    else
      var before := |migrations| - 1;
      Remaining(migrations[..before], current) + if Less(migrations[before].from, current) then 0 else 1
  }

  lemma {:induction false} RemainingDrops<U>(migrations: seq<Migration<U>>, i: nat, higher: Version)
    ensures i < |migrations| && Less(migrations[i].from, higher) ==>
              Remaining(migrations, higher) < Remaining(migrations, migrations[i].from)
    ensures forall v :: Less(v, higher) ==> Remaining(migrations, higher) <= Remaining(migrations, v)
  {
    if migrations != [] {
      RemainingDrops(migrations[..|migrations| - 1], i, higher);
    }
  }

  function Pending<U>(migrations: seq<Migration<U>>, from: Version, to: Version): seq<Migration<U>>
    requires AllRaise(migrations)
    decreases Remaining(migrations, from)
  {
    if !Less(from, to) then []
    else
      var found := Find(migrations, from, to);
      if found.None? then []
      else
        assert Raises(migrations[found.value]);
        RemainingDrops(migrations, found.value, migrations[found.value].to);
        [migrations[found.value]] + Pending(migrations, migrations[found.value].to, to)
  }

  method GetPending<U>(migrations: seq<Migration<U>>, from: Version, to: Version) returns (pending: seq<Migration<U>>)
    requires AllRaise(migrations)
    ensures pending == Pending(migrations, from, to)
  {
    if !Less(from, to) { return []; }
    pending := [];
    var current := from;
    while Less(current, to)
      invariant pending + Pending(migrations, current, to) == Pending(migrations, from, to)
      decreases Remaining(migrations, current)
    {
      var found := Find(migrations, current, to);
      if found.None? { break; }
      var migration := migrations[found.value];
      assert Raises(migration);
      RemainingDrops(migrations, found.value, migration.to);
      pending := pending + [migration];
      current := migration.to;
    }
    assert pending + [] == pending;
  }

  // ---------- chains ----------

  /** Registered migrations, each raising the version and starting where the one before it ended. */
  ghost predicate IsChain<U>(migrations: seq<Migration<U>>, chain: seq<Migration<U>>, from: Version) {
    chain == [] ||
    (chain[0] in migrations && chain[0].from == from && Raises(chain[0]) && IsChain(migrations, chain[1..], chain[0].to))
  }

  function End<U>(chain: seq<Migration<U>>, from: Version): Version {
    if chain == [] then from else End(chain[1..], chain[0].to)
  }

  /** The plan is a chain from the start that never passes the target, no longer than the list of
      migrations, and it stops short only where no registered migration fits. */
  lemma {:induction false} PendingIsChain<U>(migrations: seq<Migration<U>>, from: Version, to: Version)
    requires AllRaise(migrations)
    ensures var plan := Pending(migrations, from, to);
            && IsChain(migrations, plan, from)
            && |plan| <= Remaining(migrations, from)
            && (Less(from, to) ==> !Less(to, End(plan, from)))
            && (Less(End(plan, from), to) ==> forall m :: m in migrations ==> !Fits(m, End(plan, from), to))
    decreases Remaining(migrations, from)
  {
    if Less(from, to) {
      var found := Find(migrations, from, to);
      if found.Some? {
        var m := migrations[found.value];
        assert Raises(m);
        RemainingDrops(migrations, found.value, m.to);
        PendingIsChain(migrations, m.to, to);
      }
    }
  }

  lemma {:induction false} ChainRises<U>(migrations: seq<Migration<U>>, chain: seq<Migration<U>>, from: Version, i: nat, j: nat)
    requires IsChain(migrations, chain, from) && i <= j < |chain|
    ensures !Less(chain[i].from, from) && Less(chain[j].from, End(chain, from))
    ensures i < j ==> Less(chain[i].from, chain[j].from)
  {
    ChainEndsHigher(migrations, chain[1..], chain[0].to);
    if i > 0 {
      ChainRises(migrations, chain[1..], chain[0].to, i - 1, j - 1);
    } else if j > 0 {
      ChainRises(migrations, chain[1..], chain[0].to, j - 1, j - 1);
    }
  }

  lemma {:induction false} ChainEndsHigher<U>(migrations: seq<Migration<U>>, chain: seq<Migration<U>>, from: Version)
    requires IsChain(migrations, chain, from)
    ensures !Less(End(chain, from), from)
  {
    if chain != [] {
      ChainEndsHigher(migrations, chain[1..], chain[0].to);
    }
  }

  /** No migration is planned twice. */
  lemma PlanHasNoRepeats<U>(migrations: seq<Migration<U>>, from: Version, to: Version, i: nat, j: nat)
    requires AllRaise(migrations) && i < j < |Pending(migrations, from, to)|
    ensures var plan := Pending(migrations, from, to);
            Less(plan[i].from, plan[j].from) && plan[i] != plan[j]
  {
    PendingIsChain(migrations, from, to);
    ChainRises(migrations, Pending(migrations, from, to), from, i, j);
  }

  predicate UniqueSources<U>(migrations: seq<Migration<U>>) {
    forall i, j :: 0 <= i < j < |migrations| ==> migrations[i].from != migrations[j].from
  }

  /** With one migration for each source version, a chain to the target is the plan itself. */
  lemma {:induction false} OnlyChain<U>(migrations: seq<Migration<U>>, from: Version, to: Version, chain: seq<Migration<U>>)
    requires AllRaise(migrations) && UniqueSources(migrations)
    requires IsChain(migrations, chain, from) && End(chain, from) == to
    ensures Pending(migrations, from, to) == chain
    decreases |chain|
  {
    if chain != [] {
      ChainEndsHigher(migrations, chain[1..], chain[0].to);
      var found := Find(migrations, from, to);
      assert Fits(chain[0], from, to);
      assert migrations[found.value] == chain[0];
      OnlyChain(migrations, chain[0].to, to, chain[1..]);
      assert chain == [chain[0]] + chain[1..];
    }
  }

  /** So the plan reaches the target if and only if some chain does. */
  lemma PlanReachesIfAnyChainDoes<U(!new)>(migrations: seq<Migration<U>>, from: Version, to: Version)
    requires AllRaise(migrations) && UniqueSources(migrations)
    ensures End(Pending(migrations, from, to), from) == to <==>
            exists chain :: IsChain(migrations, chain, from) && End(chain, from) == to
  {
    PendingIsChain(migrations, from, to);
    if chain :| IsChain(migrations, chain, from) && End(chain, from) == to {
      OnlyChain(migrations, from, to, chain);
    }
  }

  ghost predicate Reaches<U(!new)>(migrations: seq<Migration<U>>, from: Version, to: Version) {
    exists chain :: IsChain(migrations, chain, from) && End(chain, from) == to
  }

  ghost predicate PlanReaches<U>(migrations: seq<Migration<U>>, from: Version, to: Version)
    requires AllRaise(migrations)
  {
    End(Pending(migrations, from, to), from) == to
  }

  /** Where a registered migration leads on to a target, so does the one Find prefers to it. */
  ghost predicate FirstChoiceLeadsOn<U(!new)>(migrations: seq<Migration<U>>) {
    forall i, to :: 0 <= i < |migrations| && Reaches(migrations, migrations[i].to, to) ==>
      var found := Find(migrations, migrations[i].from, to);
      found.Some? && Reaches(migrations, migrations[found.value].to, to)
  }

  lemma PlanIsAChain<U(!new)>(migrations: seq<Migration<U>>, from: Version, to: Version)
    requires AllRaise(migrations) && PlanReaches(migrations, from, to)
    ensures Reaches(migrations, from, to)
  {
    PendingIsChain(migrations, from, to);
  }

  lemma OneMoreBefore<U(!new)>(migrations: seq<Migration<U>>, m: Migration<U>, to: Version)
    requires m in migrations && Raises(m) && Reaches(migrations, m.to, to)
    ensures Reaches(migrations, m.from, to) && Less(m.from, to)
  {
    var chain: seq<Migration<U>> :| IsChain(migrations, chain, m.to) && End(chain, m.to) == to;
    assert ([m] + chain)[1..] == chain;
    assert IsChain(migrations, [m] + chain, m.from) && End([m] + chain, m.from) == to;
    ChainEndsHigher(migrations, chain, m.to);
  }

  lemma FirstOfChain<U(!new)>(migrations: seq<Migration<U>>, from: Version, to: Version) returns (i: nat)
    requires Reaches(migrations, from, to) && from != to
    ensures i < |migrations| && migrations[i].from == from && Raises(migrations[i])
    ensures Reaches(migrations, migrations[i].to, to)
  {
    var chain: seq<Migration<U>> :| IsChain(migrations, chain, from) && End(chain, from) == to;
    i :| i < |migrations| && migrations[i] == chain[0];
    assert IsChain(migrations, chain[1..], chain[0].to) && End(chain[1..], chain[0].to) == to;
  }

  lemma {:induction false} LeadingOnReaches<U(!new)>(migrations: seq<Migration<U>>, from: Version, to: Version)
    requires AllRaise(migrations) && FirstChoiceLeadsOn(migrations) && Reaches(migrations, from, to)
    ensures PlanReaches(migrations, from, to)
    decreases Remaining(migrations, from)
  {
    hide Reaches, IsChain;
    if from != to {
      var i := FirstOfChain(migrations, from, to);
      OneMoreBefore(migrations, migrations[i], to);
      var found := Find(migrations, from, to).value;
      RemainingDrops(migrations, found, migrations[found].to);
      LeadingOnReaches(migrations, migrations[found].to, to);
    }
  }

  lemma {:induction false} ReachingLeadsOn<U(!new)>(migrations: seq<Migration<U>>, i: nat, to: Version)
    requires AllRaise(migrations) && i < |migrations| && Reaches(migrations, migrations[i].to, to)
    requires PlanReaches(migrations, migrations[i].from, to)
    ensures var found := Find(migrations, migrations[i].from, to);
            found.Some? && Reaches(migrations, migrations[found.value].to, to)
  {
    hide Reaches, IsChain;
    var from := migrations[i].from;
    OneMoreBefore(migrations, migrations[i], to);
    var found := Find(migrations, from, to).value;
    PlanIsAChain(migrations, migrations[found].to, to);
  }

  /** For all versions at once, the plan reaches whatever some chain reaches exactly when every first
      choice leads on: what has to be known of migrations that share a source version. */
  lemma GreedyIsEnough<U(!new)>(migrations: seq<Migration<U>>)
    requires AllRaise(migrations)
    ensures (forall from, to :: PlanReaches(migrations, from, to) <==> Reaches(migrations, from, to)) <==>
            FirstChoiceLeadsOn(migrations)
    ensures UniqueSources(migrations) ==> FirstChoiceLeadsOn(migrations)
  {
    hide Reaches, PlanReaches, Find, UniqueSources;
    if FirstChoiceLeadsOn(migrations) {
      forall from, to
        ensures PlanReaches(migrations, from, to) <==> Reaches(migrations, from, to)
      {
        if PlanReaches(migrations, from, to) { PlanIsAChain(migrations, from, to); }
        if Reaches(migrations, from, to) { LeadingOnReaches(migrations, from, to); }
      }
    }
    if forall from, to :: PlanReaches(migrations, from, to) <==> Reaches(migrations, from, to) {
      forall i, to | 0 <= i < |migrations| && Reaches(migrations, migrations[i].to, to)
        ensures var found := Find(migrations, migrations[i].from, to);
                found.Some? && Reaches(migrations, migrations[found.value].to, to)
      {
        OneMoreBefore(migrations, migrations[i], to);
        ReachingLeadsOn(migrations, i, to);
      }
    }
    if UniqueSources(migrations) {
      forall i, to | 0 <= i < |migrations| && Reaches(migrations, migrations[i].to, to)
        ensures var found := Find(migrations, migrations[i].from, to);
                found.Some? && Reaches(migrations, migrations[found.value].to, to)
      {
        OnlyChoice(migrations, i, to);
      }
    }
  }

  lemma OnlyChoice<U(!new)>(migrations: seq<Migration<U>>, i: nat, to: Version)
    requires UniqueSources(migrations) && i < |migrations| && Reaches(migrations, migrations[i].to, to)
    ensures Find(migrations, migrations[i].from, to) == Some(i)
  {
    var m := migrations[i];
    var chain: seq<Migration<U>> :| IsChain(migrations, chain, m.to) && End(chain, m.to) == to;
    ChainEndsHigher(migrations, chain, m.to);
    assert Fits(m, m.from, to);
  }

  /** Two migrations from one version: the first registered is taken, though only the other arrives. */
  lemma GreedyPlanCanMissAChain()
    ensures var v1, v2, v3 := Version(0, 1, 0), Version(0, 2, 0), Version(0, 3, 0);
            var short, long := Migration(v1, v2, ()), Migration(v1, v3, ());
            && AllRaise([short, long])
            && Pending([short, long], v1, v3) == [short] && End([short], v1) != v3
            && IsChain([short, long], [long], v1) && End([long], v1) == v3
            && Pending([long, short], v1, v3) == [long]
  {
    var v1, v2, v3 := Version(0, 1, 0), Version(0, 2, 0), Version(0, 3, 0);
    var short, long := Migration(v1, v2, ()), Migration(v1, v3, ());
    FindHead([short, long], v1, v3);
    FindHead([long, short], v1, v3);
    assert Find([short, long], v2, v3).None?;
    assert Pending([short, long], v2, v3) == [];
    assert [long][1..] == [];
    assert [short][1..] == [];
  }

  lemma FindHead<U>(migrations: seq<Migration<U>>, current: Version, to: Version)
    requires migrations != [] && Fits(migrations[0], current, to)
    ensures Find(migrations, current, to) == Some(0)
  {
  }

  // ---------- why migrations must raise the version ----------

  /** Where the loop's `current` stands after k turns, or None once it has stopped. */
  function After<U>(migrations: seq<Migration<U>>, from: Version, to: Version, k: nat): Option<Version>
    decreases k
  {
    if k == 0 then Some(from)
    else if !Less(from, to) then None
    else
      var found := Find(migrations, from, to);
      if found.None? then None else After(migrations, migrations[found.value].to, to, k - 1)
  }

  lemma {:induction false} AfterSplits<U>(migrations: seq<Migration<U>>, from: Version, to: Version, j: nat, k: nat)
    ensures var middle := After(migrations, from, to, j);
            After(migrations, from, to, j + k) == if middle.None? then None else After(migrations, middle.value, to, k)
    decreases j
  {
    if j > 0 && Less(from, to) {
      var found := Find(migrations, from, to);
      if found.Some? {
        AfterSplits(migrations, migrations[found.value].to, to, j - 1, k);
      }
    }
  }

  /** A version that comes back keeps the loop running for ever: it has not stopped after any number
      of turns. */
  lemma {:induction false} CycleNeverEnds<U>(migrations: seq<Migration<U>>, from: Version, to: Version, period: nat, k: nat)
    requires period > 0 && After(migrations, from, to, period) == Some(from)
    ensures After(migrations, from, to, k).Some?
    decreases k
  {
    hide After;
    if k <= period {
      AfterSplits(migrations, from, to, k, period - k);
    } else {
      AfterSplits(migrations, from, to, period, k - period);
      CycleNeverEnds(migrations, from, to, period, k - period);
    }
  }

  /** Raising migrations end it: turn k stands where the first k planned migrations lead, and there
      is no turn after the last of them. */
  lemma {:induction false} RaisingEnds<U>(migrations: seq<Migration<U>>, from: Version, to: Version, k: nat)
    requires AllRaise(migrations)
    ensures var plan := Pending(migrations, from, to);
            After(migrations, from, to, k) == if k <= |plan| then Some(End(plan[..k], from)) else None
    decreases k
  {
    var plan := Pending(migrations, from, to);
    if k > 0 && plan != [] {
      RaisingEnds(migrations, plan[0].to, to, k - 1);
      assert k <= |plan| ==> plan[..k][1..] == plan[1..][..k - 1];
    }
  }

  ghost predicate ComesBack<U>(migrations: seq<Migration<U>>, from: Version, to: Version, i: nat, j: nat) {
    i < j && After(migrations, from, to, i).Some? && After(migrations, from, to, j) == After(migrations, from, to, i)
  }

  function Targets<U>(migrations: seq<Migration<U>>): (targets: set<Version>)
    ensures |targets| <= |migrations|
    ensures forall i :: 0 <= i < |migrations| ==> migrations[i].to in targets
  {
    if migrations == [] then {} else Targets(migrations[..|migrations| - 1]) + {migrations[|migrations| - 1].to}
  }

  lemma {:induction false} NoRepeatsFit<T>(s: seq<T>, bound: set<T>)
    requires forall i :: 0 <= i < |s| ==> s[i] in bound
    requires forall i, j :: 0 <= i < j < |s| ==> s[i] != s[j]
    ensures |s| <= |bound|
  {
    if s != [] {
      NoRepeatsFit(s[..|s| - 1], bound - {s[|s| - 1]});
    }
  }

  lemma {:induction false} EachTurnIsATarget<U>(migrations: seq<Migration<U>>, from: Version, to: Version, k: nat)
    requires k > 0 && After(migrations, from, to, k).Some?
    ensures After(migrations, from, to, k).value in Targets(migrations)
    decreases k
  {
    var found := Find(migrations, from, to);
    if k > 1 {
      EachTurnIsATarget(migrations, migrations[found.value].to, to, k - 1);
    }
  }

  /** The loop stops, within one turn more than there are migrations, exactly when no version comes
      back: with migrations that do not all raise the version this is what must be known instead. */
  lemma StopsUnlessAVersionComesBack<U>(migrations: seq<Migration<U>>, from: Version, to: Version)
    ensures After(migrations, from, to, |migrations| + 1).None? <==>
            !exists i: nat, j: nat :: ComesBack(migrations, from, to, i, j)
  {
    var n := |migrations| + 1;
    if i: nat, j: nat :| ComesBack(migrations, from, to, i, j) {
      var v := After(migrations, from, to, i).value;
      AfterSplits(migrations, from, to, i, j - i);
      CycleNeverEnds(migrations, v, to, j - i, n);
      AfterSplits(migrations, from, to, i, n);
      AfterSplits(migrations, from, to, n, i);
    } else if After(migrations, from, to, n).Some? {
      TooManyTurns(migrations, from, to, n);
    }
  }

  lemma TooManyTurns<U>(migrations: seq<Migration<U>>, from: Version, to: Version, n: nat)
    requires n == |migrations| + 1 && After(migrations, from, to, n).Some?
    ensures exists i: nat, j: nat :: ComesBack(migrations, from, to, i, j)
  {
    hide After;
    forall k: nat | k <= n
      ensures After(migrations, from, to, k).Some?
      ensures k > 0 ==> After(migrations, from, to, k).value in Targets(migrations)
    {
      AfterSplits(migrations, from, to, k, n - k);
      if k > 0 {
        EachTurnIsATarget(migrations, from, to, k);
      }
    }
    var turns := seq(n, k requires 0 <= k < n => After(migrations, from, to, k + 1).value);
    if forall i, j :: 0 <= i < j < n ==> turns[i] != turns[j] {
      NoRepeatsFit(turns, Targets(migrations));
      assert false;
    } else {
      var i: nat, j: nat :| i < j < n && turns[i] == turns[j];
      assert ComesBack(migrations, from, to, i + 1, j + 1);
    }
  }
}
