/**
 History of a live sync run, kept beside the system and never read by it: what each user
 copied, what each peer announced and where it came from, and which announcement each
 delivery answered and carried.
 */
module SyncHistory {
  import opened Wrappers
  import opened Clipboard
  import opened SyncProtocol

  /** One exchange that brought an answer: the notification it answered and the announcement
      whose content it carried, both as positions in the announcer's list. */
  datatype Delivery = Delivery(notice: nat, version: int, content: Option<Content>)

  datatype Log = Log(
    copies: seq<Content>,        // what the local user copied
    byUser: bool,                // the clipboard was last written by the local user
    queuedFrom: seq<int>,        // for each queued change, the copy it reports (-1: not a copy)
    announced: seq<Content>,     // the contents of the notifications sent
    announcedFrom: seq<int>,     // for each of them, the copy it reports
    carried: int,                // the announcement in the last content frame sent
    taken: nat,                  // notifications read from the peer, at either read
    notice: nat,                 // the notification the inner wait is for
    answered: seq<Delivery>)     // the content frames received

  const EMPTY_LOG := Log([], false, [], [], [], -1, 0, 0, [])

  datatype Traced = Traced(sys: System, la: Log, lb: Log)

  function SwapTraced(r: Traced): Traced {
    Traced(Swap(r.sys), r.lb, r.la)
  }

  /** The entry peer a's log gains when a handles the frame at the head of ba. */
  function LogInbound(s: System, la: Log, lb: Log): Log
    requires s.ba != [] && Reads(s.a)
  {
    var f := s.ba[0];
    match s.a.mode
    case Idle =>
      if f.Changed? then la.(taken := la.taken + 1, notice := la.taken)
      else if f.Request? && s.a.cache.Some? then la.(carried := |la.announced| - 1)
      else la
    case Waiting(t) =>
      if f.Changed? then la.(taken := la.taken + 1)
      else if f.Data? then
        var content := Unwire(t, f.payload);
        la.(answered := la.answered + [Delivery(la.notice, lb.carried, content)],
            byUser := if content.Some? then false else la.byUser)
      else la
  }

  function LogMoveA(h: HashFn, s: System, la: Log, lb: Log, m: Move): Log {
    match m
    case Copy(c) => la.(copies := la.copies + [c], byUser := true)
    case Poll =>
      if PollPeer(h, s.a) != s.a then
        la.(queuedFrom := la.queuedFrom + [if la.byUser then |la.copies| - 1 else -1])
      else la
    case Outbound =>
      if s.a.queue == [] || s.a.outBlocked || la.queuedFrom == [] then la
      else if OutboundPeer(s.a).1 == [] then la.(queuedFrom := la.queuedFrom[1..])
      else
        la.(queuedFrom := la.queuedFrom[1..],
            announced := la.announced + [s.a.queue[0].content],
            announcedFrom := la.announcedFrom + [la.queuedFrom[0]])
    case Inbound =>
      if s.ba == [] || !Reads(s.a) then la else LogInbound(s, la, lb)
  }

  function TraceMoveA(h: HashFn, r: Traced, m: Move): Traced {
    Traced(MoveA(h, r.sys, m), LogMoveA(h, r.sys, r.la, r.lb, m), r.lb)
  }

  function TraceNext(h: HashFn, r: Traced, t: Turn): Traced {
    match t.side
    case A => TraceMoveA(h, r, t.move)
    case B => SwapTraced(TraceMoveA(h, SwapTraced(r), t.move))
  }

  function TraceStart(h: HashFn, clipA: Option<Content>, clipB: Option<Content>): Traced {
    Traced(Start(h, clipA, clipB), EMPTY_LOG, EMPTY_LOG)
  }

  function Trace(h: HashFn, r: Traced, sched: seq<Turn>): Traced
    decreases |sched|
  {
    if sched == [] then r
    else TraceNext(h, Trace(h, r, sched[..|sched| - 1]), sched[|sched| - 1])
  }

  /** Keeping the history does not change the run. */
  lemma {:induction false} TraceIsExec(h: HashFn, r: Traced, sched: seq<Turn>)
    ensures Trace(h, r, sched).sys == Exec(h, r.sys, sched)
    decreases |sched|
  {
    hide Wire, Unwire;
    if sched != [] {
      TraceIsExec(h, r, sched[..|sched| - 1]);
    }
  }

  // ---------- no echo ----------

  predicate Increasing(s: seq<int>) {
    forall i, j :: 0 <= i < j < |s| ==> s[i] < s[j]
  }

  predicate Below(s: seq<int>, bound: int) {
    forall i :: 0 <= i < |s| ==> s[i] < bound
  }

  /** The listed contents are the copies at the listed positions. */
  predicate DrawnFrom(contents: seq<Content>, from: seq<int>, copies: seq<Content>) {
    && |from| == |contents|
    && forall i :: 0 <= i < |from| ==> 0 <= from[i] < |copies| && copies[from[i]] == contents[i]
  }

  function Contents(queue: seq<Change>): (s: seq<Content>)
    ensures |s| == |queue|
  {
    seq(|queue|, i requires 0 <= i < |queue| => queue[i].content)
  }

  /** Everything the watcher has reported and the outbound task has not skipped. */
  function Reported(p: Peer, l: Log): seq<Content> {
    l.announced + Contents(p.queue)
  }

  function ReportedFrom(l: Log): seq<int> {
    l.announcedFrom + l.queuedFrom
  }

  predicate QueueHashed(h: HashFn, p: Peer) {
    forall i :: 0 <= i < |p.queue| ==> p.queue[i].hash == p.queue[i].content.Hash(h) && p.queue[i].hash != 0
  }

  /** What peer p's history says about its own reports. */
  ghost predicate Own(h: HashFn, p: Peer, l: Log) {
    && |l.queuedFrom| == |p.queue| && |l.announcedFrom| == |l.announced|
    && DrawnFrom(Reported(p, l), ReportedFrom(l), l.copies)
    && Increasing(ReportedFrom(l))
    && QueueHashed(h, p)
    && (l.byUser ==> l.copies != [] && p.clip == Some(l.copies[|l.copies| - 1]))
    // a clipboard last written by the inbound task, or untouched, has the watcher's hash
    && (!l.byUser ==> !Undetected(h, p))
    // an undetected copy has not been reported yet
    && (Undetected(h, p) ==> Below(ReportedFrom(l), |l.copies| - 1))
  }

  lemma SkipOne(contents: seq<Content>, from: seq<int>, copies: seq<Content>, k: nat)
    requires k < |from| && DrawnFrom(contents, from, copies) && Increasing(from)
    ensures var from' := from[..k] + from[k + 1..];
            && DrawnFrom(contents[..k] + contents[k + 1..], from', copies)
            && Increasing(from')
            && forall bound :: Below(from, bound) ==> Below(from', bound)
  {
    hide Wire, Unwire;
    var from' := from[..k] + from[k + 1..];
    assert forall i :: 0 <= i < |from'| ==> from'[i] == from[if i < k then i else i + 1];
  }

  /** Two peers whose watchers stand alike, the second with the first queued change taken off. */
  predicate TookOne(p: Peer, l: Log, p': Peer, l': Log) {
    && p.queue != [] && |l.queuedFrom| == |p.queue|
    && p'.queue == p.queue[1..] && p'.clip == p.clip && p'.watched == p.watched
    && l'.queuedFrom == l.queuedFrom[1..] && l'.copies == l.copies && l'.byUser == l.byUser
  }

  lemma AnnouncingKeepsOwn(h: HashFn, p: Peer, l: Log, p': Peer, l': Log)
    requires Own(h, p, l) && TookOne(p, l, p', l')
    requires l'.announced == l.announced + [p.queue[0].content] && l'.announcedFrom == l.announcedFrom + [l.queuedFrom[0]]
    ensures Own(h, p', l')
  {
    hide DrawnFrom, Increasing, Below, ClipHash;
    assert Contents(p'.queue) == Contents(p.queue)[1..];
    assert Reported(p', l') == Reported(p, l);
    assert ReportedFrom(l') == ReportedFrom(l);
  }

  lemma SkippingKeepsOwn(h: HashFn, p: Peer, l: Log, p': Peer, l': Log)
    requires Own(h, p, l) && TookOne(p, l, p', l')
    requires l'.announced == l.announced && l'.announcedFrom == l.announcedFrom
    ensures Own(h, p', l')
  {
    hide DrawnFrom, Increasing, Below, ClipHash;
    var k, all, from := |l.announced|, Reported(p, l), ReportedFrom(l);
    SkipOne(all, from, l.copies, k);
    assert Contents(p'.queue) == Contents(p.queue)[1..];
    assert Reported(p', l') == all[..k] + all[k + 1..];
    assert ReportedFrom(l') == from[..k] + from[k + 1..];
  }

  lemma OutboundKeepsOwn(h: HashFn, r: Traced)
    requires Own(h, r.sys.a, r.la)
    ensures Own(h, TraceMoveA(h, r, Outbound).sys.a, TraceMoveA(h, r, Outbound).la)
  {
    var p, l, r' := r.sys.a, r.la, TraceMoveA(h, r, Outbound);
    if p.queue != [] && !p.outBlocked {
      assert |l.queuedFrom| == |p.queue|;
      hide Own, Notice;
      if OutboundPeer(p).1 == [] {
        SkippingKeepsOwn(h, p, l, r'.sys.a, r'.la);
      } else {
        AnnouncingKeepsOwn(h, p, l, r'.sys.a, r'.la);
      }
    }
  }

  lemma PollKeepsOwn(h: HashFn, r: Traced)
    requires Own(h, r.sys.a, r.la)
    ensures Own(h, TraceMoveA(h, r, Poll).sys.a, TraceMoveA(h, r, Poll).la)
  {
    hide Wire, Unwire;
    var p, l, r' := r.sys.a, r.la, TraceMoveA(h, r, Poll);
    if r'.sys.a != p {
      assert Contents(r'.sys.a.queue) == Contents(p.queue) + [p.clip.value];
      assert Reported(r'.sys.a, r'.la) == Reported(p, l) + [p.clip.value];
      assert ReportedFrom(r'.la) == ReportedFrom(l) + [|l.copies| - 1];
    }
  }

  lemma CopyKeepsOwn(h: HashFn, p: Peer, l: Log, c: Content)
    requires Own(h, p, l)
    ensures Own(h, p.(clip := Some(c)), l.(copies := l.copies + [c], byUser := true))
  {
    hide Wire, Unwire;
    var from := ReportedFrom(l);
    assert forall i :: 0 <= i < |from| ==> (l.copies + [c])[from[i]] == l.copies[from[i]];
  }

  lemma ApplyingIsDetected(h: HashFn, p: Peer, content: Option<Content>)
    ensures var q := ReceivedPeer(h, p, content).0;
            && q.queue == p.queue
            && if content.Some? then !Undetected(h, q) else q.clip == p.clip && q.watched == p.watched
  {
  }

  /** An inbound step reports nothing; if it writes the clipboard it stores the content's hash. */
  lemma InboundReportsNothing(h: HashFn, r: Traced)
    ensures var p, l, r' := r.sys.a, r.la, TraceMoveA(h, r, Inbound);
            && r'.sys.a.queue == p.queue && r'.la.queuedFrom == l.queuedFrom && r'.la.copies == l.copies
            && r'.la.announced == l.announced && r'.la.announcedFrom == l.announcedFrom
            && (|| (r'.sys.a.clip == p.clip && r'.sys.a.watched == p.watched && r'.la.byUser == l.byUser)
                || (!r'.la.byUser && !Undetected(h, r'.sys.a)))
  {
    hide Wire, Unwire, ReceivedPeer, Answer, Undetected;
    var s := r.sys;
    if s.ba != [] && s.a.mode.Waiting? && s.ba[0].Data? {
      ApplyingIsDetected(h, s.a, Unwire(s.a.mode.ctype, s.ba[0].payload));
    }
  }

  lemma InboundKeepsOwn(h: HashFn, p: Peer, l: Log, p': Peer, l': Log)
    requires Own(h, p, l)
    requires p'.queue == p.queue && l'.queuedFrom == l.queuedFrom && l'.copies == l.copies
    requires l'.announced == l.announced && l'.announcedFrom == l.announcedFrom
    requires || (p'.clip == p.clip && p'.watched == p.watched && l'.byUser == l.byUser)
             || (!l'.byUser && !Undetected(h, p'))
    ensures Own(h, p', l')
  {
    hide Wire, Unwire;
    assert Reported(p', l') == Reported(p, l);
    assert ReportedFrom(l') == ReportedFrom(l);
  }

  lemma StepKeepsOwn(h: HashFn, r: Traced, t: Turn)
    requires Own(h, r.sys.a, r.la) && Own(h, r.sys.b, r.lb)
    ensures Own(h, TraceNext(h, r, t).sys.a, TraceNext(h, r, t).la)
    ensures Own(h, TraceNext(h, r, t).sys.b, TraceNext(h, r, t).lb)
  {
    hide Wire, Unwire;
    var r' := if t.side == A then r else SwapTraced(r);
    match t.move
    case Copy(c) => CopyKeepsOwn(h, r'.sys.a, r'.la, c);
    case Poll => PollKeepsOwn(h, r');
    case Outbound => OutboundKeepsOwn(h, r');
    case Inbound =>
      var r'' := TraceMoveA(h, r', Inbound);
      InboundReportsNothing(h, r');
      InboundKeepsOwn(h, r'.sys.a, r'.la, r''.sys.a, r''.la);
  }

  lemma StartIsOwn(h: HashFn, clip: Option<Content>)
    ensures Own(h, StartPeer(h, clip), EMPTY_LOG)
  {
    hide ClipHash;
    assert Reported(StartPeer(h, clip), EMPTY_LOG) == [];
  }

  lemma {:induction false} RunKeepsOwn(h: HashFn, clipA: Option<Content>, clipB: Option<Content>, sched: seq<Turn>)
    ensures var r := Trace(h, TraceStart(h, clipA, clipB), sched);
            Own(h, r.sys.a, r.la) && Own(h, r.sys.b, r.lb)
    decreases |sched|
  {
    hide TraceNext;
    if sched == [] {
      StartIsOwn(h, clipA);
      StartIsOwn(h, clipB);
    } else {
      hide Own;
      var n := |sched| - 1;
      RunKeepsOwn(h, clipA, clipB, sched[..n]);
      StepKeepsOwn(h, Trace(h, TraceStart(h, clipA, clipB), sched[..n]), sched[n]);
    }
  }

  lemma {:induction false} IncreasingWithin(s: seq<int>, bound: int)
    requires Increasing(s) && Below(s, bound) && forall i :: 0 <= i < |s| ==> 0 <= s[i]
    ensures |s| <= if bound < 0 then 0 else bound
  {
    hide Wire, Unwire;
    if s != [] {
      var n := |s| - 1;
      IncreasingWithin(s[..n], s[n]);
    }
  }

  lemma AnnouncedFromCopies(h: HashFn, p: Peer, l: Log)
    requires Own(h, p, l)
    ensures DrawnFrom(l.announced, l.announcedFrom, l.copies) && Increasing(l.announcedFrom)
    ensures |l.announced| <= |l.copies|
  {
    hide Wire, Unwire;
    var k := |l.announced|;
    assert forall i :: 0 <= i < k ==> l.announcedFrom[i] == ReportedFrom(l)[i] && l.announced[i] == Reported(p, l)[i];
    IncreasingWithin(l.announcedFrom, |l.copies|);
  }

  /** No echo: what a peer announces is a subsequence of what its own user copied, each copy at
      most once. Content the inbound task wrote is never announced back. */
  lemma NoEcho(h: HashFn, clipA: Option<Content>, clipB: Option<Content>, sched: seq<Turn>)
    ensures var r := Trace(h, TraceStart(h, clipA, clipB), sched);
            && DrawnFrom(r.la.announced, r.la.announcedFrom, r.la.copies) && Increasing(r.la.announcedFrom)
            && DrawnFrom(r.lb.announced, r.lb.announcedFrom, r.lb.copies) && Increasing(r.lb.announcedFrom)
            && |r.la.announced| <= |r.la.copies| && |r.lb.announced| <= |r.lb.copies|
  {
    hide Wire, Unwire;
    RunKeepsOwn(h, clipA, clipB, sched);
    var r := Trace(h, TraceStart(h, clipA, clipB), sched);
    AnnouncedFromCopies(h, r.sys.a, r.la);
    AnnouncedFromCopies(h, r.sys.b, r.lb);
  }
}
