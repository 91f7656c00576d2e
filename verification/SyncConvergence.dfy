/**
 What the clipboards hold when the system has come to rest: with one user copying, the other
 clipboard has the last announcement; with two, each has its own last copy or the other's last
 announcement.
 */
module SyncConvergence {
  import opened Wrappers
  import opened Clipboard
  import opened SyncProtocol
  import opened SyncProgress
  import opened SyncHistory
  import opened SyncDelivery

  predicate OnlyACopies(sched: seq<Turn>) {
    forall i :: 0 <= i < |sched| && sched[i].move.Copy? ==> sched[i].side == A
  }

  /** Hashes tell the listed contents apart, and none is the zero that stands for "nothing". */
  predicate HashesTellApart(h: HashFn, contents: seq<Content>) {
    && (forall i :: 0 <= i < |contents| ==> contents[i].Hash(h) != 0)
    && (forall i, j :: 0 <= i < |contents| && 0 <= j < |contents| && contents[i].Hash(h) == contents[j].Hash(h)
          ==> contents[i] == contents[j])
  }

  /** A peer that has received nothing skips nothing, and its watcher's hash is that of the last report. */
  ghost predicate Unreceived(h: HashFn, p: Peer, l: Log) {
    l.answered == [] ==>
      && p.lastRemote == 0
      && (l.copies != [] ==> l.byUser)
      && (Reported(p, l) != [] ==> p.watched == Reported(p, l)[|Reported(p, l)| - 1].Hash(h))
  }

  lemma PollKeepsUnreceived(h: HashFn, r: Traced)
    requires Unreceived(h, r.sys.a, r.la)
    ensures Unreceived(h, TraceMoveA(h, r, Poll).sys.a, TraceMoveA(h, r, Poll).la)
  {
    var p, l, r' := r.sys.a, r.la, TraceMoveA(h, r, Poll);
    if r'.sys.a != p {
      assert Contents(r'.sys.a.queue) == Contents(p.queue) + [p.clip.value];
      assert Reported(r'.sys.a, r'.la) == Reported(p, l) + [p.clip.value];
    }
  }

  lemma OutboundKeepsUnreceived(h: HashFn, r: Traced)
    requires QueueHashed(h, r.sys.a) && |r.la.queuedFrom| == |r.sys.a.queue| && Unreceived(h, r.sys.a, r.la)
    ensures Unreceived(h, TraceMoveA(h, r, Outbound).sys.a, TraceMoveA(h, r, Outbound).la)
  {
    var p, l, r' := r.sys.a, r.la, TraceMoveA(h, r, Outbound);
    if p.queue != [] && !p.outBlocked && l.answered == [] {
      assert OutboundPeer(p).1 != [];
      assert Contents(r'.sys.a.queue) == Contents(p.queue)[1..];
      assert Reported(r'.sys.a, r'.la) == Reported(p, l);
    }
  }

  /** An inbound step that brings no content changes no hash and nothing it reports from. */
  lemma InboundWithoutContent(h: HashFn, r: Traced)
    ensures var p, l, r' := r.sys.a, r.la, TraceMoveA(h, r, Inbound);
            || r'.la.answered != []
            || (&& r'.sys.a.lastRemote == p.lastRemote && r'.sys.a.watched == p.watched && r'.sys.a.queue == p.queue
                && r'.la.answered == l.answered && r'.la.announced == l.announced
                && r'.la.copies == l.copies && r'.la.byUser == l.byUser)
  {
    hide Wire, Unwire, ReceivedPeer, Answer;
  }

  lemma InboundKeepsUnreceived(h: HashFn, r: Traced)
    requires Unreceived(h, r.sys.a, r.la)
    ensures Unreceived(h, TraceMoveA(h, r, Inbound).sys.a, TraceMoveA(h, r, Inbound).la)
  {
    hide TraceMoveA;
    InboundWithoutContent(h, r);
    var r' := TraceMoveA(h, r, Inbound);
    if r'.la.answered == [] {
      assert Reported(r'.sys.a, r'.la) == Reported(r.sys.a, r.la);
    }
  }

  lemma MoveKeepsUnreceived(h: HashFn, r: Traced, m: Move)
    requires Own(h, r.sys.a, r.la) && Unreceived(h, r.sys.a, r.la)
    ensures Unreceived(h, TraceMoveA(h, r, m).sys.a, TraceMoveA(h, r, m).la)
  {
    match m
    case Copy(c) => assert Reported(TraceMoveA(h, r, m).sys.a, TraceMoveA(h, r, m).la) == Reported(r.sys.a, r.la);
    case Poll => PollKeepsUnreceived(h, r);
    case Outbound => OutboundKeepsUnreceived(h, r);
    case Inbound => InboundKeepsUnreceived(h, r);
  }

  ghost predicate OneWriter(h: HashFn, r: Traced) {
    Good(h, r) && Unreceived(h, r.sys.a, r.la) && r.lb.copies == []
  }

  lemma {:induction false} RunHasOneWriter(h: HashFn, clipA: Option<Content>, clipB: Option<Content>, sched: seq<Turn>)
    requires OnlyACopies(sched)
    ensures OneWriter(h, Trace(h, TraceStart(h, clipA, clipB), sched))
    decreases |sched|
  {
    hide Half, Own, BothDirs, TraceMoveA;
    RunKeepsGood(h, clipA, clipB, sched);
    if sched == [] {
      assert Reported(TraceStart(h, clipA, clipB).sys.a, EMPTY_LOG) == [];
    } else {
      var n := |sched| - 1;
      RunHasOneWriter(h, clipA, clipB, sched[..n]);
      var r := Trace(h, TraceStart(h, clipA, clipB), sched[..n]);
      if sched[n].side == A {
        MoveKeepsUnreceived(h, r, sched[n].move);
        assert TraceMoveA(h, r, sched[n].move).lb == r.lb by { OtherSideStays(h, r, sched[n].move); }
      } else {
        OthersCopiesStay(h, SwapTraced(r), sched[n].move);
      }
    }
  }

  lemma OtherSideStays(h: HashFn, r: Traced, m: Move)
    ensures TraceMoveA(h, r, m).sys.b == r.sys.b && TraceMoveA(h, r, m).lb == r.lb
  {
    hide Wire, Unwire;
  }

  lemma OthersCopiesStay(h: HashFn, r: Traced, m: Move)
    requires !m.Copy?
    ensures var r' := TraceMoveA(h, r, m);
            r'.la.copies == r.la.copies && r'.sys.b == r.sys.b && r'.lb == r.lb
  {
    hide Wire, Unwire;
  }

  /** The writer's side: B announces nothing, so A receives nothing, waits for nothing and skips nothing. */
  lemma WriterSide(h: HashFn, r: Traced)
    requires Own(h, r.sys.b, r.lb) && r.lb.copies == []
    requires Dir(h, r.sys.b, r.lb, r.sys.a, r.la, r.sys.ba)
    ensures r.lb.announced == [] && r.la.answered == [] && !Waits(r.sys.a) && !r.lb.byUser
  {
    hide Wire, Unwire, InFlight, Announcing, Increasing, QueueHashed;
    AnnouncedFromCopies(h, r.sys.b, r.lb);
    DeliveriesCounted(r.lb.announced, r.la.answered);
    DeliveredWithinAnnounced(r.lb.announced, r.la.answered);
  }

  /** One writer cannot cross announcements with anyone: no run gets stuck. */
  lemma OneWriterNeverCrosses(h: HashFn, clipA: Option<Content>, clipB: Option<Content>, sched: seq<Turn>)
    requires OnlyACopies(sched)
    ensures !Crossed(Exec(h, Start(h, clipA, clipB), sched))
  {
    hide Half, Own, Dir, Unreceived, Trace, Exec;
    RunHasOneWriter(h, clipA, clipB, sched);
    WriterSide(h, Trace(h, TraceStart(h, clipA, clipB), sched));
    TraceIsExec(h, TraceStart(h, clipA, clipB), sched);
  }

  // ---------- what the reader has been given ----------

  /** The reader has taken every notification and is not in the inner wait, or has received as many
      items as were sent. */
  predicate HasAll(x: Peer, y: Peer, xy: seq<Frame>) {
    (y.mode.Idle? && xy == []) || y.itemsReceived >= x.itemsSent
  }

  /** Then the last delivery carried the last announcement. */
  lemma LastDelivered(h: HashFn, x: Peer, lx: Log, y: Peer, ly: Log, xy: seq<Frame>)
    requires Dir(h, x, lx, y, ly, xy) && HasAll(x, y, xy) && lx.announced != []
    ensures ly.answered != []
    ensures var d := ly.answered[|ly.answered| - 1];
            Faithful(lx.announced, d) && d.version == |lx.announced| - 1
  {
    hide Wire, Unwire, Applied, AppliedSize, TotalSize, Faithful, NoticesOf;
    DeliveriesCounted(lx.announced, ly.answered);
    DeliveredWithinAnnounced(lx.announced, ly.answered);
    if y.mode.Idle? && xy == [] {
      assert |NoticesOf(h, lx.announced[ly.taken..])| == |lx.announced| - ly.taken;
    }
    assert Covered(ly.answered) == |lx.announced|;
  }

  lemma LastApplied(answered: seq<Delivery>)
    requires answered != [] && answered[|answered| - 1].content.Some?
    ensures Applied(answered) != [] && Applied(answered)[|Applied(answered)| - 1] == answered[|answered| - 1]
  {
  }

  /** What a clipboard the inbound task wrote last holds, then. */
  lemma ReaderClip(h: HashFn, x: Peer, lx: Log, y: Peer, ly: Log, xy: seq<Frame>)
    requires Dir(h, x, lx, y, ly, xy) && HasAll(x, y, xy) && lx.announced != [] && !ly.byUser
    ensures ly.answered != [] && |lx.announced| > 0
    ensures var d, last := ly.answered[|ly.answered| - 1], |lx.announced| - 1;
            && 0 <= d.notice <= d.version == last
            && d.content == Unwire(lx.announced[d.notice].Type(), Wire(lx.announced[last]))
            && (d.content.Some? ==> y.clip == d.content)
  {
    hide Wire, Unwire, Applied, AppliedSize, Chain, Announcing, InFlight;
    LastDelivered(h, x, lx, y, ly, xy);
    if ly.answered[|ly.answered| - 1].content.Some? {
      LastApplied(ly.answered);
    }
  }

  // ---------- one writer ----------

  lemma WriterHasCopied(h: HashFn, p: Peer, l: Log)
    requires Own(h, p, l) && Unreceived(h, p, l) && l.answered == [] && l.announced != []
    ensures l.copies != [] && p.clip == Some(l.copies[|l.copies| - 1])
  {
    hide Increasing, QueueHashed, Undetected;
    AnnouncedFromCopies(h, p, l);
  }

  /** With nothing queued or undetected, the last announcement is the last copy. */
  lemma WriterIsHeard(h: HashFn, p: Peer, l: Log)
    requires Own(h, p, l) && Unreceived(h, p, l) && l.answered == []
    requires p.queue == [] && !Undetected(h, p) && l.announced != []
    requires HashesTellApart(h, l.copies)
    ensures l.copies != [] && l.announced[|l.announced| - 1] == l.copies[|l.copies| - 1]
  {
    hide Wire, Unwire;
    AnnouncedFromCopies(h, p, l);
    var k := |l.announced| - 1;
    assert Reported(p, l) == l.announced;
    assert l.announced[k] == l.copies[l.announcedFrom[k]];
  }

  /** Every report is a copy of its own. */
  lemma ReportsWithinCopies(h: HashFn, p: Peer, l: Log)
    requires Own(h, p, l)
    ensures |l.announced| + |p.queue| <= |l.copies|
  {
    hide QueueHashed, Undetected;
    IncreasingWithin(ReportedFrom(l), |l.copies|);
  }

  /** The runs the one-writer results are about: only A's user copies, the system has come to rest,
      something was announced, and hashes tell A's copies apart. */
  ghost predicate RestedOneWriter(h: HashFn, clipA: Option<Content>, clipB: Option<Content>, sched: seq<Turn>, r: Traced) {
    && OnlyACopies(sched)
    && r == Trace(h, TraceStart(h, clipA, clipB), sched)
    && AtRest(h, r.sys)
    && r.la.announced != []
    && HashesTellApart(h, r.la.copies)
    && (forall i :: 0 <= i < |r.la.copies| ==> r.la.copies[i].WellFormed())
  }

  lemma RestedFacts(h: HashFn, clipA: Option<Content>, clipB: Option<Content>, sched: seq<Turn>, r: Traced)
    requires RestedOneWriter(h, clipA, clipB, sched, r)
    ensures OneWriter(h, r) && EventsCounted(r.sys.a) && EventsCounted(r.sys.b)
    ensures Quiet(h, r.sys.a, r.sys.ba) && Quiet(h, r.sys.b, r.sys.ab)
  {
    hide OneWriter, HashesTellApart, Quiet, EventsCounted, AtRest, Trace, Exec;
    RunHasOneWriter(h, clipA, clipB, sched);
    TraceIsExec(h, TraceStart(h, clipA, clipB), sched);
    RunKeepsEvents(h, clipA, clipB, sched);
    RestIsQuiet(h, r.sys);
  }

  lemma NobodyWaits(h: HashFn, s: System)
    requires Inv(s) && Quiet(h, s.a, s.ba) && Quiet(h, s.b, s.ab) && s.a.mode.Idle?
    ensures !Waits(s.b)
  {
    hide Undetected, NoDataAfterRequest;
  }

  lemma CountersOfOneWriter(h: HashFn, r: Traced)
    requires OneWriter(h, r) && EventsCounted(r.sys.a)
    ensures r.sys.b.itemsSent == 0 && r.sys.a.itemsReceived == 0 && r.sys.a.itemsSent == |r.la.announced|
    ensures r.sys.a.mode.Idle?
  {
    hide Own, Unreceived, InFlight, Chain, Half;
    WriterSide(h, r);
    assert !r.sys.a.mode.Stopped? by { InvNeverStopped(r.sys); }
  }

  /** The reader has everything, even if it could not acknowledge the last item: by then the writer
      has used up its own event slots, too. */
  lemma ReaderHasAll(h: HashFn, r: Traced)
    requires OneWriter(h, r) && EventsCounted(r.sys.a) && EventsCounted(r.sys.b)
    requires Quiet(h, r.sys.a, r.sys.ba) && Quiet(h, r.sys.b, r.sys.ab)
    ensures HasAll(r.sys.a, r.sys.b, r.sys.ab)
    ensures r.sys.a.itemsSent == |r.la.announced| <= EVENT_SLOTS + 1
    ensures r.sys.a.outBlocked ==> r.sys.a.itemsSent == EVENT_SLOTS + 1
  {
    hide Own, Unreceived, BothDirs, Half, Undetected;
    CountersOfOneWriter(h, r);
    NobodyWaits(h, r.sys);
    InvNeverStopped(r.sys);
  }

  /** At rest B's clipboard is the last announcement if the notification its last delivery answered
      named that one's type, and, when the delivery could be decoded at all, only then. No bound on
      the items: what B has applied but could not acknowledge counts. */
  lemma OneWriterAtRest(h: HashFn, clipA: Option<Content>, clipB: Option<Content>, sched: seq<Turn>, r: Traced)
    requires RestedOneWriter(h, clipA, clipB, sched, r)
    ensures r.lb.answered != [] && r.la.copies != []
    ensures var d, last := r.lb.answered[|r.lb.answered| - 1], |r.la.announced| - 1;
            && 0 <= d.notice <= d.version == last
            && r.sys.a.clip == Some(r.la.copies[|r.la.copies| - 1])
            && r.la.announced[last].WellFormed()
            && (r.la.announced[d.notice].Type() == r.la.announced[last].Type() ==>
                  r.sys.b.clip == Some(r.la.announced[last]))
            && (d.content.Some? && r.sys.b.clip == Some(r.la.announced[last]) ==>
                  r.la.announced[d.notice].Type() == r.la.announced[last].Type())
  {
    hide Wire, Unwire, Half, HashesTellApart, AtRest, Own, Unreceived, EventsCounted, Quiet, Dir;
    RestedFacts(h, clipA, clipB, sched, r);
    WriterSide(h, r);
    ReaderHasAll(h, r);
    ReaderClip(h, r.sys.a, r.la, r.sys.b, r.lb, r.sys.ab);
    WriterHasCopied(h, r.sys.a, r.la);
    var d, last := r.lb.answered[|r.lb.answered| - 1], |r.la.announced| - 1;
    AnnouncedFromCopies(h, r.sys.a, r.la);
    assert r.la.announced[last] == r.la.copies[r.la.announcedFrom[last]];
    UnwireWire(r.la.announced[d.notice].Type(), r.la.announced[last]);
  }

  predicate OneType(contents: seq<Content>) {
    forall i, j :: 0 <= i < |contents| && 0 <= j < |contents| ==> contents[i].Type() == contents[j].Type()
  }

  /** One-writer convergence. At rest after an announcement of content of one type, A's clipboard is
      its user's last copy and B's is A's last announcement, whatever notifications B missed, so they
      are equal exactly when these two are. They are while A has nothing left in its queue, hence
      within its event slots, hence within 33 copies. */
  lemma OneWriterConverges(h: HashFn, clipA: Option<Content>, clipB: Option<Content>, sched: seq<Turn>, r: Traced)
    requires RestedOneWriter(h, clipA, clipB, sched, r) && OneType(r.la.copies)
    ensures r.la.copies != []
    ensures var copied, announced := r.la.copies[|r.la.copies| - 1], r.la.announced[|r.la.announced| - 1];
            && r.sys.a.clip == Some(copied) && r.sys.b.clip == Some(announced)
            && (r.sys.a.clip == r.sys.b.clip <==> copied == announced)
            && (r.sys.a.queue == [] || WithinSlots(r.sys.a) || |r.la.copies| <= 33 ==>
                  r.sys.a.clip == r.sys.b.clip)
  {
    hide HashesTellApart, AtRest, Own, Unreceived, Dir, Half, Undetected;
    OneWriterAtRest(h, clipA, clipB, sched, r);
    RestedFacts(h, clipA, clipB, sched, r);
    WriterSide(h, r);
    AnnouncedFromCopies(h, r.sys.a, r.la);
    var d := r.lb.answered[|r.lb.answered| - 1];
    assert r.la.announced[d.notice] == r.la.copies[r.la.announcedFrom[d.notice]];
    ReaderHasAll(h, r);
    ReportsWithinCopies(h, r.sys.a, r.la);
    if r.sys.a.queue == [] {
      WriterIsHeard(h, r.sys.a, r.la);
    }
  }
}
