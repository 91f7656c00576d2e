/**
 What the two clipboards hold once every exchange is complete, when either user may copy.
 */
module SyncTwoWriters {
  import opened Wrappers
  import opened Clipboard
  import opened SyncProtocol
  import opened SyncProgress
  import opened SyncHistory
  import opened SyncDelivery
  import opened SyncConvergence

  /** A clipboard nobody has written holds what it held at the start. */
  ghost predicate StartKept(start: Option<Content>, p: Peer, l: Log) {
    !l.byUser && Applied(l.answered) == [] ==> p.clip == start
  }

  lemma {:induction false} AppliedGrows(answered: seq<Delivery>, d: Delivery)
    ensures Applied(answered + [d]) == [] <==> Applied(answered) == [] && d.content.None?
  {
    AppliedAppend(answered, d);
  }

  lemma InboundKeepsStart(h: HashFn, r: Traced, start: Option<Content>)
    requires StartKept(start, r.sys.a, r.la)
    ensures StartKept(start, TraceMoveA(h, r, Inbound).sys.a, TraceMoveA(h, r, Inbound).la)
  {
    hide Wire, Unwire, Answer, Applied;
    var s := r.sys;
    if s.ba != [] && s.a.mode.Waiting? && s.ba[0].Data? {
      AppliedGrows(r.la.answered, Delivery(r.la.notice, r.lb.carried, Unwire(s.a.mode.ctype, s.ba[0].payload)));
    }
  }

  lemma MoveKeepsStart(h: HashFn, r: Traced, m: Move, start: Option<Content>)
    requires StartKept(start, r.sys.a, r.la)
    ensures StartKept(start, TraceMoveA(h, r, m).sys.a, TraceMoveA(h, r, m).la)
    ensures TraceMoveA(h, r, m).sys.b == r.sys.b && TraceMoveA(h, r, m).lb == r.lb
  {
    hide Wire, Unwire, Applied, InboundPeer, LogInbound, Undetected, Notice;
    if m.Inbound? {
      hide StartKept;
      InboundKeepsStart(h, r, start);
    }
  }

  lemma {:induction false} RunKeepsStart(h: HashFn, clipA: Option<Content>, clipB: Option<Content>, sched: seq<Turn>)
    ensures var r := Trace(h, TraceStart(h, clipA, clipB), sched);
            StartKept(clipA, r.sys.a, r.la) && StartKept(clipB, r.sys.b, r.lb)
    decreases |sched|
  {
    hide TraceMoveA, Applied, ClipHash;
    if sched != [] {
      var n := |sched| - 1;
      RunKeepsStart(h, clipA, clipB, sched[..n]);
      var r := Trace(h, TraceStart(h, clipA, clipB), sched[..n]);
      if sched[n].side == A {
        MoveKeepsStart(h, r, sched[n].move, clipA);
      } else {
        MoveKeepsStart(h, SwapTraced(r), sched[n].move, clipB);
      }
    }
  }

  function Last<T>(s: seq<T>): T
    requires s != []
  {
    s[|s| - 1]
  }

  /** A user who wrote the clipboard last finds the own last copy there; else it is the other's last
      announcement, or the content of the start if there was none. */
  function Held(own: Log, other: Log, start: Option<Content>): Option<Content> {
    if own.byUser && own.copies != [] then Some(Last(own.copies))
    else if other.announced != [] then Some(Last(other.announced))
    else start
  }

  /** Contents of one type, each one a Rust value. */
  predicate OneKind(contents: seq<Content>) {
    OneType(contents) && forall i :: 0 <= i < |contents| ==> contents[i].WellFormed()
  }

  lemma OwnClip(h: HashFn, p: Peer, l: Log)
    requires Own(h, p, l) && l.byUser
    ensures l.copies != [] && p.clip == Some(Last(l.copies))
  {
  }

  lemma NothingToApply(announced: seq<Content>, answered: seq<Delivery>)
    requires Chain(announced, answered) && announced == []
    ensures Applied(answered) == []
  {
    DeliveriesCounted(announced, answered);
    DeliveredWithinAnnounced(announced, answered);
  }

  lemma ReceivedClip(h: HashFn, x: Peer, lx: Log, y: Peer, ly: Log, xy: seq<Frame>)
    requires Dir(h, x, lx, y, ly, xy) && HasAll(x, y, xy) && lx.announced != [] && !ly.byUser
    requires OneKind(lx.announced)
    ensures y.clip == Some(Last(lx.announced))
  {
    hide Wire, Unwire, Dir;
    ReaderClip(h, x, lx, y, ly, xy);
    var d, last := ly.answered[|ly.answered| - 1], |lx.announced| - 1;
    assert lx.announced[d.notice].Type() == lx.announced[last].Type();
    UnwireWire(lx.announced[last].Type(), lx.announced[last]);
  }

  lemma SideAtCompletion(h: HashFn, x: Peer, lx: Log, y: Peer, ly: Log, xy: seq<Frame>, start: Option<Content>)
    requires Dir(h, x, lx, y, ly, xy) && StartKept(start, y, ly)
    requires ly.byUser ==> ly.copies != [] && y.clip == Some(Last(ly.copies))
    requires HasAll(x, y, xy) && OneKind(lx.announced)
    ensures y.clip == Held(ly, lx, start)
  {
    hide OneKind, Announcing, InFlight, Chain, Applied, HasAll;
    if ly.byUser {
    } else if lx.announced != [] {
      ReceivedClip(h, x, lx, y, ly, xy);
    } else {
      NothingToApply(lx.announced, ly.answered);
    }
  }

  /** Two writers, every schedule: when all exchanges are complete, each clipboard holds its own
      user's last copy if that user wrote it last, and the other's last announcement otherwise. */
  lemma TwoWritersAtCompletion(h: HashFn, clipA: Option<Content>, clipB: Option<Content>, sched: seq<Turn>, r: Traced)
    requires r == Trace(h, TraceStart(h, clipA, clipB), sched) && Complete(h, r.sys)
    requires OneKind(r.la.announced) && OneKind(r.lb.announced)
    ensures r.sys.a.clip == Held(r.la, r.lb, clipA) && r.sys.b.clip == Held(r.lb, r.la, clipB)
  {
    hide Trace, Half, Dir, Own, OneKind, Held, StartKept, Undetected;
    RunKeepsGood(h, clipA, clipB, sched);
    RunKeepsStart(h, clipA, clipB, sched);
    if r.la.byUser { OwnClip(h, r.sys.a, r.la); }
    if r.lb.byUser { OwnClip(h, r.sys.b, r.lb); }
    SideAtCompletion(h, r.sys.b, r.lb, r.sys.a, r.la, r.sys.ba, clipA);
    SideAtCompletion(h, r.sys.a, r.la, r.sys.b, r.lb, r.sys.ab, clipB);
  }

  /** The runs in which everything completes: at rest, no crossing, neither peer out of event slots. */
  lemma RestedIsComplete(h: HashFn, clipA: Option<Content>, clipB: Option<Content>, sched: seq<Turn>, r: Traced)
    requires r == Trace(h, TraceStart(h, clipA, clipB), sched)
    requires AtRest(h, r.sys) && !Crossed(r.sys) && WithinSlots(r.sys.a) && WithinSlots(r.sys.b)
    ensures Complete(h, r.sys)
  {
    hide Trace, Exec, AtRest, Crossed, WithinSlots, Complete;
    TraceIsExec(h, TraceStart(h, clipA, clipB), sched);
    ExchangesComplete(h, clipA, clipB, sched);
  }

  /** When two writers agree. Both have announced, and the clipboards have come to rest without a
      crossing and within the event slots: they agree exactly when what the two sides hold coincides.
      If neither user wrote last they hold each other's last announcements, exchanged unless equal; if
      one did, that user's last copy must be the one announced last; if both did, the copies must
      be the same. */
  lemma TwoWritersAgree(h: HashFn, clipA: Option<Content>, clipB: Option<Content>, sched: seq<Turn>, r: Traced)
    requires r == Trace(h, TraceStart(h, clipA, clipB), sched)
    requires AtRest(h, r.sys) && !Crossed(r.sys) && WithinSlots(r.sys.a) && WithinSlots(r.sys.b)
    requires OneKind(r.la.announced) && OneKind(r.lb.announced) && r.la.announced != [] && r.lb.announced != []
    ensures r.la.copies != [] && r.lb.copies != []
    ensures var a, b := r.sys.a.clip, r.sys.b.clip;
            && a == Some(if r.la.byUser then Last(r.la.copies) else Last(r.lb.announced))
            && b == Some(if r.lb.byUser then Last(r.lb.copies) else Last(r.la.announced))
            && (a == b <==>
                  if r.la.byUser && r.lb.byUser then Last(r.la.copies) == Last(r.lb.copies)
                  else if r.la.byUser then Last(r.la.copies) == Last(r.la.announced)
                  else if r.lb.byUser then Last(r.lb.copies) == Last(r.lb.announced)
                  else Last(r.la.announced) == Last(r.lb.announced))
  {
    hide Trace, AtRest, Crossed, Complete, OneKind, WithinSlots;
    RestedIsComplete(h, clipA, clipB, sched, r);
    TwoWritersAtCompletion(h, clipA, clipB, sched, r);
    NoEcho(h, clipA, clipB, sched);
  }
}
