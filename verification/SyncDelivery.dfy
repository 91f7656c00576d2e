/**
 What a peer receives, in terms of what the other announced: notifications arrive in order,
 each answer carries an announcement at least as new as the one it answers, and no
 announcement is delivered twice.
 */
module SyncDelivery {
  import opened Wrappers
  import opened Clipboard
  import opened SyncProtocol
  import opened SyncProgress
  import opened SyncHistory

  function OneNotice(f: Frame): seq<Frame> {
    if f.Changed? then [f] else []
  }

  /** The notifications in a channel, in order. */
  function Notices(ch: seq<Frame>): (s: seq<Frame>)
    ensures |s| == Count(ch, KChanged)
  {
    if ch == [] then [] else OneNotice(ch[0]) + Notices(ch[1..])
  }

  /** How many notifications follow the first content frame. */
  function Behind(ch: seq<Frame>): nat {
    if ch == [] then 0 else if ch[0].Data? then Count(ch[1..], KChanged) else Behind(ch[1..])
  }

  lemma {:induction false} NoticesAppend(ch: seq<Frame>, f: Frame)
    ensures Notices(ch + [f]) == Notices(ch) + OneNotice(f)
  {
    hide OneNotice;
    if ch == [] {
      assert [f][1..] == [];
      assert Notices([f]) == OneNotice(f) + Notices([]);
      assert ch + [f] == [f];
    } else {
      NoticesAppend(ch[1..], f);
      assert (ch + [f])[1..] == ch[1..] + [f];
      assert Notices(ch + [f]) == OneNotice(ch[0]) + (Notices(ch[1..]) + OneNotice(f));
      assert Notices(ch + [f]) == (OneNotice(ch[0]) + Notices(ch[1..])) + OneNotice(f);
    }
  }

  lemma {:induction false} BehindAppend(ch: seq<Frame>, f: Frame)
    ensures Behind(ch + [f]) == if Count(ch, KData) > 0 then Behind(ch) + One(f, KChanged) else 0
  {
    hide Wire, Unwire;
    if ch == [] {
      assert ([f])[1..] == [];
    } else {
      BehindAppend(ch[1..], f);
      assert (ch + [f])[1..] == ch[1..] + [f];
      CountAppend(ch[1..], f, KChanged);
    }
  }

  lemma ChannelAppend(ch: seq<Frame>, f: Frame)
    ensures Notices(ch + [f]) == Notices(ch) + OneNotice(f)
    ensures Behind(ch + [f]) == if Count(ch, KData) > 0 then Behind(ch) + One(f, KChanged) else 0
    ensures Count(ch + [f], KData) == Count(ch, KData) + One(f, KData)
  {
    hide Notices, Behind, Count;
    NoticesAppend(ch, f);
    BehindAppend(ch, f);
    CountAppend(ch, f, KData);
  }

  function NoticesOf(h: HashFn, contents: seq<Content>): (s: seq<Frame>)
    ensures |s| == |contents|
  {
    seq(|contents|, i requires 0 <= i < |contents| => Notice(contents[i], contents[i].Hash(h)))
  }

  function TotalSize(contents: seq<Content>): nat {
    if contents == [] then 0
    else TotalSize(contents[..|contents| - 1]) + contents[|contents| - 1].Size()
  }

  /** The deliveries whose content could be decoded, hence was written to the clipboard. */
  function Applied(answered: seq<Delivery>): seq<Delivery> {
    if answered == [] then []
    else
      var n := |answered| - 1;
      Applied(answered[..n]) + if answered[n].content.Some? then [answered[n]] else []
  }

  function AppliedSize(answered: seq<Delivery>): nat {
    if answered == [] then 0
    else
      var n := |answered| - 1;
      AppliedSize(answered[..n]) + if answered[n].content.Some? then answered[n].content.value.Size() else 0
  }

  /** A delivery carries an announcement no older than the one it answers, read as the type the
      answered notification named. */
  ghost predicate Faithful(announced: seq<Content>, d: Delivery) {
    && d.notice <= d.version < |announced|
    && d.content == Unwire(announced[d.notice].Type(), Wire(announced[d.version]))
  }

  /** The announcements the receiver is done with: all up to the one last delivered. */
  function Covered(answered: seq<Delivery>): int {
    if answered == [] then 0 else answered[|answered| - 1].version + 1
  }

  /** Faithful deliveries, each answering a notification newer than the last one delivered. */
  ghost predicate Chain(announced: seq<Content>, answered: seq<Delivery>) {
    answered == [] ||
    var n := |answered| - 1;
    Chain(announced, answered[..n]) && Faithful(announced, answered[n]) && Covered(answered[..n]) <= answered[n].notice
  }

  ghost predicate Announcing(h: HashFn, x: Peer, announced: seq<Content>) {
    && x.itemsSent == |announced|
    && x.bytesSent == TotalSize(announced)
    && x.cache == if announced == [] then None
                  else var c := announced[|announced| - 1]; Some(Change(c, c.Hash(h)))
  }

  /** The channel from announcer to receiver: its notifications are those announced and not yet
      taken; a content frame in it carries announcement `carried`, and the notifications behind
      that frame are exactly the later ones. */
  ghost predicate InFlight(h: HashFn, announced: seq<Content>, carried: int, taken: nat, notice: nat, ch: seq<Frame>) {
    && taken <= |announced|
    && Notices(ch) == NoticesOf(h, announced[taken..])
    && (Count(ch, KData) > 0 ==>
          && notice <= carried < |announced|
          && carried + 1 + Behind(ch) == |announced|
          && forall i :: 0 <= i < |ch| && ch[i].Data? ==> ch[i].payload == Wire(announced[carried]))
  }

  ghost predicate Receiving(announced: seq<Content>, y: Peer, ly: Log) {
    && Chain(announced, ly.answered)
    && (y.mode.Idle? || y.mode.Unacknowledged? ==> ly.taken == Covered(ly.answered))
    && (Waits(y) ==>
          && Covered(ly.answered) <= ly.notice < ly.taken <= |announced|
          && y.mode.ctype == announced[ly.notice].Type())
    && y.itemsReceived == |Applied(ly.answered)|
    && y.bytesReceived == AppliedSize(ly.answered)
    && (!ly.byUser && Applied(ly.answered) != [] ==>
          y.clip == Applied(ly.answered)[|Applied(ly.answered)| - 1].content)
  }

  ghost predicate Dir(h: HashFn, x: Peer, lx: Log, y: Peer, ly: Log, xy: seq<Frame>) {
    && Announcing(h, x, lx.announced)
    && InFlight(h, lx.announced, lx.carried, ly.taken, ly.notice, xy)
    && Receiving(lx.announced, y, ly)
  }

  ghost predicate BothDirs(h: HashFn, r: Traced) {
    Dir(h, r.sys.a, r.la, r.sys.b, r.lb, r.sys.ab) && Dir(h, r.sys.b, r.lb, r.sys.a, r.la, r.sys.ba)
  }

  ghost predicate Good(h: HashFn, r: Traced) {
    && Inv(r.sys)
    && Own(h, r.sys.a, r.la) && Own(h, r.sys.b, r.lb)
    && BothDirs(h, r)
  }

  // ---------- the announcer's end of the channel ----------

  lemma NoticesOfAppend(h: HashFn, contents: seq<Content>, c: Content)
    ensures NoticesOf(h, contents + [c]) == NoticesOf(h, contents) + [Notice(c, c.Hash(h))]
  {
  }

  lemma NoticePushed(h: HashFn, announced: seq<Content>, carried: int, taken: nat, notice: nat, ch: seq<Frame>, c: Content)
    requires InFlight(h, announced, carried, taken, notice, ch)
    ensures InFlight(h, announced + [c], carried, taken, notice, ch + [Notice(c, c.Hash(h))])
  {
    hide Wire, Unwire, NoticesOf, Notices, Behind, Count;
    ChannelAppend(ch, Notice(c, c.Hash(h)));
    assert (announced + [c])[taken..] == announced[taken..] + [c];
    NoticesOfAppend(h, announced[taken..], c);
  }

  lemma OtherPushed(h: HashFn, announced: seq<Content>, carried: int, taken: nat, notice: nat, ch: seq<Frame>, f: Frame)
    requires InFlight(h, announced, carried, taken, notice, ch)
    requires !f.Changed? && !f.Data?
    ensures InFlight(h, announced, carried, taken, notice, ch + [f])
  {
    hide Wire, Unwire;
    ChannelAppend(ch, f);
  }

  lemma {:induction false} NoDataFrames(ch: seq<Frame>)
    requires Count(ch, KData) == 0
    ensures forall i :: 0 <= i < |ch| ==> !ch[i].Data?
  {
    hide Wire, Unwire;
    if ch != [] {
      NoDataFrames(ch[1..]);
      assert forall i :: 1 <= i < |ch| ==> ch[i] == ch[1..][i - 1];
    }
  }

  lemma DataPushed(h: HashFn, announced: seq<Content>, carried: int, taken: nat, notice: nat, ch: seq<Frame>)
    requires InFlight(h, announced, carried, taken, notice, ch)
    requires Count(ch, KData) == 0 && notice < |announced|
    ensures InFlight(h, announced, |announced| - 1, taken, notice,
                     ch + [Data(Wire(announced[|announced| - 1]))])
  {
    hide Wire, Unwire, NoticesOf, Notices, Behind, Count;
    var f := Data(Wire(announced[|announced| - 1]));
    ChannelAppend(ch, f);
    NoDataFrames(ch);
  }

  // ---------- the receiver's end of the channel ----------

  lemma NoticePopped(h: HashFn, announced: seq<Content>, carried: int, taken: nat, notice: nat, ch: seq<Frame>)
    requires InFlight(h, announced, carried, taken, notice, ch)
    requires ch != [] && ch[0].Changed?
    ensures taken < |announced| && ch[0].ctype == announced[taken].Type()
    ensures InFlight(h, announced, carried, taken + 1, notice, ch[1..])
  {
    hide Wire, Unwire;
    var sent := NoticesOf(h, announced[taken..]);
    assert Notices(ch) == [ch[0]] + Notices(ch[1..]);
    assert sent[0] == ch[0];
    assert Notices(ch[1..]) == sent[1..];
    assert sent[1..] == NoticesOf(h, announced[taken + 1..]);
  }

  /** Without content on its way it does not matter which notification is waited on. */
  lemma NewNotice(h: HashFn, announced: seq<Content>, carried: int, taken: nat, notice: nat, notice': nat, ch: seq<Frame>)
    requires InFlight(h, announced, carried, taken, notice, ch) && Count(ch, KData) == 0
    ensures InFlight(h, announced, carried, taken, notice', ch)
  {
  }

  lemma OtherPopped(h: HashFn, announced: seq<Content>, carried: int, taken: nat, notice: nat, ch: seq<Frame>)
    requires InFlight(h, announced, carried, taken, notice, ch)
    requires ch != [] && !ch[0].Changed? && Count(ch, KData) <= 1
    ensures InFlight(h, announced, carried, taken, notice, ch[1..])
    ensures ch[0].Data? ==>
              && notice <= carried < |announced| && carried + 1 == taken
              && ch[0].payload == Wire(announced[carried])
  {
    hide Wire, Unwire;
    assert Notices(ch) == Notices(ch[1..]);
    assert |Notices(ch)| == |announced| - taken;
  }

  lemma {:induction false} AppliedAppend(answered: seq<Delivery>, d: Delivery)
    ensures Applied(answered + [d]) == Applied(answered) + if d.content.Some? then [d] else []
    ensures AppliedSize(answered + [d]) ==
            AppliedSize(answered) + if d.content.Some? then d.content.value.Size() else 0
  {
    hide Wire, Unwire;
    assert (answered + [d])[..|answered|] == answered;
  }

  lemma Delivered(h: HashFn, announced: seq<Content>, y: Peer, ly: Log, carried: int, content: Option<Content>)
    requires Receiving(announced, y, ly) && Waits(y)
    requires ly.notice <= carried < |announced| && carried + 1 == ly.taken
    requires content == Unwire(y.mode.ctype, Wire(announced[carried]))
    ensures Receiving(announced, ReceivedPeer(h, y, content).0,
                      ly.(answered := ly.answered + [Delivery(ly.notice, carried, content)],
                          byUser := if content.Some? then false else ly.byUser))
  {
    hide Wire, Unwire;
    var d := Delivery(ly.notice, carried, content);
    var answered' := ly.answered + [d];
    AppliedAppend(ly.answered, d);
    assert Chain(announced, answered') by {
      assert answered'[..|ly.answered|] == ly.answered;
      assert Faithful(announced, d);
    }
    assert Covered(answered') == ly.taken;
  }

  lemma {:induction false} ChainExtends(announced: seq<Content>, c: Content, answered: seq<Delivery>)
    requires Chain(announced, answered)
    ensures Chain(announced + [c], answered)
  {
    hide Wire, Unwire;
    if answered != [] {
      ChainExtends(announced, c, answered[..|answered| - 1]);
    }
  }

  // ---------- preservation by whole steps ----------

  /** Receiving depends on a few fields only. */
  lemma ReceivingKept(announced: seq<Content>, y: Peer, l: Log, y': Peer, l': Log)
    requires Receiving(announced, y, l)
    requires y'.mode == y.mode && y'.itemsReceived == y.itemsReceived && y'.bytesReceived == y.bytesReceived
    requires l'.taken == l.taken && l'.notice == l.notice && l'.answered == l.answered
    requires l'.byUser || (l'.byUser == l.byUser && y'.clip == y.clip)
    ensures Receiving(announced, y', l')
  {
    hide Chain, Applied, AppliedSize;
  }

  lemma AnnouncingMore(h: HashFn, x: Peer, announced: seq<Content>, change: Change, x': Peer)
    requires Announcing(h, x, announced) && change.hash == change.content.Hash(h)
    requires x'.itemsSent == x.itemsSent + 1 && x'.bytesSent == x.bytesSent + change.content.Size()
    requires x'.cache == Some(change)
    ensures Announcing(h, x', announced + [change.content])
  {
    assert (announced + [change.content])[..|announced|] == announced;
  }

  lemma HeadIsHashed(h: HashFn, p: Peer)
    requires QueueHashed(h, p) && p.queue != []
    ensures p.queue[0].hash == p.queue[0].content.Hash(h)
  {
  }

  lemma OutboundKeepsDir(h: HashFn, r: Traced)
    requires r.sys.a.queue != [] && !r.sys.a.outBlocked && |r.la.queuedFrom| == |r.sys.a.queue| && QueueHashed(h, r.sys.a)
    requires Dir(h, r.sys.a, r.la, r.sys.b, r.lb, r.sys.ab)
    ensures var r' := TraceMoveA(h, r, Outbound);
            Dir(h, r'.sys.a, r'.la, r'.sys.b, r'.lb, r'.sys.ab)
  {
    hide Announcing, InFlight, Receiving, QueueHashed, Notice;
    var s, announced, change := r.sys, r.la.announced, r.sys.a.queue[0];
    HeadIsHashed(h, s.a);
    var (p, out) := OutboundPeer(s.a);
    if out == [] {
      assert s.ab + [] == s.ab;
      assert Announcing(h, p, announced) by { AnnouncingKept(h, s.a, announced, p); }
    } else {
      NoticePushed(h, announced, r.la.carried, r.lb.taken, r.lb.notice, s.ab, change.content);
      ReceivingMore(announced, change.content, s.b, r.lb);
      AnnouncingMore(h, s.a, announced, change, p);
    }
  }

  lemma AnnouncingKept(h: HashFn, x: Peer, announced: seq<Content>, x': Peer)
    requires Announcing(h, x, announced)
    requires x'.itemsSent == x.itemsSent && x'.bytesSent == x.bytesSent && x'.cache == x.cache
    ensures Announcing(h, x', announced)
  {
  }

  lemma ReceivingMore(announced: seq<Content>, c: Content, y: Peer, ly: Log)
    requires Receiving(announced, y, ly)
    ensures Receiving(announced + [c], y, ly)
  {
    hide Applied, AppliedSize, Chain, Covered;
    ChainExtends(announced, c, ly.answered);
  }

  /** Peer a, as the receiver, handles the frame at the head of ba. */
  lemma InboundKeepsReceived(h: HashFn, r: Traced)
    requires Inv(r.sys) && r.sys.ba != [] && Reads(r.sys.a)
    requires Dir(h, r.sys.b, r.lb, r.sys.a, r.la, r.sys.ba)
    ensures var r' := TraceMoveA(h, r, Inbound);
            Dir(h, r'.sys.b, r'.lb, r'.sys.a, r'.la, r'.sys.ba)
  {
    hide Wire, Unwire, ReceivedPeer, Answer, Announcing, InFlight, Chain, Applied, AppliedSize, Covered;
    var announced, carried, ch := r.lb.announced, r.lb.carried, r.sys.ba;
    assert Conforming(ch[0]);
    if ch[0].Changed? {
      NoticePopped(h, announced, carried, r.la.taken, r.la.notice, ch);
      if r.sys.a.mode.Idle? {
        assert Count(ch[1..], KData) == 0;
        NewNotice(h, announced, carried, r.la.taken + 1, r.la.notice, r.la.taken, ch[1..]);
      }
    } else {
      OtherPopped(h, announced, carried, r.la.taken, r.la.notice, ch);
      if ch[0].Data? {
        Delivered(h, announced, r.sys.a, r.la, carried, Unwire(r.sys.a.mode.ctype, ch[0].payload));
      }
    }
  }

  /** Peer a, as the announcer, handles the frame at the head of ba. */
  lemma InboundKeepsAnnounced(h: HashFn, r: Traced)
    requires Inv(r.sys) && r.sys.ba != [] && Reads(r.sys.a)
    requires Dir(h, r.sys.a, r.la, r.sys.b, r.lb, r.sys.ab)
    ensures var r' := TraceMoveA(h, r, Inbound);
            Dir(h, r'.sys.a, r'.la, r'.sys.b, r'.lb, r'.sys.ab)
  {
    hide Wire, Unwire, Chain, Applied, AppliedSize, Notices, NoticesOf, Behind, TotalSize, NoDataAfterRequest;
    var f, announced := r.sys.ba[0], r.la.announced;
    var (p, out) := InboundPeer(h, r.sys.a, f);
    assert Conforming(f);
    if out == [] {
      assert r.sys.ab + out == r.sys.ab;
    } else if f.Request? {
      DataPushed(h, announced, r.la.carried, r.lb.taken, r.lb.notice, r.sys.ab);
    } else {
      OtherPushed(h, announced, r.la.carried, r.lb.taken, r.lb.notice, r.sys.ab, out[0]);
    }
  }

  /** A copy or a poll touches neither channel, cache, counters nor deliveries. */
  lemma LocalKeepsDir(h: HashFn, r: Traced, m: Move)
    requires m.Copy? || m.Poll?
    requires Dir(h, r.sys.a, r.la, r.sys.b, r.lb, r.sys.ab) && Dir(h, r.sys.b, r.lb, r.sys.a, r.la, r.sys.ba)
    ensures var r' := TraceMoveA(h, r, m);
            && Dir(h, r'.sys.a, r'.la, r'.sys.b, r'.lb, r'.sys.ab)
            && Dir(h, r'.sys.b, r'.lb, r'.sys.a, r'.la, r'.sys.ba)
  {
    hide InFlight, Receiving;
    var r' := TraceMoveA(h, r, m);
    assert Announcing(h, r'.sys.a, r'.la.announced);
    ReceivingKept(r.lb.announced, r.sys.a, r.la, r'.sys.a, r'.la);
  }

  lemma OutboundKeepsBoth(h: HashFn, r: Traced)
    requires |r.la.queuedFrom| == |r.sys.a.queue| && QueueHashed(h, r.sys.a) && BothDirs(h, r)
    ensures BothDirs(h, TraceMoveA(h, r, Outbound))
  {
    hide InFlight, Announcing, Receiving;
    if r.sys.a.queue != [] && !r.sys.a.outBlocked {
      OutboundKeepsDir(h, r);
      var r' := TraceMoveA(h, r, Outbound);
      ReceivingKept(r.lb.announced, r.sys.a, r.la, r'.sys.a, r'.la);
    }
  }

  lemma InboundKeepsBoth(h: HashFn, r: Traced)
    requires Inv(r.sys) && BothDirs(h, r)
    ensures BothDirs(h, TraceMoveA(h, r, Inbound))
  {
    if r.sys.ba != [] && Reads(r.sys.a) {
      hide MoveA, LogMoveA, Dir;
      InboundKeepsReceived(h, r);
      InboundKeepsAnnounced(h, r);
    }
  }

  lemma MoveKeepsBoth(h: HashFn, r: Traced, m: Move)
    requires Inv(r.sys) && BothDirs(h, r)
    requires |r.la.queuedFrom| == |r.sys.a.queue| && QueueHashed(h, r.sys.a)
    ensures BothDirs(h, TraceMoveA(h, r, m))
  {
    hide Inv, MoveA, LogMoveA, Dir;
    match m
    case Copy(c) => LocalKeepsDir(h, r, m);
    case Poll => LocalKeepsDir(h, r, m);
    case Outbound => OutboundKeepsBoth(h, r);
    case Inbound => InboundKeepsBoth(h, r);
  }

  lemma {:induction false} RunKeepsGood(h: HashFn, clipA: Option<Content>, clipB: Option<Content>, sched: seq<Turn>)
    ensures Good(h, Trace(h, TraceStart(h, clipA, clipB), sched))
    decreases |sched|
  {
    hide Half, MoveA, LogMoveA, Dir, DrawnFrom, Undetected, ClipHash;
    RunKeepsInv(h, clipA, clipB, sched);
    TraceIsExec(h, TraceStart(h, clipA, clipB), sched);
    RunKeepsOwn(h, clipA, clipB, sched);
    if sched == [] {
      assert BothDirs(h, TraceStart(h, clipA, clipB)) by { StartKeepsBoth(h, clipA, clipB); }
    } else {
      var n := |sched| - 1;
      RunKeepsGood(h, clipA, clipB, sched[..n]);
      var r := Trace(h, TraceStart(h, clipA, clipB), sched[..n]);
      MoveKeepsBoth(h, if sched[n].side == A then r else SwapTraced(r), sched[n].move);
    }
  }

  lemma StartKeepsBoth(h: HashFn, clipA: Option<Content>, clipB: Option<Content>)
    ensures BothDirs(h, TraceStart(h, clipA, clipB))
  {
    hide Wire, Unwire, ClipHash;
  }

  // ---------- deliveries over whole runs ----------

  lemma {:induction false} TotalSizeMonotone(s: seq<Content>, i: nat, j: nat)
    requires i <= j <= |s|
    ensures TotalSize(s[..i]) <= TotalSize(s[..j])
    ensures j < |s| ==> TotalSize(s[..j + 1]) == TotalSize(s[..j]) + s[j].Size()
    decreases j
  {
    hide Wire, Unwire;
    if j < |s| {
      assert s[..j + 1][..j] == s[..j];
    }
    if i < j {
      assert s[..j][..j - 1] == s[..j - 1];
      TotalSizeMonotone(s, i, j - 1);
    }
  }

  lemma DeliveredSize(announced: seq<Content>, d: Delivery)
    requires Faithful(announced, d) && d.content.Some?
    ensures d.content.value.Size() == announced[d.version].Size()
  {
    hide Wire, Unwire;
    UnwireWire(announced[d.notice].Type(), announced[d.version]);
  }

  lemma {:induction false} DeliveredWithinAnnounced(announced: seq<Content>, answered: seq<Delivery>)
    requires Chain(announced, answered)
    ensures 0 <= Covered(answered) <= |announced|
    ensures |Applied(answered)| <= |answered|
    ensures AppliedSize(answered) <= TotalSize(announced[..Covered(answered)])
  {
    hide Wire, Unwire, TotalSize, Faithful;
    if answered == [] {
      assert announced[..0] == [];
    } else {
      var n := |answered| - 1;
      var before, d := answered[..n], answered[n];
      DeliveredWithinAnnounced(announced, before);
      assert d.notice <= d.version < |announced| by { FaithfulBounds(announced, d); }
      if d.content.Some? {
        DeliveredSize(announced, d);
      }
      TotalSizeMonotone(announced, Covered(before), d.version);
    }
  }

  lemma FaithfulBounds(announced: seq<Content>, d: Delivery)
    requires Faithful(announced, d)
    ensures d.notice <= d.version < |announced|
  {
  }

  lemma {:induction false} DeliveriesCounted(announced: seq<Content>, answered: seq<Delivery>)
    requires Chain(announced, answered)
    ensures |answered| <= Covered(answered)
  {
    hide Wire, Unwire;
    if answered != [] {
      DeliveriesCounted(announced, answered[..|answered| - 1]);
    }
  }

  lemma {:induction false} ChainFaithful(announced: seq<Content>, answered: seq<Delivery>, i: nat)
    requires Chain(announced, answered) && i < |answered|
    ensures Faithful(announced, answered[i]) && answered[i].version < Covered(answered)
    decreases |answered|
  {
    hide Wire, Unwire;
    var n := |answered| - 1;
    if i < n {
      ChainFaithful(announced, answered[..n], i);
      assert answered[..n][i] == answered[i];
    }
  }

  lemma {:induction false} ChainIncreases(announced: seq<Content>, answered: seq<Delivery>, i: nat, j: nat)
    requires Chain(announced, answered) && i < j < |answered|
    ensures answered[i].version < answered[j].version
    decreases |answered|
  {
    hide Wire, Unwire;
    var n := |answered| - 1;
    assert answered[..n][i] == answered[i];
    if j < n {
      ChainIncreases(announced, answered[..n], i, j);
    } else {
      ChainFaithful(announced, answered[..n], i);
    }
  }

  /** Everything promised about one direction: x announces, y receives. */
  ghost predicate DeliveredInOrder(h: HashFn, x: Peer, lx: Log, y: Peer, ly: Log, xy: seq<Frame>) {
    // the notifications on their way are exactly those announced and not yet read, in order
    && 0 <= ly.taken <= |lx.announced|
    && Notices(xy) == NoticesOf(h, lx.announced[ly.taken..])
    // every delivery is at least as new as the notification it answers, and newer than the last
    && (forall i :: 0 <= i < |ly.answered| ==> Faithful(lx.announced, ly.answered[i]))
    && (forall i, j :: 0 <= i < j < |ly.answered| ==> ly.answered[i].version < ly.answered[j].version)
    // the statistics count what was applied and what was announced
    && x.itemsSent == |lx.announced| && x.bytesSent == TotalSize(lx.announced)
    && y.itemsReceived == |Applied(ly.answered)| <= x.itemsSent
    && y.bytesReceived == AppliedSize(ly.answered) <= x.bytesSent
  }

  lemma DirDelivers(h: HashFn, x: Peer, lx: Log, y: Peer, ly: Log, xy: seq<Frame>)
    requires Dir(h, x, lx, y, ly, xy)
    ensures DeliveredInOrder(h, x, lx, y, ly, xy)
  {
    hide Wire, Unwire;
    DeliveredWithinAnnounced(lx.announced, ly.answered);
    DeliveriesCounted(lx.announced, ly.answered);
    forall i | 0 <= i < |ly.answered| ensures Faithful(lx.announced, ly.answered[i]) {
      ChainFaithful(lx.announced, ly.answered, i);
    }
    forall i, j | 0 <= i < j < |ly.answered| ensures ly.answered[i].version < ly.answered[j].version {
      ChainIncreases(lx.announced, ly.answered, i, j);
    }
    TotalSizeMonotone(lx.announced, Covered(ly.answered), |lx.announced|);
    assert lx.announced[..|lx.announced|] == lx.announced;
  }

  lemma OrderedDelivery(h: HashFn, clipA: Option<Content>, clipB: Option<Content>, sched: seq<Turn>)
    ensures var r := Trace(h, TraceStart(h, clipA, clipB), sched);
            && DeliveredInOrder(h, r.sys.a, r.la, r.sys.b, r.lb, r.sys.ab)
            && DeliveredInOrder(h, r.sys.b, r.lb, r.sys.a, r.la, r.sys.ba)
  {
    hide Wire, Unwire;
    RunKeepsGood(h, clipA, clipB, sched);
    var r := Trace(h, TraceStart(h, clipA, clipB), sched);
    DirDelivers(h, r.sys.a, r.la, r.sys.b, r.lb, r.sys.ab);
    DirDelivers(h, r.sys.b, r.lb, r.sys.a, r.la, r.sys.ba);
  }
}
