/**
 Requests and answers of the live sync: how many are on their way, when a waiting peer can
 still be served, and the one state in which it cannot. No history is needed for these.
 */
module SyncProgress {
  import opened Wrappers
  import opened Clipboard
  import opened SyncProtocol

  predicate Waits(p: Peer) {
    p.mode.Waiting?
  }

  /** Frames that serve the requester whose requests travel on `asks` and answers on `answers`. */
  function InService(asks: seq<Frame>, answers: seq<Frame>): nat {
    Count(asks, KRequest) + Count(answers, KData)
  }

  predicate Conforming(f: Frame) {
    f.Changed? || f.Request? || f.Data? || f == Ack(true)
  }

  predicate NoDataAfterRequest(ch: seq<Frame>) {
    ch == [] || ((ch[0].Request? ==> Count(ch[1..], KData) == 0) && NoDataAfterRequest(ch[1..]))
  }

  /** Crossed announcements: both peers are in the inner wait and no content is on its way. */
  predicate Crossed(s: System) {
    Waits(s.a) && Waits(s.b) && Count(s.ab, KData) == 0 && Count(s.ba, KData) == 0
  }

  /** One direction: x announces on xy, y asks on yx. */
  ghost predicate Half(x: Peer, y: Peer, xy: seq<Frame>, yx: seq<Frame>) {
    && !x.mode.Stopped?
    && (forall f <- xy :: Conforming(f))
    && NoDataAfterRequest(xy)
    && InService(yx, xy) <= (if Waits(y) then 1 else 0)
    && (Waits(y) && InService(yx, xy) == 0 ==> Waits(x) && Count(yx, KData) == 0)
    && (Count(xy, KChanged) > 0 || Waits(y) ==> x.cache.Some?)
  }

  ghost predicate Inv(s: System) {
    Half(s.a, s.b, s.ab, s.ba) && Half(s.b, s.a, s.ba, s.ab)
  }

  lemma {:induction false} NoDataAfterRequestAppend(ch: seq<Frame>, f: Frame)
    requires NoDataAfterRequest(ch)
    requires f.Data? ==> Count(ch, KRequest) == 0
    ensures NoDataAfterRequest(ch + [f])
  {
    hide Wire, Unwire;
    if ch == [] {
      assert ([f])[1..] == [];
    } else {
      NoDataAfterRequestAppend(ch[1..], f);
      CountAppend(ch[1..], f, KData);
      assert (ch + [f])[1..] == ch[1..] + [f];
    }
  }

  lemma AppendFacts(ch: seq<Frame>, f: Frame)
    requires NoDataAfterRequest(ch)
    requires f.Data? ==> Count(ch, KRequest) == 0
    ensures NoDataAfterRequest(ch + [f])
    ensures forall k :: Count(ch + [f], k) == Count(ch, k) + One(f, k)
  {
    hide Wire, Unwire;
    NoDataAfterRequestAppend(ch, f);
    forall k ensures Count(ch + [f], k) == Count(ch, k) + One(f, k) { CountAppend(ch, f, k); }
  }

  lemma OutboundKeepsInv(h: HashFn, s: System)
    requires Inv(s)
    ensures Inv(MoveA(h, s, Outbound))
  {
    hide Wire, Unwire;
    if s.a.queue != [] && !s.a.outBlocked {
      var (p, out) := OutboundPeer(s.a);
      if out == [] {
        assert s.ab + out == s.ab;
      } else {
        AppendFacts(s.ab, out[0]);
      }
    }
  }

  lemma InboundKeepsInv(h: HashFn, s: System)
    requires Inv(s)
    ensures Inv(MoveA(h, s, Inbound))
  {
    hide Wire, Unwire;
    if s.ba != [] && Reads(s.a) {
      if s.a.mode.Idle? { IdleKeepsInv(h, s); } else { WaitingKeepsInv(h, s); }
    }
  }

  lemma NoticeKeepsInv(s: System, t: ContentType)
    requires Inv(s) && s.ba != [] && s.ba[0].Changed? && s.a.mode.Idle?
    ensures Inv(System(s.a.(mode := Waiting(t)), s.b, s.ab + [Request], s.ba[1..]))
  {
    assert forall k :: Count(s.ba, k) == One(s.ba[0], k) + Count(s.ba[1..], k);
    AppendFacts(s.ab, Request);
  }

  lemma RequestKeepsInv(s: System, payload: seq<byte>)
    requires Inv(s) && s.ba != [] && s.ba[0].Request? && s.a.mode.Idle?
    ensures Inv(System(s.a, s.b, s.ab + [Data(payload)], s.ba[1..]))
  {
    assert forall k :: Count(s.ba, k) == One(s.ba[0], k) + Count(s.ba[1..], k);
    AppendFacts(s.ab, Data(payload));
  }

  lemma AckKeepsInv(s: System)
    requires Inv(s) && s.ba != [] && s.ba[0].Ack? && s.a.mode.Idle?
    ensures Inv(System(s.a, s.b, s.ab, s.ba[1..]))
  {
    assert forall k :: Count(s.ba, k) == One(s.ba[0], k) + Count(s.ba[1..], k);
  }

  lemma IdleTakes(s: System)
    requires Inv(s) && s.ba != [] && s.a.mode.Idle?
    ensures s.ba[0].Changed? || (s.ba[0].Request? && s.a.cache.Some?) || s.ba[0] == Ack(true)
  {
    assert Conforming(s.ba[0]);
    assert s.ba[0].Data? ==> Count(s.ba, KData) > 0;
  }

  lemma IdleKeepsInv(h: HashFn, s: System)
    requires Inv(s) && s.ba != [] && s.a.mode.Idle?
    ensures Inv(MoveA(h, s, Inbound))
  {
    hide Wire, Unwire, Inv, ReceivedPeer;
    IdleTakes(s);
    assert s.ab + [] == s.ab;
    match s.ba[0]
    case Changed(t, _, _) => NoticeKeepsInv(s, t);
    case Request =>
      RequestKeepsInv(s, Wire(s.a.cache.value.content));
    case _ =>
      AckKeepsInv(s);
  }

  /** The inner wait ends with its content, acknowledged or not. */
  lemma TakingDataKeepsInv(s: System, p: Peer, out: seq<Frame>)
    requires Inv(s) && s.ba != [] && s.ba[0].Data? && Waits(s.a)
    requires p.cache == s.a.cache && (p.mode.Idle? || p.mode.Unacknowledged?)
    requires out == [] || out == [Ack(true)]
    ensures Inv(System(p, s.b, s.ab + out, s.ba[1..]))
  {
    hide Wire, Unwire;
    assert forall k :: Count(s.ba, k) == One(s.ba[0], k) + Count(s.ba[1..], k);
    if out == [] {
      assert s.ab + out == s.ab;
    } else {
      AppendFacts(s.ab, Ack(true));
    }
  }

  lemma WaitingKeepsInv(h: HashFn, s: System)
    requires Inv(s) && s.ba != [] && Waits(s.a)
    ensures Inv(MoveA(h, s, Inbound))
  {
    hide Wire, Unwire;
    var f := s.ba[0];
    assert Conforming(f);
    var (p, out) := InboundPeer(h, s.a, f);
    if f.Data? {
      hide Inv;
      TakingDataKeepsInv(s, p, out);
    } else {
      assert forall k :: Count(s.ba, k) == One(f, k) + Count(s.ba[1..], k);
      assert s.ab + [] == s.ab;
    }
  }

  lemma MoveKeepsInv(h: HashFn, s: System, m: Move)
    requires Inv(s)
    ensures Inv(MoveA(h, s, m))
  {
    hide Wire, Unwire;
    match m
    case Outbound => OutboundKeepsInv(h, s);
    case Inbound => InboundKeepsInv(h, s);
    case _ => var p := MoveA(h, s, m).a; assert p.mode == s.a.mode && p.cache == s.a.cache;
  }

  lemma StepKeepsInv(h: HashFn, s: System, t: Turn)
    requires Inv(s)
    ensures Inv(Next(h, s, t))
  {
    hide MoveA;
    if t.side == A {
      MoveKeepsInv(h, s, t.move);
    } else {
      MoveKeepsInv(h, Swap(s), t.move);
    }
  }

  lemma {:induction false} RunKeepsInv(h: HashFn, clipA: Option<Content>, clipB: Option<Content>, sched: seq<Turn>)
    ensures Inv(Exec(h, Start(h, clipA, clipB), sched))
    decreases |sched|
  {
    hide MoveA, ClipHash, Undetected;
    if sched == [] {
      assert Exec(h, Start(h, clipA, clipB), sched) == Start(h, clipA, clipB);
    } else {
      var n := |sched| - 1;
      RunKeepsInv(h, clipA, clipB, sched[..n]);
      StepKeepsInv(h, Exec(h, Start(h, clipA, clipB), sched[..n]), sched[n]);
    }
  }

  // ---------- requests and answers over whole runs ----------

  /** Request/response conservation, for the peer y that asks on yx and is answered on xy. */
  ghost predicate Conserved(x: Peer, y: Peer, xy: seq<Frame>, yx: seq<Frame>) {
    // at most one request or answer is on its way, and only for a peer that waits for it
    && InService(yx, xy) <= 1
    && (InService(yx, xy) > 0 ==> Waits(y))
    // every notification or request on its way finds the announcer's cache filled
    && (Count(xy, KChanged) + Count(yx, KRequest) > 0 ==> x.cache.Some?)
    // so a request is never answered by "no content", and content never reaches an idle peer
    && (yx != [] && yx[0].Request? ==> Answer(x).Data?)
    && (xy != [] && xy[0].Data? ==> Waits(y))
    && Ack(false) !in xy
  }

  lemma Conservation(h: HashFn, clipA: Option<Content>, clipB: Option<Content>, sched: seq<Turn>)
    ensures var s := Exec(h, Start(h, clipA, clipB), sched);
            Conserved(s.a, s.b, s.ab, s.ba) && Conserved(s.b, s.a, s.ba, s.ab)
  {
    hide Wire, Unwire;
    RunKeepsInv(h, clipA, clipB, sched);
  }

  /** A waiting peer has its request or its answer on the way, except in the crossed state. */
  lemma WaitingIsServedOrCrossed(h: HashFn, clipA: Option<Content>, clipB: Option<Content>, sched: seq<Turn>)
    ensures var s := Exec(h, Start(h, clipA, clipB), sched);
            && (Waits(s.a) ==> InService(s.ab, s.ba) == 1 || Crossed(s))
            && (Waits(s.b) ==> InService(s.ba, s.ab) == 1 || Crossed(s))
  {
    hide Wire, Unwire;
    RunKeepsInv(h, clipA, clipB, sched);
  }

  lemma OutboundKeepsCrossed(h: HashFn, s: System)
    requires Crossed(s)
    ensures Crossed(MoveA(h, s, Outbound))
  {
    hide Wire, Unwire, Notice;
    if s.a.queue != [] && !s.a.outBlocked {
      var (p, out) := OutboundPeer(s.a);
      if out == [] {
        assert s.ab + out == s.ab;
      } else {
        CountAppend(s.ab, out[0], KData);
        assert out[0].Changed? by { NoticeIsChanged(s.a.queue[0].content, s.a.queue[0].hash); }
      }
    }
  }

  lemma NoticeIsChanged(c: Content, hash: u64)
    ensures Notice(c, hash).Changed?
  {
  }

  lemma InboundKeepsCrossed(h: HashFn, s: System)
    requires Crossed(s) && forall f <- s.ba :: Conforming(f)
    ensures Crossed(MoveA(h, s, Inbound))
  {
    hide Wire, Unwire, ReceivedPeer, Answer;
    if s.ba != [] {
      var f := s.ba[0];
      assert Conforming(f) && !f.Data?;
      assert InboundPeer(h, s.a, f) == (s.a, []);
      assert s.ab + [] == s.ab;
    }
  }

  /** No turn of either peer leaves the crossed state; only a cancel frame, which neither sends, could. */
  lemma CrossedStep(h: HashFn, s: System, t: Turn)
    requires Inv(s) && Crossed(s)
    ensures Crossed(Next(h, s, t))
  {
    var s' := if t.side == A then s else Swap(s);
    assert Crossed(s') && forall f <- s'.ba :: Conforming(f);
    match t.move
    case Outbound => OutboundKeepsCrossed(h, s');
    case Inbound => InboundKeepsCrossed(h, s');
    case _ =>
  }

  lemma {:induction false} CrossedForever(h: HashFn, s: System, sched: seq<Turn>)
    requires Inv(s) && Crossed(s)
    ensures Inv(Exec(h, s, sched)) && Crossed(Exec(h, s, sched))
    decreases |sched|
  {
    hide Wire, Unwire;
    if sched != [] {
      var n := |sched| - 1;
      CrossedForever(h, s, sched[..n]);
      StepKeepsInv(h, Exec(h, s, sched[..n]), sched[n]);
      CrossedStep(h, Exec(h, s, sched[..n]), sched[n]);
    }
  }

  /** Peer a is about to take a notification at its outer read while b's request is still on its way. */
  predicate TakesNoticeBeforeRequest(s: System) {
    s.a.mode.Idle? && s.ba != [] && s.ba[0].Changed? && Count(s.ba, KRequest) == 1
  }

  lemma CrossingStepA(h: HashFn, s: System, m: Move)
    requires Inv(s) && !Crossed(s)
    ensures Crossed(MoveA(h, s, m)) <==> m.Inbound? && TakesNoticeBeforeRequest(s)
  {
    hide Wire, Unwire;
    if m.Outbound? && s.a.queue != [] && !s.a.outBlocked {
      var (p, out) := OutboundPeer(s.a);
      if out == [] {
        assert s.ab + out == s.ab;
      } else {
        CountAppend(s.ab, out[0], KData);
      }
    } else if m.Inbound? && s.ba != [] && Reads(s.a) {
      var f := s.ba[0];
      assert Conforming(f);
      var (p, out) := InboundPeer(h, s.a, f);
      if out == [] {
        assert s.ab + out == s.ab;
      } else {
        CountAppend(s.ab, out[0], KData);
      }
    }
  }

  /** The one way into the crossed state, as a test on the state before the step. */
  lemma CrossingStep(h: HashFn, s: System, t: Turn)
    requires Inv(s) && !Crossed(s)
    ensures Crossed(Next(h, s, t)) <==>
              t.move.Inbound? && TakesNoticeBeforeRequest(if t.side == A then s else Swap(s))
  {
    hide Wire, Unwire;
    CrossingStepA(h, if t.side == A then s else Swap(s), t.move);
  }

  // ---------- termination once the users stop copying ----------

  function Weight(f: Frame): nat {
    match f
    case Changed(_, _, _) => 4
    case Request => 3
    case Data(_) => 2
    case Ping => 2
    case _ => 1
  }

  function Work(ch: seq<Frame>): nat {
    if ch == [] then 0 else Weight(ch[0]) + Work(ch[1..])
  }

  function PeerWork(h: HashFn, p: Peer): nat {
    5 * |p.queue| + if Undetected(h, p) then 6 else 0
  }

  /** Everything still to be done: undetected and queued changes, and frames on their way. */
  function Measure(h: HashFn, s: System): nat {
    PeerWork(h, s.a) + PeerWork(h, s.b) + Work(s.ab) + Work(s.ba)
  }

  lemma {:induction false} WorkAppend(ch: seq<Frame>, f: Frame)
    ensures Work(ch + [f]) == Work(ch) + Weight(f)
  {
    hide Wire, Unwire;
    if ch == [] {
      assert ([f])[1..] == [];
    } else {
      WorkAppend(ch[1..], f);
      assert (ch + [f])[1..] == ch[1..] + [f];
    }
  }

  lemma OutboundDecreases(h: HashFn, s: System)
    requires s.a.queue != [] && !s.a.outBlocked
    ensures Measure(h, MoveA(h, s, Outbound)) < Measure(h, s)
  {
    hide Wire, Unwire;
    var (p, out) := OutboundPeer(s.a);
    if out == [] {
      assert s.ab + out == s.ab;
    } else {
      WorkAppend(s.ab, out[0]);
    }
  }

  lemma InboundDecreases(h: HashFn, s: System)
    requires s.ba != [] && Reads(s.a)
    ensures Measure(h, MoveA(h, s, Inbound)) < Measure(h, s)
  {
    hide Wire, Unwire;
    var (p, out) := InboundPeer(h, s.a, s.ba[0]);
    assert PeerWork(h, p) <= PeerWork(h, s.a);
    if out == [] {
      assert s.ab + out == s.ab;
    } else {
      assert Weight(out[0]) < Weight(s.ba[0]);
      WorkAppend(s.ab, out[0]);
    }
  }

  lemma StepDecreases(h: HashFn, s: System, t: Turn)
    requires !t.move.Copy? && Next(h, s, t) != s
    ensures Measure(h, Next(h, s, t)) < Measure(h, s)
  {
    hide Wire, Unwire;
    var s' := if t.side == A then s else Swap(s);
    if t.move.Outbound? {
      OutboundDecreases(h, s');
    } else if t.move.Inbound? {
      InboundDecreases(h, s');
    }
  }

  predicate CopyFree(sched: seq<Turn>) {
    forall t <- sched :: !t.move.Copy?
  }

  /** The number of turns of a schedule that change the state. */
  function Busy(h: HashFn, s: System, sched: seq<Turn>): nat
    decreases |sched|
  {
    if sched == [] then 0
    else
      var n := |sched| - 1;
      Busy(h, s, sched[..n]) + if Exec(h, s, sched) != Exec(h, s, sched[..n]) then 1 else 0
  }

  /** However the turns are scheduled, only finitely many of them do anything. */
  lemma {:induction false} FinitelyManyBusyTurns(h: HashFn, s: System, sched: seq<Turn>)
    requires CopyFree(sched)
    ensures Busy(h, s, sched) + Measure(h, Exec(h, s, sched)) <= Measure(h, s)
    decreases |sched|
  {
    hide Wire, Unwire;
    if sched != [] {
      var n := |sched| - 1;
      FinitelyManyBusyTurns(h, s, sched[..n]);
      if Exec(h, s, sched) != Exec(h, s, sched[..n]) {
        StepDecreases(h, Exec(h, s, sched[..n]), sched[n]);
      }
    }
  }

  ghost predicate AtRest(h: HashFn, s: System) {
    forall t: Turn :: !t.move.Copy? ==> Next(h, s, t) == s
  }

  /** A peer has nothing to do: what it still has queued or unread, a task of its own keeps it from. */
  predicate Quiet(h: HashFn, p: Peer, incoming: seq<Frame>) {
    && (p.queue == [] || p.outBlocked)
    && (incoming == [] || !Reads(p))
    && (!Undetected(h, p) || |p.queue| > QUEUE_SLOTS)
  }

  lemma RestIsQuiet(h: HashFn, s: System)
    ensures AtRest(h, s) <==> Quiet(h, s.a, s.ba) && Quiet(h, s.b, s.ab)
  {
    hide Wire, Unwire;
    if !Quiet(h, s.a, s.ba) || !Quiet(h, s.b, s.ab) {
      var side := if !Quiet(h, s.a, s.ba) then A else B;
      var s' := if side == A then s else Swap(s);
      var m := if s'.a.queue != [] && !s'.a.outBlocked then Outbound
               else if s'.ba != [] && Reads(s'.a) then Inbound
               else Poll;
      assert |MoveA(h, s', m).a.queue| != |s'.a.queue| || |MoveA(h, s', m).ba| != |s'.ba|;
      assert Next(h, s, Turn(side, m)) != s;
    }
  }

  /** Nothing undetected, nothing queued and nothing on its way. */
  predicate Settled(h: HashFn, s: System) {
    && s.a.queue == [] && !Undetected(h, s.a) && s.ba == []
    && s.b.queue == [] && !Undetected(h, s.b) && s.ab == []
  }

  /** Once the users stop copying, some continuation reaches rest. */
  lemma {:induction false} RestIsReached(h: HashFn, s: System) returns (sched: seq<Turn>)
    ensures CopyFree(sched) && AtRest(h, Exec(h, s, sched))
    decreases Measure(h, s)
  {
    hide Wire, Unwire;
    if AtRest(h, s) {
      sched := [];
    } else {
      var t: Turn :| !t.move.Copy? && Next(h, s, t) != s;
      StepDecreases(h, s, t);
      var rest := RestIsReached(h, Next(h, s, t));
      sched := [t] + rest;
      ExecFrom(h, s, t, rest);
    }
  }

  lemma {:induction false} ExecFrom(h: HashFn, s: System, t: Turn, rest: seq<Turn>)
    ensures Exec(h, s, [t] + rest) == Exec(h, Next(h, s, t), rest)
    decreases |rest|
  {
    hide Wire, Unwire;
    var all := [t] + rest;
    if rest == [] {
      assert all[..0] == [] && Exec(h, s, all[..0]) == s;
    } else {
      var n := |rest| - 1;
      ExecFrom(h, s, t, rest[..n]);
      assert all[..|all| - 1] == [t] + rest[..n];
    }
  }

  // ---------- the event channel ----------

  function BlockedTasks(p: Peer): nat {
    (if p.outBlocked then 1 else 0) + if p.mode.Unacknowledged? then 1 else 0
  }

  function EventsMade(p: Peer): nat {
    p.itemsSent + p.itemsReceived
  }

  /** Every item sent or received made an event: it is in the channel, or its task waits with it. */
  predicate EventsCounted(p: Peer) {
    && p.events <= EVENT_SLOTS
    && EventsMade(p) == p.events + BlockedTasks(p)
    && (BlockedTasks(p) > 0 ==> p.events == EVENT_SLOTS)
    && (p.outBlocked ==> p.itemsSent > 0)
    && (p.mode.Unacknowledged? ==> p.itemsReceived > 0)
  }

  lemma MoveKeepsEvents(h: HashFn, s: System, m: Move)
    requires EventsCounted(s.a)
    ensures EventsCounted(MoveA(h, s, m).a) && MoveA(h, s, m).b == s.b
  {
    hide Wire, Unwire, Answer;
  }

  lemma StartEventsCounted(h: HashFn, clip: Option<Content>)
    ensures EventsCounted(StartPeer(h, clip))
  {
    hide ClipHash, Undetected;
  }

  lemma {:induction false} RunKeepsEvents(h: HashFn, clipA: Option<Content>, clipB: Option<Content>, sched: seq<Turn>)
    ensures var s := Exec(h, Start(h, clipA, clipB), sched); EventsCounted(s.a) && EventsCounted(s.b)
    decreases |sched|
  {
    hide MoveA, EventsCounted, Undetected, ClipHash;
    if sched == [] {
      StartEventsCounted(h, clipA);
      StartEventsCounted(h, clipB);
    } else {
      var n := |sched| - 1;
      RunKeepsEvents(h, clipA, clipB, sched[..n]);
      var s := Exec(h, Start(h, clipA, clipB), sched[..n]);
      MoveKeepsEvents(h, if sched[n].side == A then s else Swap(s), sched[n].move);
    }
  }

  /** In every reachable state a peer has a blocked task exactly when it has sent and received more
      than 32 items, one task for each item beyond: no session of a peer gets past 34. */
  lemma BlockedBeyondTheSlots(h: HashFn, clipA: Option<Content>, clipB: Option<Content>, sched: seq<Turn>)
    ensures var s := Exec(h, Start(h, clipA, clipB), sched);
            forall p <- [s.a, s.b] ::
              && (p.outBlocked || p.mode.Unacknowledged? <==> p.itemsSent + p.itemsReceived > 32)
              && (p.itemsSent + p.itemsReceived > 32 ==> p.itemsSent + p.itemsReceived == 32 + BlockedTasks(p))
              && p.itemsSent + p.itemsReceived <= 34
  {
    hide Exec;
    RunKeepsEvents(h, clipA, clipB, sched);
  }

  /** What a blocked task no longer does. */
  predicate StaysBlocked(p: Peer, p': Peer) {
    && (p.outBlocked ==> p'.outBlocked && p'.itemsSent == p.itemsSent && p'.cache == p.cache)
    && (p.mode.Unacknowledged? ==> p'.mode.Unacknowledged? && p'.itemsReceived == p.itemsReceived)
  }

  lemma MoveKeepsBlocked(h: HashFn, s: System, m: Move)
    ensures StaysBlocked(s.a, MoveA(h, s, m).a) && MoveA(h, s, m).b == s.b
  {
    hide Wire, Unwire, Answer;
  }

  /** No turn of either peer, whatever is on its way, ever unblocks a task. */
  lemma {:induction false} BlockedForever(h: HashFn, s: System, sched: seq<Turn>)
    ensures var s' := Exec(h, s, sched); StaysBlocked(s.a, s'.a) && StaysBlocked(s.b, s'.b)
    decreases |sched|
  {
    hide MoveA, StaysBlocked;
    if sched == [] {
      assert StaysBlocked(s.a, s.a) && StaysBlocked(s.b, s.b) by { BlockedNow(s.a); BlockedNow(s.b); }
    } else {
      var n := |sched| - 1;
      BlockedForever(h, s, sched[..n]);
      var s' := Exec(h, s, sched[..n]);
      MoveKeepsBlocked(h, if sched[n].side == A then s' else Swap(s'), sched[n].move);
      var s'' := Exec(h, s, sched);
      BlockedNow(if sched[n].side == A then s'.b else s'.a);
      StaysBlockedOn(s.a, s'.a, s''.a);
      StaysBlockedOn(s.b, s'.b, s''.b);
    }
  }

  lemma BlockedNow(p: Peer)
    ensures StaysBlocked(p, p)
  {
  }

  lemma StaysBlockedOn(p: Peer, p': Peer, p'': Peer)
    requires StaysBlocked(p, p') && StaysBlocked(p', p'')
    ensures StaysBlocked(p, p'')
  {
  }

  // ---------- completion ----------

  /** Nothing left to do and nobody waiting. */
  predicate Complete(h: HashFn, s: System) {
    Settled(h, s) && s.a.mode.Idle? && s.b.mode.Idle?
  }

  predicate WithinSlots(p: Peer) {
    EventsMade(p) <= EVENT_SLOTS
  }

  lemma QuietIsComplete(h: HashFn, s: System)
    requires Inv(s) && Quiet(h, s.a, s.ba) && Quiet(h, s.b, s.ab)
    ensures Complete(h, s) <==> && !Crossed(s) && s.a.queue == [] && s.b.queue == []
                                && !s.a.mode.Unacknowledged? && !s.b.mode.Unacknowledged?
  {
    hide Undetected;
  }

  /** At rest every exchange is complete exactly when the announcements have not crossed, no inbound
      task is blocked before an acknowledgement, and no outbound task is blocked with changes queued. */
  lemma ExchangesComplete(h: HashFn, clipA: Option<Content>, clipB: Option<Content>, sched: seq<Turn>)
    ensures var s := Exec(h, Start(h, clipA, clipB), sched);
            AtRest(h, s) ==>
              && (Complete(h, s) <==> && !Crossed(s) && s.a.queue == [] && s.b.queue == []
                                      && !s.a.mode.Unacknowledged? && !s.b.mode.Unacknowledged?)
              && (s.a.queue != [] ==> s.a.outBlocked) && (s.b.queue != [] ==> s.b.outBlocked)
              && (WithinSlots(s.a) && WithinSlots(s.b) ==> Settled(h, s) && (Complete(h, s) <==> !Crossed(s)))
  {
    hide Inv, Exec, Undetected, AtRest, Complete;
    RunKeepsInv(h, clipA, clipB, sched);
    RunKeepsEvents(h, clipA, clipB, sched);
    var s := Exec(h, Start(h, clipA, clipB), sched);
    RestIsQuiet(h, s);
    if AtRest(h, s) {
      QuietIsComplete(h, s);
      InvNeverStopped(s);
    }
  }

  lemma InvNeverStopped(s: System)
    requires Inv(s)
    ensures !s.a.mode.Stopped? && !s.b.mode.Stopped?
  {
  }
}
