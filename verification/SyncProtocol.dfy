/**
 Live clipboard sync as a transition system: two peers, each with a polling watcher, an
 outbound and an inbound task, joined by two FIFO channels of frames.

 Atomicity. A poll is one step (read the clipboard, store its hash, queue the change). An
 outbound iteration is one step (store the cache, write the notification). An inbound step
 handles one frame, replies included; applying received content stores both hashes and writes
 the clipboard. A clipboard read returns what was last written, and writes succeed.

 Events. Both tasks end their work on an item with a send to one channel of 32 events that is not
 read before the session is over: a task that finds it full waits in that send.
 */
module SyncProtocol {
  import opened Wrappers
  import opened Clipboard

  /** Slots of the watcher's channel; one more change may be held by a send that waits. */
  const QUEUE_SLOTS := 16

  /** Slots of the channel for a session's events. Nobody takes events out while the session runs. */
  const EVENT_SLOTS := 32

  datatype Change = Change(content: Content, hash: u64)

  datatype Frame =
    | Changed(ctype: ContentType, size: nat, checksum: u64)
    | Request
    | Data(payload: seq<byte>)
    | Ack(success: bool)
    | Ping
    | Pong
    | Cancel

  /** Where the inbound task stands: at its outer read, in the inner wait for the content a
      notification announced, in the event send between applying content and acknowledging it,
      or ended by a cancel. */
  datatype Mode = Idle | Waiting(ctype: ContentType) | Unacknowledged | Stopped

  datatype Peer = Peer(
    clip: Option<Content>,
    watched: u64,
    queue: seq<Change>,
    lastLocal: u64,
    lastRemote: u64,
    cache: Option<Change>,
    mode: Mode,
    events: nat,            // events in the channel
    outBlocked: bool,       // the outbound task waits in the event send after an announcement
    itemsSent: nat,
    bytesSent: nat,
    itemsReceived: nat,
    bytesReceived: nat)

  function ClipHash(h: HashFn, clip: Option<Content>): u64 {
    if clip.Some? then clip.value.Hash(h) else 0
  }

  function StartPeer(h: HashFn, clip: Option<Content>): Peer {
    Peer(clip, ClipHash(h, clip), [], 0, 0, None, Idle, 0, false, 0, 0, 0, 0)
  }

  /** The clipboard holds something a poll would report. */
  predicate Undetected(h: HashFn, p: Peer) {
    p.clip.Some? && ClipHash(h, p.clip) != 0 && ClipHash(h, p.clip) != p.watched
  }

  /** One turn of the watcher's loop. It does not come round while its send is waiting. */
  function PollPeer(h: HashFn, p: Peer): Peer {
    if |p.queue| <= QUEUE_SLOTS && Undetected(h, p) then
      p.(watched := ClipHash(h, p.clip),
         queue := p.queue + [Change(p.clip.value, ClipHash(h, p.clip))])
    else p
  }

  function Notice(c: Content, hash: u64): Frame {
    Changed(c.Type(), c.Size(), hash)
  }

  predicate EventsFull(p: Peer) {
    p.events >= EVENT_SLOTS
  }

  /** The channel's count after a task has put an event in, or has begun to wait with one. */
  function MoreEvents(p: Peer): nat {
    if EventsFull(p) then p.events else p.events + 1
  }

  /** One iteration of the outbound task, which ends in the event send. */
  function OutboundPeer(p: Peer): (Peer, seq<Frame>)
    requires p.queue != [] && !p.outBlocked
  {
    var change := p.queue[0];
    var p' := p.(queue := p.queue[1..]);
    if change.hash == p.lastRemote then (p', [])
    else
      (p'.(lastLocal := change.hash, cache := Some(change),
           events := MoreEvents(p), outBlocked := EventsFull(p),
           itemsSent := p.itemsSent + 1, bytesSent := p.bytesSent + change.content.Size()),
       [Notice(change.content, change.hash)])
  }

  function Apply(h: HashFn, p: Peer, content: Option<Content>): Peer {
    match content
    case None => p
    case Some(c) =>
      p.(watched := c.Hash(h), lastRemote := c.Hash(h), clip := Some(c), events := MoreEvents(p),
         itemsReceived := p.itemsReceived + 1, bytesReceived := p.bytesReceived + c.Size())
  }

  /** The inner wait has its content: apply it, put an event in, then acknowledge; a full channel
      keeps the task from acknowledging. */
  function ReceivedPeer(h: HashFn, p: Peer, content: Option<Content>): (Peer, seq<Frame>) {
    if content.Some? && EventsFull(p) then (Apply(h, p, content).(mode := Unacknowledged), [])
    else (Apply(h, p, content).(mode := Idle), [Ack(true)])
  }

  /** The answer to a request: the cache, else the clipboard, else a failed acknowledgement. */
  function Answer(p: Peer): Frame {
    if p.cache.Some? then Data(Wire(p.cache.value.content))
    else if p.clip.Some? then Data(Wire(p.clip.value))
    else Ack(false)
  }

  /** The inbound task is at one of its two reads. */
  predicate Reads(p: Peer) {
    p.mode.Idle? || p.mode.Waiting?
  }

  /** The inbound task handles one frame, at its outer read or in the inner wait. */
  function InboundPeer(h: HashFn, p: Peer, f: Frame): (Peer, seq<Frame>)
    requires Reads(p)
  {
    match f
    case Ping => (p, [Pong])
    case Cancel => (p.(mode := Stopped), [])
    case _ =>
      match p.mode
      case Idle =>
        (match f
         case Changed(t, _, _) => (p.(mode := Waiting(t)), [Request])
         case Request => (p, [Answer(p)])
         case _ => (p, []))
      case Waiting(t) =>
        if f.Data? then ReceivedPeer(h, p, Unwire(t, f.payload)) else (p, [])
  }

  /** ab holds the frames on their way from a to b. */
  datatype System = System(a: Peer, b: Peer, ab: seq<Frame>, ba: seq<Frame>)

  datatype Move = Copy(content: Content) | Poll | Outbound | Inbound

  datatype Side = A | B

  datatype Turn = Turn(side: Side, move: Move)

  function Start(h: HashFn, clipA: Option<Content>, clipB: Option<Content>): System {
    System(StartPeer(h, clipA), StartPeer(h, clipB), [], [])
  }

  function Swap(s: System): System {
    System(s.b, s.a, s.ba, s.ab)
  }

  /** A move of peer a; one that has nothing to do leaves the system as it is. */
  function MoveA(h: HashFn, s: System, m: Move): System {
    match m
    case Copy(c) => s.(a := s.a.(clip := Some(c)))
    case Poll => s.(a := PollPeer(h, s.a))
    case Outbound =>
      if s.a.queue == [] || s.a.outBlocked then s
      else
        var (p, out) := OutboundPeer(s.a);
        s.(a := p, ab := s.ab + out)
    case Inbound =>
      if s.ba == [] || !Reads(s.a) then s
      else
        var (p, out) := InboundPeer(h, s.a, s.ba[0]);
        s.(a := p, ab := s.ab + out, ba := s.ba[1..])
  }

  function Next(h: HashFn, s: System, t: Turn): System {
    match t.side
    case A => MoveA(h, s, t.move)
    case B => Swap(MoveA(h, Swap(s), t.move))
  }

  /** The state a schedule of turns leads to; every interleaving of the two peers' steps is one. */
  function Exec(h: HashFn, s: System, sched: seq<Turn>): System
    decreases |sched|
  {
    if sched == [] then s
    else Next(h, Exec(h, s, sched[..|sched| - 1]), sched[|sched| - 1])
  }

  // ---------- counting frames in a channel ----------

  datatype Kind = KChanged | KRequest | KData | KAck | KOther

  function KindOf(f: Frame): Kind {
    match f
    case Changed(_, _, _) => KChanged
    case Request => KRequest
    case Data(_) => KData
    case Ack(_) => KAck
    case _ => KOther
  }

  function One(f: Frame, k: Kind): nat {
    if KindOf(f) == k then 1 else 0
  }

  function Count(ch: seq<Frame>, k: Kind): nat {
    if ch == [] then 0 else One(ch[0], k) + Count(ch[1..], k)
  }

  lemma {:induction false} CountAppend(ch: seq<Frame>, f: Frame, k: Kind)
    ensures Count(ch + [f], k) == Count(ch, k) + One(f, k)
  {
    if ch == [] {
      assert ([f])[1..] == [];
    } else {
      CountAppend(ch[1..], f, k);
      assert (ch + [f])[1..] == ch[1..] + [f];
    }
  }
}
