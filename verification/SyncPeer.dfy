/**
 One peer of a live sync as the tasks that run it: the watcher's poll, the outbound loop over
 queued changes and the inbound loop with its nested wait, on shared mutable state. Each is
 proved equal to the steps of the transition system.
 */
module SyncPeer {
  import opened Wrappers
  import opened Clipboard
  import opened SyncProtocol

  /** The inbound task on a list of frames: its state, what it wrote, and what a cancel or a full
      event channel left unread. */
  function InboundTask(h: HashFn, p: Peer, frames: seq<Frame>): (Peer, seq<Frame>, seq<Frame>)
    decreases |frames|
  {
    if frames == [] || !Reads(p) then (p, [], frames)
    else
      var (p1, out) := InboundPeer(h, p, frames[0]);
      var (p2, rest, unread) := InboundTask(h, p1, frames[1..]);
      (p2, out + rest, unread)
  }

  /** The outbound task on everything queued, or up to the event it cannot put in. */
  function OutboundTask(p: Peer): (Peer, seq<Frame>)
    decreases |p.queue|
  {
    if p.queue == [] || p.outBlocked then (p, [])
    else
      var (p1, out) := OutboundPeer(p);
      var (p2, rest) := OutboundTask(p1);
      (p2, out + rest)
  }

  /** After handling some frames with the given replies, the task has p' and the unread frames to go. */
  ghost predicate Continues(h: HashFn, p: Peer, frames: seq<Frame>, p': Peer, replies: seq<Frame>, unread: seq<Frame>) {
    var whole, rest := InboundTask(h, p, frames), InboundTask(h, p', unread);
    whole.0 == rest.0 && whole.1 == replies + rest.1 && whole.2 == rest.2
  }

  lemma ContinuesWith(h: HashFn, p: Peer, frames: seq<Frame>, p1: Peer, replies: seq<Frame>, unread: seq<Frame>)
    requires Continues(h, p, frames, p1, replies, unread) && unread != [] && Reads(p1)
    ensures var step := InboundPeer(h, p1, unread[0]);
            Continues(h, p, frames, step.0, replies + step.1, unread[1..])
  {
    hide InboundPeer;
  }

  lemma ContinuesToEnd(h: HashFn, p: Peer, frames: seq<Frame>, p1: Peer, replies: seq<Frame>, unread: seq<Frame>)
    requires Continues(h, p, frames, p1, replies, unread) && (unread == [] || !Reads(p1))
    ensures InboundTask(h, p, frames) == (p1, replies, unread)
  {
    assert replies + [] == replies;
  }

  /** The same for the outbound task. */
  ghost predicate Sends(p: Peer, p': Peer, sent: seq<Frame>) {
    var whole, rest := OutboundTask(p), OutboundTask(p');
    whole.0 == rest.0 && whole.1 == sent + rest.1
  }

  lemma SendsNext(p: Peer, p1: Peer, sent: seq<Frame>)
    requires Sends(p, p1, sent) && p1.queue != [] && !p1.outBlocked
    ensures Sends(p, OutboundPeer(p1).0, sent + OutboundPeer(p1).1)
  {
    hide OutboundPeer;
  }

  class Runner {
    const h: HashFn
    var clip: Option<Content>
    var watched: u64
    var queue: seq<Change>
    var lastLocal: u64
    var lastRemote: u64
    var cache: Option<Change>
    var mode: Mode
    var events: nat
    var outBlocked: bool
    var itemsSent: nat
    var bytesSent: nat
    var itemsReceived: nat
    var bytesReceived: nat

    function View(): Peer
      reads this
    {
      Peer(clip, watched, queue, lastLocal, lastRemote, cache, mode, events, outBlocked, itemsSent, bytesSent, itemsReceived, bytesReceived)
    }

    constructor (h: HashFn, clip: Option<Content>)
      ensures this.h == h && View() == StartPeer(h, clip)
    {
      this.h := h;
      this.clip := clip;
      watched := ClipHash(h, clip);
      queue := [];
      lastLocal, lastRemote := 0, 0;
      cache := None;
      mode := Idle;
      events, outBlocked := 0, false;
      itemsSent, bytesSent, itemsReceived, bytesReceived := 0, 0, 0, 0;
    }

    method Poll()
      modifies this
      ensures View() == PollPeer(h, old(View()))
    {
      if |queue| <= QUEUE_SLOTS && clip.Some? {
        var current := clip.value.Hash(h);
        if current != 0 && current != watched {
          watched := current;
          queue := queue + [Change(clip.value, current)];
        }
      }
    }

    /** An announcement: into the cache, onto the stream, and its event into the channel if there is
        room; without room the send does not come back. */
    method Announce(change: Change) returns (notice: Frame)
      modifies this
      ensures View() == old(View()).(lastLocal := change.hash, cache := Some(change),
                        events := MoreEvents(old(View())), outBlocked := EventsFull(old(View())),
                        itemsSent := old(itemsSent) + 1, bytesSent := old(bytesSent) + change.content.Size())
      ensures notice == Notice(change.content, change.hash)
    {
      hide Content.Hash, Content.Size, Notice;
      lastLocal := change.hash;
      cache := Some(change);
      notice := Notice(change.content, change.hash);
      itemsSent := itemsSent + 1;
      bytesSent := bytesSent + change.content.Size();
      outBlocked := events >= EVENT_SLOTS;
      if !outBlocked {
        events := events + 1;
      }
    }

    method RunOutbound() returns (sent: seq<Frame>)
      modifies this
      ensures View() == OutboundTask(old(View())).0 && sent == OutboundTask(old(View())).1
    {
      hide Sends, Notice, Content.Size;
      sent := [];
      ghost var start := View();
      assert Sends(start, View(), sent) by { SendsNothing(start); }
      while queue != [] && !outBlocked
        invariant Sends(start, View(), sent)
        decreases |queue|
      {
        SendsNext(start, View(), sent);
        var change := queue[0];
        queue := queue[1..];
        if change.hash == lastRemote {
          assert sent + [] == sent;
          continue;
        }
        var notice := Announce(change);
        sent := sent + [notice];
      }
      SendsAll(start, View(), sent);
    }

    /** Content got: store the hashes, write the clipboard, count it. */
    method ApplyContent(content: Content)
      modifies this
      ensures View() == Apply(h, old(View()), Some(content)).(events := old(events))
    {
      hide Content.Hash, Content.Size;
      var hash := content.Hash(h);
      watched := hash;
      lastRemote := hash;
      clip := Some(content);
      itemsReceived := itemsReceived + 1;
      bytesReceived := bytesReceived + content.Size();
    }

    /** What the inner wait does with the content it got: apply it, put an event in, acknowledge. */
    method WriteReceived(content: Content) returns (acks: seq<Frame>)
      modifies this
      ensures (View(), acks) == ReceivedPeer(h, old(View()), Some(content))
    {
      hide Content.Hash, Content.Size;
      ApplyContent(content);
      if events < EVENT_SLOTS {
        events := events + 1;
        mode, acks := Idle, [Ack(true)];
      } else {
        mode, acks := Unacknowledged, [];
      }
    }

    /** The inner wait: reads on until content arrives, the frames run out or a cancel comes. What
        becomes of the content is part of it. */
    method AwaitContent(t: ContentType, frames: seq<Frame>) returns (replies: seq<Frame>, unread: seq<Frame>)
      requires mode == Waiting(t)
      modifies this
      ensures Continues(h, old(View()), frames, View(), replies, unread)
      ensures |unread| <= |frames| && (mode.Waiting? ==> unread == [])
    {
      hide Continues, Wire, Unwire;
      replies, unread := [], frames;
      ghost var start := View();
      assert Continues(h, start, frames, View(), replies, unread) by { ContinuesNothing(h, start, frames); }
      while unread != []
        invariant mode == Waiting(t) && |unread| <= |frames|
        invariant Continues(h, start, frames, View(), replies, unread)
        decreases |unread|
      {
        ContinuesWith(h, start, frames, View(), replies, unread);
        assert replies + [] == replies;
        var f := unread[0];
        unread := unread[1..];
        match f
        case Data(payload) =>
          var content := Unwire(t, payload);
          if content.Some? {
            var acks := WriteReceived(content.value);
            replies := replies + acks;
          } else {
            replies := replies + [Ack(true)];
            mode := Idle;
          }
          return;
        case Ping => replies := replies + [Pong];
        case Cancel =>
          mode := Stopped;
          return;
        case _ =>
      }
    }

    method RunInbound(frames: seq<Frame>) returns (replies: seq<Frame>, unread: seq<Frame>)
      requires mode.Idle?
      modifies this
      ensures (View(), replies, unread) == InboundTask(h, old(View()), frames)
    {
      hide Continues, Wire, Unwire;
      replies, unread := [], frames;
      ghost var start := View();
      assert Continues(h, start, frames, View(), replies, unread) by { ContinuesNothing(h, start, frames); }
      while unread != []
        invariant unread != [] ==> mode.Idle?
        invariant Continues(h, start, frames, View(), replies, unread)
        decreases |unread|
      {
        ContinuesWith(h, start, frames, View(), replies, unread);
        assert replies + [] == replies;
        var f := unread[0];
        unread := unread[1..];
        match f
        case Changed(t, _, _) =>
          replies := replies + [Request];
          mode := Waiting(t);
          ghost var p, left, sofar := View(), unread, replies;
          var more;
          more, unread := AwaitContent(t, unread);
          replies := replies + more;
          ContinuesTransitively(h, start, frames, p, sofar, left, View(), more, unread);
          if !mode.Idle? { break; }
        case Request =>
          if cache.Some? {
            replies := replies + [Data(Wire(cache.value.content))];
          } else if clip.Some? {
            replies := replies + [Data(Wire(clip.value))];
          } else {
            replies := replies + [Ack(false)];
          }
        case Ping => replies := replies + [Pong];
        case Cancel =>
          mode := Stopped;
          break;
        case _ =>
      }
      ContinuesToEnd(h, start, frames, View(), replies, unread);
    }
  }

  lemma ContinuesNothing(h: HashFn, p: Peer, frames: seq<Frame>)
    ensures Continues(h, p, frames, p, [], frames)
  {
  }

  lemma ContinuesTransitively(h: HashFn, p: Peer, frames: seq<Frame>, p1: Peer, replies: seq<Frame>, unread: seq<Frame>,
                              p2: Peer, more: seq<Frame>, left: seq<Frame>)
    requires Continues(h, p, frames, p1, replies, unread) && Continues(h, p1, unread, p2, more, left)
    ensures Continues(h, p, frames, p2, replies + more, left)
  {
    hide InboundTask;
  }

  lemma SendsNothing(p: Peer)
    ensures Sends(p, p, [])
  {
  }

  lemma SendsAll(p: Peer, p1: Peer, sent: seq<Frame>)
    requires Sends(p, p1, sent) && (p1.queue == [] || p1.outBlocked)
    ensures OutboundTask(p) == (p1, sent)
  {
    assert sent + [] == sent;
  }

  // ---------- the tasks are runs of the transition system ----------

  function Moves(h: HashFn, s: System, m: Move, n: nat): System
    decreases n
  {
    if n == 0 then s else Moves(h, MoveA(h, s, m), m, n - 1)
  }

  lemma {:induction false} OutboundTaskIsMoves(h: HashFn, s: System)
    ensures var (p, sent) := OutboundTask(s.a);
            Moves(h, s, Outbound, |s.a.queue|) == s.(a := p, ab := s.ab + sent)
    decreases |s.a.queue|
  {
    if s.a.queue == [] || s.a.outBlocked {
      assert s.ab + [] == s.ab;
      BlockedOutboundStays(h, s, |s.a.queue|);
    } else {
      var s' := MoveA(h, s, Outbound);
      OutboundTaskIsMoves(h, s');
      var (p, out) := OutboundPeer(s.a);
      var (p', rest) := OutboundTask(p);
      assert s.ab + (out + rest) == (s.ab + out) + rest;
    }
  }

  lemma {:induction false} BlockedOutboundStays(h: HashFn, s: System, n: nat)
    requires s.a.queue == [] || s.a.outBlocked
    ensures Moves(h, s, Outbound, n) == s
    decreases n
  {
    if n > 0 { BlockedOutboundStays(h, s, n - 1); }
  }

  lemma {:induction false} InboundTaskIsMoves(h: HashFn, s: System)
    ensures var (p, replies, unread) := InboundTask(h, s.a, s.ba);
            Moves(h, s, Inbound, |s.ba|) == s.(a := p, ab := s.ab + replies, ba := unread)
    decreases |s.ba|
  {
    hide Wire, Unwire, InboundPeer;
    if s.ba == [] {
      assert s.ab + [] == s.ab;
    } else if !Reads(s.a) {
      NotReadingStays(h, s, |s.ba|);
      assert s.ab + [] == s.ab;
    } else {
      var s' := MoveA(h, s, Inbound);
      InboundTaskIsMoves(h, s');
      var (p, out) := InboundPeer(h, s.a, s.ba[0]);
      var (p', rest, unread) := InboundTask(h, p, s.ba[1..]);
      assert s.ab + (out + rest) == (s.ab + out) + rest;
    }
  }

  lemma {:induction false} NotReadingStays(h: HashFn, s: System, n: nat)
    requires !Reads(s.a)
    ensures Moves(h, s, Inbound, n) == s
    decreases n
  {
    if n > 0 { NotReadingStays(h, s, n - 1); }
  }

  // ---------- what the inbound task makes of any frames ----------

  /** The task has read all the frames and goes on reading. */
  predicate ReadsOn(h: HashFn, p: Peer, frames: seq<Frame>) {
    var t := InboundTask(h, p, frames); t.2 == [] && Reads(t.0)
  }

  lemma {:induction false} TaskSplits(h: HashFn, p: Peer, xs: seq<Frame>, ys: seq<Frame>)
    requires ReadsOn(h, p, xs)
    ensures var t, u, r := InboundTask(h, p, xs + ys), InboundTask(h, p, xs), InboundTask(h, InboundTask(h, p, xs).0, ys);
            t.0 == r.0 && t.1 == u.1 + r.1 && t.2 == r.2
    decreases |xs|
  {
    hide InboundPeer;
    if xs == [] {
      assert xs + ys == ys;
      assert InboundTask(h, p, xs) == (p, [], []);
      assert [] + InboundTask(h, p, ys).1 == InboundTask(h, p, ys).1;
    } else {
      var (p1, out) := InboundPeer(h, p, xs[0]);
      TaskSplits(h, p1, xs[1..], ys);
      assert (xs + ys)[0] == xs[0] && (xs + ys)[1..] == xs[1..] + ys;
    }
  }

  /** A ping between any two frames, at the outer read or in the inner wait, costs one pong and changes
      nothing else, neither state nor any other reply. */
  lemma PingCostsOnePong(h: HashFn, p: Peer, before: seq<Frame>, after: seq<Frame>)
    requires ReadsOn(h, p, before)
    ensures var t, t' := InboundTask(h, p, before + after), InboundTask(h, p, before + ([Ping] + after));
            var k := |InboundTask(h, p, before).1|;
            && t'.0 == t.0 && t'.2 == t.2
            && k <= |t.1| && t'.1 == t.1[..k] + [Pong] + t.1[k..]
  {
    var q := InboundTask(h, p, before).0;
    TaskSplits(h, p, before, after);
    TaskSplits(h, p, before, [Ping] + after);
    assert ([Ping] + after)[0] == Ping && ([Ping] + after)[1..] == after;
    assert InboundPeer(h, q, Ping) == (q, [Pong]);
    assert InboundTask(h, q, [Ping] + after).1 == [Pong] + InboundTask(h, q, after).1;
  }

  /** A cancel, at the outer read or in the inner wait, ends the task and leaves the rest unread. */
  lemma NothingAfterCancel(h: HashFn, p: Peer, before: seq<Frame>, after: seq<Frame>)
    requires ReadsOn(h, p, before)
    ensures var t, u := InboundTask(h, p, before + ([Cancel] + after)), InboundTask(h, p, before);
            t.0 == u.0.(mode := Stopped) && t.1 == u.1 && t.2 == after
  {
    var q := InboundTask(h, p, before).0;
    TaskSplits(h, p, before, [Cancel] + after);
    assert ([Cancel] + after)[0] == Cancel && ([Cancel] + after)[1..] == after;
    assert InboundPeer(h, q, Cancel) == (q.(mode := Stopped), []);
    assert InboundTask(h, q.(mode := Stopped), after) == (q.(mode := Stopped), [], after);
    assert InboundTask(h, p, before).1 + [] == InboundTask(h, p, before).1;
  }

  /** A request at the outer read is answered with what was announced last or, if nothing was, with the
      clipboard, in a form that reads back as that content; without either with a failure. */
  lemma RequestIsAnswered(h: HashFn, p: Peer)
    requires p.mode.Idle?
    requires p.cache.Some? ==> p.cache.value.content.WellFormed()
    requires p.clip.Some? ==> p.clip.value.WellFormed()
    ensures var content := if p.cache.Some? then Some(p.cache.value.content) else p.clip;
            var (q, out) := InboundPeer(h, p, Request);
            && q == p && |out| == 1
            && match content
               case None => out[0] == Ack(false)
               case Some(c) => out[0].Data? && Unwire(c.Type(), out[0].payload) == Some(c)
  {
    hide Wire, Unwire;
    if p.cache.Some? { UnwireWire(p.cache.value.content.Type(), p.cache.value.content); }
    if p.clip.Some? { UnwireWire(p.clip.value.Type(), p.clip.value); }
  }

  /** What an inbound task does not act on, and content it cannot read: that is acknowledged as a success
      although nothing is written. */
  lemma WithoutEffect(h: HashFn, p: Peer, f: Frame)
    requires Reads(p) && !f.Ping? && !f.Cancel?
    ensures p.mode.Idle? && !f.Changed? && !f.Request? ==> InboundPeer(h, p, f) == (p, [])
    ensures p.mode.Waiting? && !f.Data? ==> InboundPeer(h, p, f) == (p, [])
    ensures p.mode.Waiting? && f.Data? && Unwire(p.mode.ctype, f.payload).None? ==>
              InboundPeer(h, p, f) == (p.(mode := Idle), [Ack(true)])
  {
    hide Wire, Unwire;
  }

  /** Readable content of the announced type is in the clipboard, hashed for watcher and outbound task
      and counted, before it is acknowledged. */
  lemma ContentIsTaken(h: HashFn, p: Peer, payload: seq<byte>)
    requires p.mode.Waiting? && Unwire(p.mode.ctype, payload).Some?
    ensures var c := Unwire(p.mode.ctype, payload).value;
            var (q, out) := InboundPeer(h, p, Data(payload));
            && q.clip == Some(c) && q.watched == q.lastRemote == h(c.Bytes())
            && q.itemsReceived == p.itemsReceived + 1 && q.bytesReceived == p.bytesReceived + |c.Bytes()|
            && q.queue == p.queue && q.cache == p.cache && q.lastLocal == p.lastLocal
            && (if p.events < 32 then q.mode.Idle? && out == [Ack(true)] && q.events == p.events + 1
                else q.mode.Unacknowledged? && out == [] && q.events == p.events)
  {
    hide Wire, Unwire;
  }
}
