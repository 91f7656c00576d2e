/**
 Bursts of copies: how many changes a peer takes in while its outbound task is busy, and that it
 announces all of them afterwards. The numbers are written out.
 */
module SyncQueue {
  import opened Wrappers
  import opened Clipboard
  import opened SyncProtocol

  /** Each content copied and polled in turn, with no outbound turn between. */
  function Burst(side: Side, copies: seq<Content>): seq<Turn> {
    if copies == [] then []
    else Burst(side, copies[..|copies| - 1]) + [Turn(side, Copy(copies[|copies| - 1])), Turn(side, Poll)]
  }

  function Outbounds(side: Side, n: nat): seq<Turn> {
    if n == 0 then [] else Outbounds(side, n - 1) + [Turn(side, Outbound)]
  }

  /** Every hash is non-zero and differs from the one before, the first from the watcher's. */
  predicate Fresh(h: HashFn, watched: u64, copies: seq<Content>) {
    copies == [] ||
    (var n := |copies| - 1;
     && copies[n].Hash(h) != 0
     && copies[n].Hash(h) != (if n == 0 then watched else copies[n - 1].Hash(h))
     && Fresh(h, watched, copies[..n]))
  }

  function Changes(h: HashFn, copies: seq<Content>): (changes: seq<Change>)
    ensures |changes| == |copies|
    ensures forall i :: 0 <= i < |copies| ==> changes[i] == Change(copies[i], copies[i].Hash(h))
  {
    if copies == [] then []
    else Changes(h, copies[..|copies| - 1]) + [Change(copies[|copies| - 1], copies[|copies| - 1].Hash(h))]
  }

  lemma ChangesTail(h: HashFn, copies: seq<Content>)
    requires copies != []
    ensures Changes(h, copies)[0] == Change(copies[0], copies[0].Hash(h)) && Changes(h, copies)[1..] == Changes(h, copies[1..])
  {
  }

  /** The peer on the given side. */
  function On(s: System, side: Side): Peer {
    if side == A then s.a else s.b
  }

  function With(s: System, side: Side, p: Peer): System {
    if side == A then s.(a := p) else s.(b := p)
  }

  lemma OnePolled(h: HashFn, s: System, side: Side, c: Content)
    requires |On(s, side).queue| <= 16 && c.Hash(h) != 0 && c.Hash(h) != On(s, side).watched
    ensures var p := On(s, side);
            Next(h, Next(h, s, Turn(side, Copy(c))), Turn(side, Poll)) ==
            With(s, side, p.(clip := Some(c), watched := c.Hash(h), queue := p.queue + [Change(c, c.Hash(h))]))
  {
    hide Wire, Unwire, InboundPeer, OutboundPeer;
  }

  lemma {:induction false} PlayTwoMore(h: HashFn, s: System, turns: seq<Turn>, t: Turn, u: Turn)
    ensures Exec(h, s, turns + [t, u]) == Next(h, Next(h, Exec(h, s, turns), t), u)
  {
    hide Next;
    var all := turns + [t, u];
    assert all[..|all| - 1] == turns + [t];
    assert (turns + [t])[..|turns|] == turns;
  }

  /** Up to 17 copies, polled one after the other while nothing is taken out, are all queued, in order. */
  lemma {:induction false} BurstIsQueued(h: HashFn, s: System, side: Side, copies: seq<Content>)
    requires On(s, side).queue == [] && |copies| <= 17 && Fresh(h, On(s, side).watched, copies)
    ensures Exec(h, s, Burst(side, copies)) ==
            if copies == [] then s
            else
              var last := copies[|copies| - 1];
              With(s, side, On(s, side).(clip := Some(last), watched := last.Hash(h), queue := Changes(h, copies)))
  {
    hide Next, PollPeer;
    if copies != [] {
      var n := |copies| - 1;
      BurstIsQueued(h, s, side, copies[..n]);
      var before := Exec(h, s, Burst(side, copies[..n]));
      assert On(before, side).queue == Changes(h, copies[..n]);
      OnePolled(h, before, side, copies[n]);
      PlayTwoMore(h, s, Burst(side, copies[..n]), Turn(side, Copy(copies[n])), Turn(side, Poll));
    }
  }

  /** With 17 changes in the queue a poll takes nothing; once an outbound turn has made room it takes
      what it finds. */
  lemma SeventeenIsFull(h: HashFn, p: Peer)
    requires |p.queue| == 17
    ensures PollPeer(h, p) == p
    ensures !p.outBlocked && p.clip.Some? && p.clip.value.Hash(h) != 0 && p.clip.value.Hash(h) != p.watched ==>
              PollPeer(h, OutboundPeer(p).0).queue == p.queue[1..] + [Change(p.clip.value, p.clip.value.Hash(h))]
  {
  }

  /** What is announced for the copies, in order. */
  function Announcements(h: HashFn, copies: seq<Content>): (frames: seq<Frame>)
    ensures |frames| == |copies|
    ensures forall i :: 0 <= i < |copies| ==>
              frames[i] == Changed(if copies[i].Text? then PlainText else ImagePng, |copies[i].Bytes()|, h(copies[i].Bytes()))
  {
    if copies == [] then []
    else Announcements(h, copies[..|copies| - 1]) + [Notice(copies[|copies| - 1], copies[|copies| - 1].Hash(h))]
  }

  lemma OneAnnounced(h: HashFn, s: System, c: Content, rest: seq<Change>)
    requires s.a.queue == [Change(c, c.Hash(h))] + rest && !s.a.outBlocked && s.a.events < 32
    requires c.Hash(h) != s.a.lastRemote
    ensures var s' := MoveA(h, s, Outbound);
            && s'.ab == s.ab + [Notice(c, c.Hash(h))] && s'.b == s.b && s'.ba == s.ba
            && s'.a.queue == rest && !s'.a.outBlocked && s'.a.events == s.a.events + 1
            && s'.a.lastRemote == s.a.lastRemote && s'.a.lastLocal == h(c.Bytes())
            && s'.a.itemsSent == s.a.itemsSent + 1 && s'.a.bytesSent == s.a.bytesSent + |c.Bytes()|
            && s'.a.cache == Some(Change(c, h(c.Bytes())))
  {
    hide Notice;
  }

  lemma OneMoreOut(h: HashFn, copies: seq<Content>, k: nat)
    requires k < |copies|
    ensures Announcements(h, copies[..k + 1]) == Announcements(h, copies[..k]) + [Notice(copies[k], copies[k].Hash(h))]
    ensures Changes(h, copies[k..]) == [Change(copies[k], copies[k].Hash(h))] + Changes(h, copies[k + 1..])
  {
    hide Notice;
    assert copies[..k + 1][..k] == copies[..k];
    ChangesTail(h, copies[k..]);
    assert copies[k..][1..] == copies[k + 1..];
  }

  /** The first k of the queued copies are out. */
  predicate Out(h: HashFn, s: System, s': System, copies: seq<Content>, k: nat)
    requires k <= |copies|
  {
    && s'.ab == s.ab + Announcements(h, copies[..k]) && s'.b == s.b && s'.ba == s.ba
    && s'.a.queue == Changes(h, copies[k..]) && !s'.a.outBlocked && s'.a.events == s.a.events + k
    && s'.a.lastRemote == s.a.lastRemote && s'.a.itemsSent == s.a.itemsSent + k
  }

  lemma NoneOut(h: HashFn, s: System, copies: seq<Content>)
    requires s.a.queue == Changes(h, copies) && !s.a.outBlocked
    ensures Out(h, s, s, copies, 0)
  {
    assert s.ab + [] == s.ab && copies[..0] == [] && copies[0..] == copies;
  }

  lemma NextOut(h: HashFn, s: System, s': System, copies: seq<Content>, k: nat)
    requires k < |copies| && Out(h, s, s', copies, k) && s.a.events + |copies| <= 32
    requires copies[k].Hash(h) != s.a.lastRemote
    ensures Out(h, s, MoveA(h, s', Outbound), copies, k + 1)
  {
    hide MoveA, Notice, Announcements, Changes;
    OneMoreOut(h, copies, k);
    OneAnnounced(h, s', copies[k], Changes(h, copies[k + 1..]));
  }

  /** Queued changes, room for their events, none of them the content received last: the next outbound
      turns announce exactly those, in order. */
  lemma {:induction false} QueueIsAnnounced(h: HashFn, s: System, copies: seq<Content>, k: nat)
    requires k <= |copies| && s.a.queue == Changes(h, copies)
    requires !s.a.outBlocked && s.a.events + |copies| <= 32
    requires forall i :: 0 <= i < |copies| ==> copies[i].Hash(h) != s.a.lastRemote
    ensures Out(h, s, Exec(h, s, Outbounds(A, k)), copies, k)
  {
    hide MoveA, Out, Changes;
    if k == 0 {
      NoneOut(h, s, copies);
    } else {
      QueueIsAnnounced(h, s, copies, k - 1);
      var turns := Outbounds(A, k);
      assert turns[..|turns| - 1] == Outbounds(A, k - 1);
      NextOut(h, s, Exec(h, s, Outbounds(A, k - 1)), copies, k - 1);
    }
  }

  function Flip(turns: seq<Turn>): seq<Turn> {
    if turns == [] then []
    else
      var last := turns[|turns| - 1];
      Flip(turns[..|turns| - 1]) + [Turn(if last.side == A then B else A, last.move)]
  }

  /** Neither peer has a part of its own. */
  lemma {:induction false} SidesAreAlike(h: HashFn, s: System, turns: seq<Turn>)
    ensures Exec(h, Swap(s), Flip(turns)) == Swap(Exec(h, s, turns))
    decreases |turns|
  {
    hide MoveA;
    if turns != [] {
      SidesAreAlike(h, s, turns[..|turns| - 1]);
      assert Flip(turns)[..|Flip(turns)| - 1] == Flip(turns[..|turns| - 1]);
    }
  }

  lemma {:induction false} ExecBoth(h: HashFn, s: System, xs: seq<Turn>, ys: seq<Turn>)
    ensures Exec(h, s, xs + ys) == Exec(h, Exec(h, s, xs), ys)
    decreases |ys|
  {
    hide Next;
    if ys == [] {
      assert xs + ys == xs;
    } else {
      ExecBoth(h, s, xs, ys[..|ys| - 1]);
      assert (xs + ys)[..|xs + ys| - 1] == xs + ys[..|ys| - 1];
    }
  }

  /** A burst of up to 17 copies is announced whole: none is overwritten before it is taken in, and the
      outbound task, not blocked and with room for their events, sends exactly these. SidesAreAlike
      says the same of the other peer. */
  lemma BurstIsAnnounced(h: HashFn, s: System, copies: seq<Content>)
    requires s.a.queue == [] && |copies| <= 17 && Fresh(h, s.a.watched, copies)
    requires !s.a.outBlocked && s.a.events + |copies| <= 32
    requires forall i :: 0 <= i < |copies| ==> copies[i].Hash(h) != s.a.lastRemote
    ensures var s' := Exec(h, s, Burst(A, copies) + Outbounds(A, |copies|));
            s'.ab == s.ab + Announcements(h, copies) && s'.a.queue == [] && s'.a.itemsSent == s.a.itemsSent + |copies|
  {
    hide Exec, Burst, Outbounds, Fresh, Announcements;
    BurstIsQueued(h, s, A, copies);
    ExecBoth(h, s, Burst(A, copies), Outbounds(A, |copies|));
    if copies == [] {
      assert Changes(h, copies) == [];
    }
    QueueIsAnnounced(h, Exec(h, s, Burst(A, copies)), copies, |copies|);
    assert copies[..|copies|] == copies && copies[|copies|..] == [];
  }
}
