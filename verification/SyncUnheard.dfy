/**
 Copies the other peer never hears of: content that was received last, and every copy once the
 session's events have filled their channel. With runs in which the clipboards stay different.
 */
module SyncUnheard {
  import opened Wrappers
  import opened Clipboard
  import opened SyncProtocol
  import opened SyncProgress
  import opened SyncWitness

  /** What any turn makes of a peer's queue: its own outbound turn takes the front, its own poll may add
      one change at the end, and nothing else touches it. So a change in the queue is decided about at
      the outbound turn that finds it in front, whatever happens in between. */
  lemma QueueIsServedInOrder(h: HashFn, s: System, t: Turn)
    ensures var own := t.side == A; var q, q' := s.a.queue, Next(h, s, t).a.queue;
            && (own && t.move.Outbound? && q != [] && !s.a.outBlocked ==> q' == q[1..])
            && (own && t.move.Poll? && q' != q ==>
                  |q| <= QUEUE_SLOTS && s.a.clip.Some? && q' == q + [Change(s.a.clip.value, s.a.clip.value.Hash(h))])
            && (!own || t.move.Copy? || t.move.Inbound? ==> q' == q)
  {
    hide Wire, Unwire;
  }

  /** The change in front of the queue is announced, at the outbound turn that takes it, if and only
      if it is not the content received last. */
  lemma FrontIsHeardUnlessLastReceived(h: HashFn, s: System)
    requires s.a.queue != [] && !s.a.outBlocked
    ensures var front, s' := s.a.queue[0], MoveA(h, s, Outbound);
            && s'.a.queue == s.a.queue[1..]
            && s'.ab == s.ab + (if front.hash != s.a.lastRemote
                                then [Changed(front.content.Type(), |front.content.Bytes()|, front.hash)] else [])
            && (front.hash != s.a.lastRemote ==> s'.a.lastLocal == front.hash && s'.a.cache == Some(front))
            && (s'.a.itemsSent == s.a.itemsSent + 1 <==> front.hash != s.a.lastRemote)
  {
    assert s.ab + [] == s.ab;
  }

  // ---------- copies that are not heard ----------

  /** A peer after it copied c, polled, and had its outbound turn to no effect on the other. */
  function Unannounced(h: HashFn, p: Peer, c: Content): Peer {
    p.(clip := Some(c), watched := c.Hash(h), queue := if p.outBlocked then [Change(c, c.Hash(h))] else [])
  }

  predicate IsPolled(h: HashFn, p: Peer, c: Content) {
    p.queue == [] && c.Hash(h) != 0 && c.Hash(h) != p.watched
  }

  lemma UnheardA(h: HashFn, s: System, c: Content)
    requires IsPolled(h, s.a, c) && (s.a.outBlocked || c.Hash(h) == s.a.lastRemote)
    ensures var s1 := MoveA(h, s, Copy(c)); var s2 := MoveA(h, s1, Poll);
            MoveA(h, s2, Outbound) == s.(a := Unannounced(h, s.a, c))
  {
    hide Wire, Unwire, Notice;
    var s2 := MoveA(h, MoveA(h, s, Copy(c)), Poll);
    assert s2.a.queue == [Change(c, c.Hash(h))];
    assert s2.a.queue[1..] == [];
    assert s2.ab + [] == s2.ab;
  }

  lemma Unheard(h: HashFn, s: System, side: Side, c: Content)
    requires var p := if side == A then s.a else s.b;
             IsPolled(h, p, c) && (p.outBlocked || c.Hash(h) == p.lastRemote)
    ensures Play(h, s, CopyAndAnnounce(side, c)) ==
            if side == A then s.(a := Unannounced(h, s.a, c)) else s.(b := Unannounced(h, s.b, c))
  {
    hide MoveA;
    var turns := CopyAndAnnounce(side, c);
    PlayDrop(h, s, turns, 0);
    var s1 := Next(h, s, turns[0]);
    PlayDrop(h, s1, turns, 1);
    var s2 := Next(h, s1, turns[1]);
    PlayDrop(h, s2, turns, 2);
    assert turns[0..] == turns && turns[3..] == [];
    UnheardA(h, if side == A then s else Swap(s), c);
  }

  /** A copy a poll detects is announced if and only if it is not the content received last and the
      outbound task is not blocked. */
  lemma CopyIsHeardUnlessLastReceived(h: HashFn, s: System, side: Side, c: Content)
    requires IsPolled(h, if side == A then s.a else s.b, c)
    ensures var s' := Play(h, s, CopyAndAnnounce(side, c));
            var p, own, own' := if side == A then s.a else s.b, if side == A then s.ab else s.ba, if side == A then s'.ab else s'.ba;
            && (if side == A then s'.b == s.b && s'.ba == s.ba else s'.a == s.a && s'.ab == s.ab)
            && (if side == A then s'.a.clip else s'.b.clip) == Some(c)
            && own' == own + if c.Hash(h) != p.lastRemote && !p.outBlocked then [Notice(c, c.Hash(h))] else []
  {
    hide Next, Notice;
    var p, own := if side == A then s.a else s.b, if side == A then s.ab else s.ba;
    if c.Hash(h) == p.lastRemote || p.outBlocked {
      Unheard(h, s, side, c);
      assert own + [] == own;
    } else {
      Announces(h, s, side, c, []);
      assert CopyAndAnnounce(side, c) + [] == CopyAndAnnounce(side, c);
    }
  }

  // ---------- copying again what had been received ----------

  /** A copies x and B gets it; B copies y and A gets it; B copies x again. */
  function RecopyingRun(x: Content, y: Content): seq<Turn> {
    CopyAndAnnounce(A, x) + (Exchange(A) + (CopyAndAnnounce(B, y) + (Exchange(B) + CopyAndAnnounce(B, x))))
  }

  lemma RecopyingEnd(h: HashFn, x: Content, y: Content)
    requires x.WellFormed() && y.WellFormed() && x.Hash(h) != 0 && y.Hash(h) != 0 && x.Hash(h) != y.Hash(h)
    ensures var p := StartPeer(h, None);
            Play(h, Start(h, None, None), RecopyingRun(x, y)) ==
            System(Received(h, Announced(h, p, x), y), Unannounced(h, Announced(h, Received(h, p, x), y), x), [], [])
  {
    hide Wire, Unwire, Next;
    var p, last := StartPeer(h, None), CopyAndAnnounce(B, x);
    var s0 := Start(h, None, None);
    Announces(h, s0, A, x, Exchange(A) + (CopyAndAnnounce(B, y) + (Exchange(B) + last)));
    assert s0.ab + [Notice(x, x.Hash(h))] == [Notice(x, x.Hash(h))];
    var s1 := System(Announced(h, p, x), p, [Notice(x, x.Hash(h))], []);
    Exchanged(h, s1, A, x, CopyAndAnnounce(B, y) + (Exchange(B) + last));
    var s2 := System(Announced(h, p, x), Received(h, p, x), [], []);
    Announces(h, s2, B, y, Exchange(B) + last);
    assert s2.ba + [Notice(y, y.Hash(h))] == [Notice(y, y.Hash(h))];
    var s3 := System(s2.a, Announced(h, s2.b, y), [], [Notice(y, y.Hash(h))]);
    Exchanged(h, s3, B, y, last);
    Unheard(h, System(Received(h, s3.a, y), s3.b, [], []), B, x);
  }

  /** Even one exchange at a time: a user who copies again what had last been received is not heard,
      because the stored remote hash is never cleared, and the clipboards stay different. */
  lemma RecopyIsNotAnnounced(h: HashFn, x: Content, y: Content)
    requires x.WellFormed() && y.WellFormed() && x.Hash(h) != 0 && y.Hash(h) != 0 && x.Hash(h) != y.Hash(h)
    ensures var s := Exec(h, Start(h, None, None), RecopyingRun(x, y));
            AtRest(h, s) && !Crossed(s) && s.a.clip == Some(y) && s.b.clip == Some(x) && x != y
  {
    hide Wire, Unwire, AtRest, Next;
    var s0 := Start(h, None, None);
    RecopyingEnd(h, x, y);
    PlayIsExec(h, s0, RecopyingRun(x, y));
    RestIsQuiet(h, Exec(h, s0, RecopyingRun(x, y)));
  }

  // ---------- running out of event slots ----------

  /** A copies each content in turn, and each exchange is left to finish before the next copy. */
  function Rounds(contents: seq<Content>): seq<Turn> {
    if contents == [] then []
    else Rounds(contents[..|contents| - 1]) + (CopyAndAnnounce(A, contents[|contents| - 1]) + Exchange(A))
  }

  /** Each content differs in hash from the one before. */
  predicate Varied(h: HashFn, contents: seq<Content>) {
    contents == [] ||
    (var n := |contents| - 1;
     && contents[n].WellFormed() && contents[n].Hash(h) != 0
     && (n > 0 ==> contents[n].Hash(h) != contents[n - 1].Hash(h))
     && Varied(h, contents[..n]))
  }

  lemma {:induction false} PlayBoth(h: HashFn, s: System, xs: seq<Turn>, ys: seq<Turn>)
    ensures Play(h, s, xs + ys) == Play(h, Play(h, s, xs), ys)
    decreases |xs|
  {
    hide Next;
    if xs == [] {
      assert xs + ys == ys;
    } else {
      PlayBoth(h, Next(h, s, xs[0]), xs[1..], ys);
      assert (xs + ys)[1..] == xs[1..] + ys;
    }
  }

  /** Where a session stands after rounds 1 to k, the last content being c. */
  predicate AfterRounds(h: HashFn, s: System, k: nat, c: Option<Content>) {
    && s.ab == [] && s.ba == []
    && s.a.clip == s.b.clip == c && s.a.watched == s.b.watched == ClipHash(h, c)
    && s.a.queue == s.b.queue == [] && s.a.lastRemote == 0
    && s.a.mode.Idle? && s.a.events == s.b.events == (if k <= EVENT_SLOTS then k else EVENT_SLOTS)
    && s.a.outBlocked == (k > EVENT_SLOTS) && !s.b.outBlocked
    && s.b.mode == (if k > EVENT_SLOTS then Unacknowledged else Idle)
    && s.a.itemsSent == s.b.itemsReceived == k && s.a.itemsReceived == s.b.itemsSent == 0
  }

  lemma OneRound(h: HashFn, s: System, k: nat, before: Option<Content>, c: Content)
    requires AfterRounds(h, s, k, before) && k <= EVENT_SLOTS
    requires c.WellFormed() && c.Hash(h) != 0 && c.Hash(h) != ClipHash(h, before)
    ensures AfterRounds(h, Play(h, s, CopyAndAnnounce(A, c) + Exchange(A)), k + 1, Some(c))
  {
    hide Wire, Unwire, Next, Notice, Play;
    Announces(h, s, A, c, Exchange(A));
    assert s.ab + [Notice(c, c.Hash(h))] == [Notice(c, c.Hash(h))];
    var s1 := s.(a := Announced(h, s.a, c), ab := [Notice(c, c.Hash(h))]);
    Exchanged(h, s1, A, c, []);
    assert Exchange(A) + [] == Exchange(A);
    var s2 := System(s1.a, Received(h, s1.b, c), [], []);
    assert Play(h, s2, []) == s2 by { PlayNothing(h, s2); }
  }

  lemma PlayNothing(h: HashFn, s: System)
    ensures Play(h, s, []) == s
  {
  }

  lemma {:induction false} RoundsPlayed(h: HashFn, contents: seq<Content>)
    requires Varied(h, contents) && |contents| <= EVENT_SLOTS + 1
    ensures AfterRounds(h, Play(h, Start(h, None, None), Rounds(contents)), |contents|,
                        if contents == [] then None else Some(contents[|contents| - 1]))
  {
    hide Next, AfterRounds;
    var s0 := Start(h, None, None);
    if contents == [] {
      assert AfterRounds(h, s0, 0, None) by { NoRounds(h); }
    } else {
      var n := |contents| - 1;
      RoundsPlayed(h, contents[..n]);
      var before := if n == 0 then None else Some(contents[n - 1]);
      OneRound(h, Play(h, s0, Rounds(contents[..n])), n, before, contents[n]);
      PlayBoth(h, s0, Rounds(contents[..n]), CopyAndAnnounce(A, contents[n]) + Exchange(A));
    }
  }

  lemma NoRounds(h: HashFn)
    ensures AfterRounds(h, Start(h, None, None), 0, None)
  {
  }

  /** One writer, one exchange at a time: the 33rd copy arrives but is not acknowledged, and the 34th
      is polled and never announced. Nothing has crossed, no turn can do anything, a change is queued
      and the clipboards differ. */
  lemma EventsRunOut(h: HashFn, contents: seq<Content>)
    requires Varied(h, contents) && |contents| == 34
    ensures var run := Rounds(contents[..33]) + CopyAndAnnounce(A, contents[33]);
            var s := Exec(h, Start(h, None, None), run);
            && AtRest(h, s) && !Crossed(s) && !Complete(h, s)
            && s.a.outBlocked && s.b.mode.Unacknowledged? && |s.a.queue| == 1
            && s.a.clip == Some(contents[33]) && s.b.clip == Some(contents[32])
            && s.a.clip != s.b.clip
  {
    hide Next, AtRest, Play, Rounds, Exec;
    var s0, n, c := Start(h, None, None), 33, contents[33];
    var rounds := Rounds(contents[..n]);
    RoundsPlayed(h, contents[..n]);
    var s1 := Play(h, s0, rounds);
    Unheard(h, s1, A, c);
    PlayBoth(h, s0, rounds, CopyAndAnnounce(A, c));
    PlayIsExec(h, s0, rounds + CopyAndAnnounce(A, c));
    RestIsQuiet(h, s1.(a := Unannounced(h, s1.a, c)));
  }
}
