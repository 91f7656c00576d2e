/**
 Three short runs that show what the results on live sync cannot promise: two announcements
 can cross and block both peers for good, two writers can end with each other's content, and
 one writer mixing kinds of content can leave the reader with the wrong kind.
 */
module SyncWitness {
  import opened Wrappers
  import opened Clipboard
  import opened SyncProtocol
  import opened SyncProgress

  /** Exec, read from the first turn on. */
  function Play(h: HashFn, s: System, turns: seq<Turn>): System
    decreases |turns|
  {
    if turns == [] then s else Play(h, Next(h, s, turns[0]), turns[1..])
  }

  lemma {:induction false} PlayIsExec(h: HashFn, s: System, turns: seq<Turn>)
    ensures Play(h, s, turns) == Exec(h, s, turns)
    decreases |turns|
  {
    if turns != [] {
      PlayIsExec(h, Next(h, s, turns[0]), turns[1..]);
      ExecFrom(h, s, turns[0], turns[1..]);
      assert [turns[0]] + turns[1..] == turns;
    }
  }

  lemma PlayDrop(h: HashFn, s: System, turns: seq<Turn>, k: nat)
    requires k < |turns|
    ensures Play(h, s, turns[k..]) == Play(h, Next(h, s, turns[k]), turns[k + 1..])
  {
    hide Next;
    assert turns[k..][1..] == turns[k + 1..];
  }

  // ---------- the inbound steps, one by one ----------

  lemma TakesNotice(h: HashFn, s: System)
    requires s.a.mode.Idle? && s.ba != [] && s.ba[0].Changed?
    ensures MoveA(h, s, Inbound) ==
            s.(a := s.a.(mode := Waiting(s.ba[0].ctype)), ab := s.ab + [Request], ba := s.ba[1..])
  {
  }

  lemma TakesRequest(h: HashFn, s: System)
    requires s.a.mode.Idle? && s.a.cache.Some? && s.ba != [] && s.ba[0].Request?
    ensures MoveA(h, s, Inbound) == s.(ab := s.ab + [Data(Wire(s.a.cache.value.content))], ba := s.ba[1..])
  {
    hide Wire, Unwire;
  }

  lemma TakesData(h: HashFn, s: System)
    requires s.a.mode.Waiting? && s.ba != [] && s.ba[0].Data?
    ensures var (p, out) := ReceivedPeer(h, s.a, Unwire(s.a.mode.ctype, s.ba[0].payload));
            MoveA(h, s, Inbound) == s.(a := p, ab := s.ab + out, ba := s.ba[1..])
  {
    hide Wire, Unwire, ReceivedPeer;
  }

  lemma NothingToRead(h: HashFn, s: System)
    requires s.ba == []
    ensures MoveA(h, s, Inbound) == s
  {
  }

  lemma Ignores(h: HashFn, s: System)
    requires s.ba != [] && ((s.a.mode.Idle? && s.ba[0].Ack?) ||
                           (s.a.mode.Waiting? && (s.ba[0].Changed? || s.ba[0].Ack?)))
    ensures MoveA(h, s, Inbound) == s.(ba := s.ba[1..])
  {
    hide Wire, Unwire;
    assert s.ab + [] == s.ab;
  }

  /** One side copies c, polls and announces. */
  function CopyAndAnnounce(side: Side, c: Content): seq<Turn> {
    [Turn(side, Copy(c)), Turn(side, Poll), Turn(side, Outbound)]
  }

  /** A peer after it copied and announced c, its clipboard so far unreported or foreign. */
  function Announced(h: HashFn, p: Peer, c: Content): Peer {
    p.(clip := Some(c), watched := c.Hash(h), lastLocal := c.Hash(h), cache := Some(Change(c, c.Hash(h))),
       events := MoreEvents(p), outBlocked := EventsFull(p),
       itemsSent := p.itemsSent + 1, bytesSent := p.bytesSent + c.Size())
  }

  predicate CanAnnounce(h: HashFn, p: Peer, c: Content) {
    p.queue == [] && !p.outBlocked && c.Hash(h) != 0 && c.Hash(h) != p.watched && c.Hash(h) != p.lastRemote
  }

  lemma AnnouncesA(h: HashFn, s: System, c: Content)
    requires CanAnnounce(h, s.a, c)
    ensures var s1 := MoveA(h, s, Copy(c)); var s2 := MoveA(h, s1, Poll);
            MoveA(h, s2, Outbound) == s.(a := Announced(h, s.a, c), ab := s.ab + [Notice(c, c.Hash(h))])
  {
    hide Wire, Unwire;
    var s1 := MoveA(h, s, Copy(c));
    var s2 := MoveA(h, s1, Poll);
    assert s2.a.queue == [Change(c, c.Hash(h))];
    assert s2.a.queue[1..] == s.a.queue;
  }

  lemma Announces(h: HashFn, s: System, side: Side, c: Content, rest: seq<Turn>)
    requires CanAnnounce(h, if side == A then s.a else s.b, c)
    ensures Play(h, s, CopyAndAnnounce(side, c) + rest) ==
            Play(h, if side == A then s.(a := Announced(h, s.a, c), ab := s.ab + [Notice(c, c.Hash(h))])
                    else s.(b := Announced(h, s.b, c), ba := s.ba + [Notice(c, c.Hash(h))]), rest)
  {
    hide MoveA;
    var turns := CopyAndAnnounce(side, c) + rest;
    PlayDrop(h, s, turns, 0);
    var s1 := Next(h, s, turns[0]);
    PlayDrop(h, s1, turns, 1);
    var s2 := Next(h, s1, turns[1]);
    PlayDrop(h, s2, turns, 2);
    assert turns[0..] == turns && turns[3..] == rest;
    AnnouncesA(h, if side == A then s else Swap(s), c);
  }

  /** A peer after content c arrived for the notification it waits on. */
  function Received(h: HashFn, p: Peer, c: Content): Peer {
    ReceivedPeer(h, p, Some(c)).0
  }

  // ---------- crossed announcements ----------

  function CrossingRun(x: Content, y: Content): seq<Turn> {
    CopyAndAnnounce(A, x) + (CopyAndAnnounce(B, y) + [Turn(A, Inbound), Turn(B, Inbound)])
  }

  /** Two copies announced at the same time leave both peers waiting for good. */
  lemma CrossingHappens(h: HashFn, x: Content, y: Content)
    requires x.Hash(h) != 0 && y.Hash(h) != 0
    ensures Crossed(Exec(h, Start(h, None, None), CrossingRun(x, y)))
  {
    hide Wire, Unwire, Next, Crossed;
    var s0, last := Start(h, None, None), [Turn(A, Inbound), Turn(B, Inbound)];
    Announces(h, s0, A, x, CopyAndAnnounce(B, y) + last);
    var s1 := s0.(a := Announced(h, s0.a, x), ab := s0.ab + [Notice(x, x.Hash(h))]);
    Announces(h, s1, B, y, last);
    var s2 := s1.(b := Announced(h, s1.b, y), ba := s1.ba + [Notice(y, y.Hash(h))]);
    assert s2.ab == [Notice(x, x.Hash(h))] && s2.ba == [Notice(y, y.Hash(h))];
    BothTake(h, s2, x, y);
    PlayIsExec(h, s0, CrossingRun(x, y));
  }

  lemma OnlyRequest(ch: seq<Frame>)
    requires ch == [Request]
    ensures Count(ch, KData) == 0
  {
    assert ch[1..] == [];
  }

  lemma BothTake(h: HashFn, s: System, x: Content, y: Content)
    requires s.a.mode.Idle? && s.b.mode.Idle?
    requires s.ab == [Notice(x, x.Hash(h))] && s.ba == [Notice(y, y.Hash(h))]
    ensures Crossed(Play(h, s, [Turn(A, Inbound), Turn(B, Inbound)]))
  {
    hide Wire, Unwire, MoveA, Count;
    var last := [Turn(A, Inbound), Turn(B, Inbound)];
    TakesNotice(h, s);
    var s1 := Next(h, s, last[0]);
    assert s1.ab == [Notice(x, x.Hash(h)), Request] && s1.ba == [];
    TakesNotice(h, Swap(s1));
    var s2 := Next(h, s1, last[1]);
    assert s2.ab == [Request] && s2.ba == [Request];
    OnlyRequest(s2.ab);
    OnlyRequest(s2.ba);
    PlayDrop(h, s, last, 0);
    PlayDrop(h, s1, last, 1);
    assert last[0..] == last && last[2..] == [];
    assert Play(h, s, last) == s2;
  }

  // ---------- two writers ----------

  const EXCHANGE: seq<Turn> :=
    [Turn(A, Inbound), Turn(A, Inbound), Turn(B, Inbound), Turn(B, Inbound),
     Turn(A, Inbound), Turn(A, Inbound), Turn(B, Inbound)]

  /** B's user copies between B's request and A's answer; from then on every frame is handled at once. */
  function SwappingRun(x: Content, y: Content): seq<Turn> {
    CopyAndAnnounce(A, x) + ([Turn(B, Inbound)] + (CopyAndAnnounce(B, y) + EXCHANGE))
  }

  /** Both notifications are out, B's request ahead of its own. */
  function BothAnnounced(h: HashFn, x: Content, y: Content): System {
    var p := StartPeer(h, None);
    System(Announced(h, p, x), Announced(h, p.(mode := Waiting(x.Type())), y),
           [], [Request, Notice(y, y.Hash(h))])
  }

  /** A announces c to a fresh B, which takes the notification and asks. */
  function FirstAsked(h: HashFn, c: Content): System {
    var p := StartPeer(h, None);
    System(Announced(h, p, c), p.(mode := Waiting(c.Type())), [], [Request])
  }

  lemma FirstNoticeTaken(h: HashFn, c: Content, rest: seq<Turn>)
    requires c.Hash(h) != 0
    ensures Play(h, Start(h, None, None), CopyAndAnnounce(A, c) + ([Turn(B, Inbound)] + rest)) ==
            Play(h, FirstAsked(h, c), rest)
  {
    hide Wire, Unwire;
    var s0, turns := Start(h, None, None), [Turn(B, Inbound)] + rest;
    Announces(h, s0, A, c, turns);
    var s1 := s0.(a := Announced(h, s0.a, c), ab := s0.ab + [Notice(c, c.Hash(h))]);
    assert s1.ab == [Notice(c, c.Hash(h))];
    assert Next(h, s1, Turn(B, Inbound)) == FirstAsked(h, c);
    PlayDrop(h, s1, turns, 0);
    assert turns[0..] == turns && turns[1..] == rest;
  }

  lemma SwappingPrefix(h: HashFn, x: Content, y: Content)
    requires x.Hash(h) != 0 && y.Hash(h) != 0
    ensures Play(h, Start(h, None, None), SwappingRun(x, y)) == Play(h, BothAnnounced(h, x, y), EXCHANGE)
  {
    hide Next, Wire, Unwire;
    FirstNoticeTaken(h, x, CopyAndAnnounce(B, y) + EXCHANGE);
    Announces(h, FirstAsked(h, x), B, y, EXCHANGE);
    assert [Request] + [Notice(y, y.Hash(h))] == [Request, Notice(y, y.Hash(h))];
  }

  /** B has applied x and is about to answer A's request, which A sent after answering B's. */
  function HalfSwapped(h: HashFn, x: Content, y: Content): System {
    var p := StartPeer(h, None);
    System(Announced(h, p, x).(mode := Waiting(y.Type())), Received(h, Announced(h, p, y), x), [Request], [Ack(true)])
  }

  lemma FirstHalf(h: HashFn, x: Content, y: Content)
    requires x.WellFormed()
    ensures Play(h, BothAnnounced(h, x, y), EXCHANGE) == Play(h, HalfSwapped(h, x, y), EXCHANGE[3..])
  {
    UnwireWire(x.Type(), x);
    hide Wire, Unwire, MoveA, Play;
    var s0 := BothAnnounced(h, x, y);
    var s1 := s0.(ab := [Data(Wire(x))], ba := [Notice(y, y.Hash(h))]);
    var s2 := s1.(a := s1.a.(mode := Waiting(y.Type())), ab := [Data(Wire(x)), Request], ba := []);
    assert Next(h, s0, EXCHANGE[0]) == s1 by { TakesRequest(h, s0); }
    assert Next(h, s1, EXCHANGE[1]) == s2 by { TakesNotice(h, s1); }
    assert Next(h, s2, EXCHANGE[2]) == HalfSwapped(h, x, y) by { TakesData(h, Swap(s2)); }
    PlayDrop(h, s0, EXCHANGE, 0);
    PlayDrop(h, s1, EXCHANGE, 1);
    PlayDrop(h, s2, EXCHANGE, 2);
    assert EXCHANGE[0..] == EXCHANGE;
  }

  lemma SecondHalf(h: HashFn, x: Content, y: Content)
    requires y.WellFormed()
    ensures var p := StartPeer(h, None);
            Play(h, HalfSwapped(h, x, y), EXCHANGE[3..]) ==
            System(Received(h, Announced(h, p, x), y), Received(h, Announced(h, p, y), x), [], [])
  {
    UnwireWire(y.Type(), y);
    hide Wire, Unwire, MoveA;
    var s3 := HalfSwapped(h, x, y);
    var s4 := s3.(ab := [], ba := [Ack(true), Data(Wire(y))]);
    var s5 := s4.(ba := [Data(Wire(y))]);
    var s6 := s5.(a := Received(h, s5.a, y), ab := [Ack(true)], ba := []);
    var s7 := s6.(ab := []);
    assert Next(h, s3, EXCHANGE[3]) == s4 by { TakesRequest(h, Swap(s3)); }
    assert Next(h, s4, EXCHANGE[4]) == s5 by { Ignores(h, s4); }
    assert Next(h, s5, EXCHANGE[5]) == s6 by { TakesData(h, s5); }
    assert Next(h, s6, EXCHANGE[6]) == s7 by { Ignores(h, Swap(s6)); }
    PlayDrop(h, s3, EXCHANGE, 3);
    PlayDrop(h, s4, EXCHANGE, 4);
    PlayDrop(h, s5, EXCHANGE, 5);
    PlayDrop(h, s6, EXCHANGE, 6);
    assert EXCHANGE[7..] == [];
  }

  /** Two writers need not converge: without any crossing, each can end with the other's content. */
  lemma TwoWritersCanSwap(h: HashFn, x: Content, y: Content)
    requires x.WellFormed() && y.WellFormed() && x != y && x.Hash(h) != 0 && y.Hash(h) != 0
    ensures var s := Exec(h, Start(h, None, None), SwappingRun(x, y));
            AtRest(h, s) && !Crossed(s) && s.a.clip == Some(y) && s.b.clip == Some(x) && s.a.clip != s.b.clip
  {
    hide Wire, Unwire, AtRest, Next;
    var s0 := Start(h, None, None);
    SwappingPrefix(h, x, y);
    FirstHalf(h, x, y);
    SecondHalf(h, x, y);
    PlayIsExec(h, s0, SwappingRun(x, y));
    RestIsQuiet(h, Exec(h, s0, SwappingRun(x, y)));
  }

  // ---------- one writer, two kinds of content ----------

  const CATCH_UP: seq<Turn> := [Turn(B, Inbound), Turn(A, Inbound), Turn(B, Inbound), Turn(A, Inbound)]

  function MixedRun(t: Content, m: Content): seq<Turn> {
    CopyAndAnnounce(A, t) + ([Turn(B, Inbound)] + (CopyAndAnnounce(A, m) + CATCH_UP))
  }

  /** An image copied while B's request for a text is on its way is read as text, or not at all. */
  lemma MixedTypesCanDiverge(h: HashFn, t: Content, m: Content)
    requires t.Text? && m.Image? && t.Hash(h) != 0 && m.Hash(h) != 0 && t.Hash(h) != m.Hash(h)
    ensures var s := Exec(h, Start(h, None, None), MixedRun(t, m));
            && AtRest(h, s) && s.a.clip == Some(m)
            && s.b.clip == (if IsUtf8(m.data) then Some(Text(m.data)) else None)
  {
    hide Wire, Unwire, AtRest, Next;
    FirstNoticeTaken(h, t, CopyAndAnnounce(A, m) + CATCH_UP);
    var s2 := FirstAsked(h, t);
    Announces(h, s2, A, m, CATCH_UP);
    var s3 := s2.(a := Announced(h, s2.a, m), ab := s2.ab + [Notice(m, m.Hash(h))]);
    assert s3.ab == [Notice(m, m.Hash(h))];
    CatchesUp(h, s3, m);
    var s0 := Start(h, None, None);
    PlayIsExec(h, s0, MixedRun(t, m));
    RestIsQuiet(h, Exec(h, s0, MixedRun(t, m)));
  }

  lemma CatchesUp(h: HashFn, s: System, m: Content)
    requires s.a.mode.Idle? && s.a.cache == Some(Change(m, m.Hash(h))) && s.ba == [Request] && s.b.mode == Waiting(PlainText)
    requires s.ab == [Notice(m, m.Hash(h))] && m.Image? && !EventsFull(s.b)
    ensures Play(h, s, CATCH_UP) ==
            System(s.a, ReceivedPeer(h, s.b, if IsUtf8(m.data) then Some(Text(m.data)) else None).0, [], [])
  {
    UnwireWire(PlainText, m);
    hide Wire, Unwire, MoveA;
    var content := Unwire(PlainText, Wire(m));
    var s1 := s.(ab := []);
    var s2 := s1.(ab := [Data(Wire(m))], ba := []);
    var s3 := System(s.a, ReceivedPeer(h, s.b, content).0, [], [Ack(true)]);
    var s4 := s3.(ba := []);
    assert Next(h, s, CATCH_UP[0]) == s1 by { Ignores(h, Swap(s)); }
    assert Next(h, s1, CATCH_UP[1]) == s2 by { TakesRequest(h, s1); }
    assert Next(h, s2, CATCH_UP[2]) == s3 by { TakesData(h, Swap(s2)); }
    assert Next(h, s3, CATCH_UP[3]) == s4 by { Ignores(h, s3); }
    PlayDrop(h, s, CATCH_UP, 0);
    PlayDrop(h, s1, CATCH_UP, 1);
    PlayDrop(h, s2, CATCH_UP, 2);
    PlayDrop(h, s3, CATCH_UP, 3);
    assert CATCH_UP[0..] == CATCH_UP && CATCH_UP[4..] == [];
  }

  // ---------- one exchange at a time ----------

  function Other(side: Side): Side {
    if side == A then B else A
  }

  /** The four inbound turns of one undisturbed exchange. */
  function Exchange(announcer: Side): seq<Turn> {
    [Turn(Other(announcer), Inbound), Turn(announcer, Inbound), Turn(Other(announcer), Inbound), Turn(announcer, Inbound)]
  }

  /** Both at their outer read, x's notification of c alone on its way. */
  predicate JustAnnounced(h: HashFn, x: Peer, y: Peer, xy: seq<Frame>, yx: seq<Frame>, c: Content) {
    && x.mode.Idle? && y.mode.Idle? && x.cache == Some(Change(c, c.Hash(h)))
    && xy == [Notice(c, c.Hash(h))] && yx == []
  }

  lemma ExchangedA(h: HashFn, s: System, c: Content)
    requires JustAnnounced(h, s.a, s.b, s.ab, s.ba, c) && c.WellFormed()
    ensures var s1 := Swap(MoveA(h, Swap(s), Inbound)); var s2 := MoveA(h, s1, Inbound);
            var s3 := Swap(MoveA(h, Swap(s2), Inbound));
            MoveA(h, s3, Inbound) == System(s.a, Received(h, s.b, c), [], [])
  {
    UnwireWire(c.Type(), c);
    hide Wire, Unwire, MoveA;
    var s1 := s.(b := s.b.(mode := Waiting(c.Type())), ab := [], ba := [Request]);
    var s2 := s1.(ab := [Data(Wire(c))], ba := []);
    var s3 := System(s.a, Received(h, s.b, c), [], if EventsFull(s.b) then [] else [Ack(true)]);
    assert Swap(MoveA(h, Swap(s), Inbound)) == s1 by { TakesNotice(h, Swap(s)); }
    assert MoveA(h, s1, Inbound) == s2 by { TakesRequest(h, s1); }
    assert Swap(MoveA(h, Swap(s2), Inbound)) == s3 by { TakesData(h, Swap(s2)); }
    if EventsFull(s.b) {
      NothingToRead(h, s3);
    } else {
      Ignores(h, s3);
    }
  }

  lemma Exchanged(h: HashFn, s: System, announcer: Side, c: Content, rest: seq<Turn>)
    requires c.WellFormed()
    requires if announcer == A then JustAnnounced(h, s.a, s.b, s.ab, s.ba, c) else JustAnnounced(h, s.b, s.a, s.ba, s.ab, c)
    ensures Play(h, s, Exchange(announcer) + rest) ==
            Play(h, if announcer == A then System(s.a, Received(h, s.b, c), [], [])
                    else System(Received(h, s.a, c), s.b, [], []), rest)
  {
    hide MoveA, Received;
    var turns := Exchange(announcer) + rest;
    PlayDrop(h, s, turns, 0);
    var s1 := Next(h, s, turns[0]);
    PlayDrop(h, s1, turns, 1);
    var s2 := Next(h, s1, turns[1]);
    PlayDrop(h, s2, turns, 2);
    var s3 := Next(h, s2, turns[2]);
    PlayDrop(h, s3, turns, 3);
    assert turns[0..] == turns && turns[4..] == rest;
    ExchangedA(h, if announcer == A then s else Swap(s), c);
  }
}
