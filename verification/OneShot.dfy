/**
 The one-shot clipboard exchange after its handshake: the sender offers its content and answers
 pings until the receiver accepts or declines; the receiver's keep-alive task may ping any number
 of times before it hands the stream back. Frames are FIFO; timeouts are not modelled.
 */
module OneShot {
  import opened Wrappers
  import opened Clipboard

  datatype Frame =
    | Meta(ctype: ContentType, size: nat, checksum: u64)
    | Data(payload: seq<byte>)
    | Ack(success: bool)
    | Complete
    | Ping
    | Pong

  datatype Error = Unexpected | Rejected | Cancelled | TooShort | BadContent | ChecksumMismatch

  /** The sender: about to announce, waiting for the receiver's decision, waiting for the final
      acknowledgement, or finished. */
  datatype Sender = Announcing | Offering | Delivering | Sent | SendFailed(error: Error)

  /** The receiver: waiting for the metadata, holding the stream while the user decides, waiting
      for the reply to a ping, waiting for the content, for the sender's completion, or finished. */
  datatype Receiver =
    | Connecting
    | Holding(meta: Frame)
    | Pinging(meta: Frame)
    | Accepting(meta: Frame)
    | Confirming(content: Content)
    | Received(content: Content)
    | Declined
    | ReceiveFailed(error: Error)

  function MetaOf(h: HashFn, c: Content): Frame {
    Meta(c.Type(), c.Size(), c.Hash(h))
  }

  /** One frame read by the sender: its next state and what it writes. */
  function SenderReads(c: Content, s: Sender, f: Frame): (Sender, seq<Frame>) {
    match s
    case Offering =>
      (match f
       case Ack(true) => (Delivering, [Data(Wire(c))])
       case Ack(false) => (SendFailed(Rejected), [])
       case Ping => (Offering, [Pong])
       case _ => (SendFailed(Unexpected), []))
    case Delivering =>
      (match f
       case Ack(true) => (Sent, [Complete])
       case Ack(false) => (SendFailed(Cancelled), [])
       case _ => (SendFailed(Unexpected), []))
    case _ => (s, [])
  }

  /** The received content is checked against the metadata before it is confirmed. */
  function TakeContent(h: HashFn, meta: Frame, payload: seq<byte>): (Receiver, seq<Frame>)
    requires meta.Meta?
  {
    if |payload| < 8 then (ReceiveFailed(TooShort), [])
    else
      match Unwire(meta.ctype, payload)
      case None => (ReceiveFailed(BadContent), [])
      case Some(content) =>
        if content.Hash(h) != meta.checksum then (ReceiveFailed(ChecksumMismatch), [Ack(false)])
        else (Confirming(content), [Ack(true)])
  }

  /** One frame read by the receiver. The keep-alive task takes whatever answers its ping. */
  function ReceiverReads(h: HashFn, r: Receiver, f: Frame): (Receiver, seq<Frame>) {
    match r
    case Connecting => if f.Meta? then (Holding(f), []) else (ReceiveFailed(Unexpected), [])
    case Pinging(meta) => (Holding(meta), [])
    case Accepting(meta) =>
      if f.Data? && meta.Meta? then TakeContent(h, meta, f.payload) else (ReceiveFailed(Unexpected), [])
    case Confirming(content) => if f.Complete? then (Received(content), []) else (ReceiveFailed(Unexpected), [])
    case _ => (r, [])
  }

  predicate SenderFinished(s: Sender) {
    s.Sent? || s.SendFailed?
  }

  predicate ReceiverReading(r: Receiver) {
    r.Connecting? || r.Pinging? || r.Accepting? || r.Confirming?
  }

  datatype System = System(sender: Sender, receiver: Receiver, down: seq<Frame>, up: seq<Frame>)

  /** Steps of the two programs, and the choices of the receiver's timer and user. */
  datatype Move = SenderStep | ReceiverStep | Tick | Accept | Decline

  const START := System(Announcing, Connecting, [], [])

  function Next(h: HashFn, c: Content, s: System, m: Move): System {
    match m
    case SenderStep =>
      if s.sender.Announcing? then s.(sender := Offering, down := s.down + [MetaOf(h, c)])
      else if s.up == [] || SenderFinished(s.sender) then s
      else
        var (sender, out) := SenderReads(c, s.sender, s.up[0]);
        s.(sender := sender, down := s.down + out, up := s.up[1..])
    case ReceiverStep =>
      if s.down == [] || !ReceiverReading(s.receiver) then s
      else
        var (receiver, out) := ReceiverReads(h, s.receiver, s.down[0]);
        s.(receiver := receiver, down := s.down[1..], up := s.up + out)
    case Tick =>
      if s.receiver.Holding? then s.(receiver := Pinging(s.receiver.meta), up := s.up + [Ping]) else s
    case Accept =>
      if s.receiver.Holding? then s.(receiver := Accepting(s.receiver.meta), up := s.up + [Ack(true)]) else s
    case Decline =>
      if s.receiver.Holding? then s.(receiver := Declined, up := s.up + [Ack(false)]) else s
  }

  function Exec(h: HashFn, c: Content, sched: seq<Move>): System
    decreases |sched|
  {
    if sched == [] then START
    else Next(h, c, Exec(h, c, sched[..|sched| - 1]), sched[|sched| - 1])
  }

  /** Every state a run can reach, the number of pings aside. */
  ghost predicate Reachable(h: HashFn, c: Content, s: System) {
    var meta := MetaOf(h, c);
    || s == START
    || s == System(Offering, Connecting, [meta], [])
    || s == System(Offering, Holding(meta), [], [])
    || s == System(Offering, Pinging(meta), [], [Ping])
    || s == System(Offering, Pinging(meta), [Pong], [])
    || s == System(Offering, Accepting(meta), [], [Ack(true)])
    || s == System(Delivering, Accepting(meta), [Data(Wire(c))], [])
    || s == System(Delivering, Confirming(c), [], [Ack(true)])
    || s == System(Sent, Confirming(c), [Complete], [])
    || s == System(Sent, Received(c), [], [])
    || s == System(Offering, Declined, [], [Ack(false)])
    || s == System(SendFailed(Rejected), Declined, [], [])
  }

  lemma SenderStaysReachable(h: HashFn, c: Content, s: System)
    requires Reachable(h, c, s)
    ensures Reachable(h, c, Next(h, c, s, SenderStep))
  {
    hide Wire, Unwire, ReceiverReads, TakeContent;
    assert forall f: Frame :: [f][1..] == [] && [] + [f] == [f];
  }

  lemma ReceiverStaysReachable(h: HashFn, c: Content, s: System)
    requires c.WellFormed() && Reachable(h, c, s)
    ensures Reachable(h, c, Next(h, c, s, ReceiverStep))
  {
    UnwireWire(c.Type(), c);
    hide Wire, Unwire, SenderReads;
    assert forall f: Frame :: [f][1..] == [] && [] + [f] == [f];
  }

  lemma StepStaysReachable(h: HashFn, c: Content, s: System, m: Move)
    requires c.WellFormed() && Reachable(h, c, s)
    ensures Reachable(h, c, Next(h, c, s, m))
  {
    if m.SenderStep? {
      hide Reachable, Next;
      SenderStaysReachable(h, c, s);
    } else if m.ReceiverStep? {
      hide Reachable, Next;
      ReceiverStaysReachable(h, c, s);
    } else {
      hide Wire, Unwire, SenderReads, ReceiverReads;
      assert forall f: Frame :: [] + [f] == [f];
    }
  }

  lemma {:induction false} RunStaysReachable(h: HashFn, c: Content, sched: seq<Move>)
    requires c.WellFormed()
    ensures Reachable(h, c, Exec(h, c, sched))
    decreases |sched|
  {
    if sched != [] {
      var n := |sched| - 1;
      RunStaysReachable(h, c, sched[..n]);
      StepStaysReachable(h, c, Exec(h, c, sched[..n]), sched[n]);
    }
  }

  /** For any number of pings: nobody meets an unexpected frame; when the stream is handed back no
      Pong (nor anything else) is on its way; content arrives intact; after a decline the sender
      is rejected and no content was ever sent. */
  lemma ExchangeIsSafe(h: HashFn, c: Content, sched: seq<Move>)
    requires c.WellFormed()
    ensures var s := Exec(h, c, sched);
            && !s.receiver.ReceiveFailed?
            && (s.sender.SendFailed? ==> s.sender.error == Rejected && s.receiver.Declined?)
            && (s.receiver.Holding? ==> s.down == [] && s.up == [])
            && (s.receiver.Received? || s.sender.Sent? ==>
                  s.sender.Sent? && (s.receiver == Received(c) || s.receiver == Confirming(c)))
            && (s.receiver.Declined? ==>
                  (s.sender.Offering? || s.sender == SendFailed(Rejected)) && s.down == [])
  {
    RunStaysReachable(h, c, sched);
  }

  /** Steps left to the two programs until the user's next choice or the end. */
  function StepsLeft(s: System): nat {
    match s.receiver
    case Connecting => if s.sender.Announcing? then 2 else 1
    case Pinging(_) => if s.down == [] then 2 else 1
    case Accepting(_) => if s.sender.Offering? then 5 else 4
    case Confirming(_) => if s.sender.Delivering? then 3 else 2
    case Received(_) => 0
    case Declined => if s.sender.Offering? then 1 else 0
    case _ => 0
  }

  lemma ProgramStepCounts(h: HashFn, c: Content, s: System, m: Move)
    requires c.WellFormed() && Reachable(h, c, s)
    requires (m.SenderStep? || m.ReceiverStep?) && Next(h, c, s, m) != s
    ensures StepsLeft(Next(h, c, s, m)) < StepsLeft(s)
  {
    UnwireWire(c.Type(), c);
    hide Wire, Unwire;
    assert forall f: Frame :: [f][1..] == [];
  }

  /** The user is choosing, or the exchange is over in one of its two ways. */
  predicate AwaitsUserOrDone(c: Content, s: System) {
    || s.receiver.Holding?
    || (s.receiver == Received(c) && s.sender.Sent?)
    || (s.receiver.Declined? && s.sender == SendFailed(Rejected))
  }

  lemma StuckMeansDone(h: HashFn, c: Content, s: System)
    requires Reachable(h, c, s)
    requires Next(h, c, s, SenderStep) == s && Next(h, c, s, ReceiverStep) == s
    ensures AwaitsUserOrDone(c, s)
  {
    hide Wire, Unwire;
    assert |Next(h, c, s, SenderStep).up| == |s.up| && |Next(h, c, s, ReceiverStep).down| == |s.down|;
  }

  /** The exchange never hangs: a program step that does something brings it closer to the user's
      next choice or the end, and when none does, the user is choosing or both sides are done. */
  lemma ExchangeCompletes(h: HashFn, c: Content, sched: seq<Move>)
    requires c.WellFormed()
    ensures var s := Exec(h, c, sched);
            forall m: Move :: (m.SenderStep? || m.ReceiverStep?) && Next(h, c, s, m) != s ==>
              StepsLeft(Next(h, c, s, m)) < StepsLeft(s)
    ensures var s := Exec(h, c, sched);
            Next(h, c, s, SenderStep) == s && Next(h, c, s, ReceiverStep) == s ==> AwaitsUserOrDone(c, s)
  {
    hide Next, Reachable, StepsLeft;
    RunStaysReachable(h, c, sched);
    var s := Exec(h, c, sched);
    forall m: Move | (m.SenderStep? || m.ReceiverStep?) && Next(h, c, s, m) != s
      ensures StepsLeft(Next(h, c, s, m)) < StepsLeft(s)
    {
      ProgramStepCounts(h, c, s, m);
    }
    if Next(h, c, s, SenderStep) == s && Next(h, c, s, ReceiverStep) == s {
      StuckMeansDone(h, c, s);
    }
  }

  // ---------- the sender's program ----------

  /** The sender, once it has announced, on a list of frames: its state, what it wrote, what it left unread. */
  function SenderTask(c: Content, s: Sender, frames: seq<Frame>): (Sender, seq<Frame>, seq<Frame>)
    decreases |frames|
  {
    if frames == [] || SenderFinished(s) then (s, [], frames)
    else
      var (s1, out) := SenderReads(c, s, frames[0]);
      var (s2, rest, unread) := SenderTask(c, s1, frames[1..]);
      (s2, out + rest, unread)
  }

  /** From state s on the frames, the sender has come to s1 with some output and the rest unread. */
  ghost predicate Continues(c: Content, s: Sender, frames: seq<Frame>, s1: Sender, output: seq<Frame>, unread: seq<Frame>) {
    var whole, rest := SenderTask(c, s, frames), SenderTask(c, s1, unread);
    whole.0 == rest.0 && whole.1 == output + rest.1 && whole.2 == rest.2
  }

  lemma ContinuesNothing(c: Content, s: Sender, frames: seq<Frame>)
    ensures Continues(c, s, frames, s, [], frames)
  {
  }

  lemma ContinuesWith(c: Content, s: Sender, frames: seq<Frame>, s1: Sender, output: seq<Frame>, unread: seq<Frame>)
    requires Continues(c, s, frames, s1, output, unread) && unread != [] && !SenderFinished(s1)
    ensures var (s2, out) := SenderReads(c, s1, unread[0]);
            Continues(c, s, frames, s2, output + out, unread[1..])
  {
    hide SenderReads;
  }

  lemma ContinuesToEnd(c: Content, s: Sender, frames: seq<Frame>, s1: Sender, output: seq<Frame>, unread: seq<Frame>)
    requires Continues(c, s, frames, s1, output, unread) && (unread == [] || SenderFinished(s1))
    ensures SenderTask(c, s, frames) == (s1, output, unread)
  {
    assert output + [] == output;
  }

  method DoClipboardTransfer(h: HashFn, c: Content, input: seq<Frame>)
    returns (state: Sender, output: seq<Frame>, unread: seq<Frame>)
    ensures var t := SenderTask(c, Offering, input);
            state == t.0 && output == [MetaOf(h, c)] + t.1 && unread == t.2
    ensures output[0] == Meta(if c.Text? then PlainText else ImagePng, |c.Bytes()|, h(c.Bytes()))
  {
    var written;
    state, written, unread := AnswerReceiver(c, input);
    output := [MetaOf(h, c)] + written;
  }

  /** What follows the metadata: pings until the decision, then the content. */
  method AnswerReceiver(c: Content, input: seq<Frame>) returns (state: Sender, output: seq<Frame>, unread: seq<Frame>)
    ensures (state, output, unread) == SenderTask(c, Offering, input)
  {
    hide Wire, SenderTask, Continues;
    state, output, unread := Offering, [], input;
    ContinuesNothing(c, Offering, input);
    while state.Offering? && unread != []
      invariant state.Offering? || state.Delivering? || SenderFinished(state)
      invariant Continues(c, Offering, input, state, output, unread)
      decreases |unread|
    {
      ContinuesWith(c, Offering, input, state, output, unread);
      assert output + [] == output;
      var f := unread[0];
      unread := unread[1..];
      match f
      case Ack(true) =>
        output := output + [Data(Wire(c))];
        state := Delivering;
      case Ack(false) => state := SendFailed(Rejected);
      case Ping => output := output + [Pong];
      case _ => state := SendFailed(Unexpected);
    }
    if state.Delivering? && unread != [] {
      ContinuesWith(c, Offering, input, state, output, unread);
      assert output + [] == output;
      var f := unread[0];
      unread := unread[1..];
      match f
      case Ack(true) =>
        output := output + [Complete];
        state := Sent;
      case Ack(false) => state := SendFailed(Cancelled);
      case _ => state := SendFailed(Unexpected);
    }
    ContinuesToEnd(c, Offering, input, state, output, unread);
  }

  function Repeat(f: Frame, n: nat): seq<Frame> {
    if n == 0 then [] else [f] + Repeat(f, n - 1)
  }

  lemma OnePingCostsOnePong(c: Content, frames: seq<Frame>)
    ensures var t, t' := SenderTask(c, Offering, frames), SenderTask(c, Offering, [Ping] + frames);
            t' == (t.0, [Pong] + t.1, t.2)
  {
    hide Wire;
    assert ([Ping] + frames)[1..] == frames;
  }

  /** The pings before the decision, as many as the receiver likes, are each answered and change
      nothing else: the sender goes on as if they had not come. */
  lemma {:induction false} PingsOnlyCostPongs(c: Content, pings: nat, frames: seq<Frame>)
    ensures var t, t' := SenderTask(c, Offering, frames), SenderTask(c, Offering, Repeat(Ping, pings) + frames);
            t'.0 == t.0 && t'.1 == Repeat(Pong, pings) + t.1 && t'.2 == t.2
  {
    hide SenderTask;
    if pings == 0 {
      assert Repeat(Ping, 0) + frames == frames;
    } else {
      var fewer := Repeat(Ping, pings - 1) + frames;
      PingsOnlyCostPongs(c, pings - 1, frames);
      OnePingCostsOnePong(c, fewer);
      assert Repeat(Ping, pings) + frames == [Ping] + fewer;
    }
  }

  // ---------- the receiver's program ----------

  /** The receiver at a read, on a list of frames. */
  function ReceiverTask(h: HashFn, r: Receiver, frames: seq<Frame>): (Receiver, seq<Frame>, seq<Frame>)
    decreases |frames|
  {
    if frames == [] || !ReceiverReading(r) then (r, [], frames)
    else
      var (r1, out) := ReceiverReads(h, r, frames[0]);
      var (r2, rest, unread) := ReceiverTask(h, r1, frames[1..]);
      (r2, out + rest, unread)
  }

  /** A frame that ends the reading is the last one taken. */
  lemma ReceiverStops(h: HashFn, r: Receiver, frames: seq<Frame>)
    requires frames != [] && ReceiverReading(r) && !ReceiverReading(ReceiverReads(h, r, frames[0]).0)
    ensures var (r1, out) := ReceiverReads(h, r, frames[0]);
            var t := ReceiverTask(h, r, frames); t.0 == r1 && t.1 == out && t.2 == frames[1..]
  {
    hide ReceiverReads;
    var (r1, out) := ReceiverReads(h, r, frames[0]);
    assert ReceiverTask(h, r1, frames[1..]) == (r1, [], frames[1..]);
    assert out + [] == out;
  }

  /** The keep-alive task over some ticks of its timer: a ping for each, and a read. */
  function KeptAlive(h: HashFn, meta: Frame, ticks: nat, frames: seq<Frame>): (Receiver, seq<Frame>, seq<Frame>)
    decreases ticks
  {
    if ticks == 0 then (Holding(meta), [], frames)
    else if frames == [] then (Pinging(meta), [Ping], frames)
    else
      var (r1, replies) := ReceiverReads(h, Pinging(meta), frames[0]);
      if r1 != Holding(meta) then (r1, [Ping] + replies, frames[1..])
      else
        var (r, out, unread) := KeptAlive(h, meta, ticks - 1, frames[1..]);
        (r, [Ping] + replies + out, unread)
  }

  method ReceiveMetadata(h: HashFn, input: seq<Frame>) returns (state: Receiver, unread: seq<Frame>)
    ensures (state, [], unread) == ReceiverTask(h, Connecting, input)
  {
    if input == [] { return Connecting, input; }
    state := if input[0].Meta? then Holding(input[0]) else ReceiveFailed(Unexpected);
    unread := input[1..];
    ReceiverStops(h, Connecting, input);
  }

  ghost predicate StillKept(h: HashFn, meta: Frame, ticks: nat, input: seq<Frame>, left: nat, output: seq<Frame>, unread: seq<Frame>) {
    var whole, now := KeptAlive(h, meta, ticks, input), KeptAlive(h, meta, left, unread);
    whole.0 == now.0 && whole.1 == output + now.1 && whole.2 == now.2
  }

  lemma NextTick(h: HashFn, meta: Frame, ticks: nat, input: seq<Frame>, left: nat, output: seq<Frame>, unread: seq<Frame>)
    requires StillKept(h, meta, ticks, input, left, output, unread) && left > 0 && unread != []
    ensures StillKept(h, meta, ticks, input, left - 1, output + [Ping], unread[1..])
  {
    var rest := KeptAlive(h, meta, left - 1, unread[1..]);
    assert [Ping] + [] + rest.1 == [Ping] + rest.1;
    assert output + ([Ping] + rest.1) == (output + [Ping]) + rest.1;
  }

  lemma LastTick(h: HashFn, meta: Frame, ticks: nat, input: seq<Frame>, left: nat, output: seq<Frame>, unread: seq<Frame>)
    requires StillKept(h, meta, ticks, input, left, output, unread) && (left == 0 || unread == [])
    ensures KeptAlive(h, meta, ticks, input) ==
            if left == 0 then (Holding(meta), output, unread) else (Pinging(meta), output + [Ping], unread)
  {
    assert output + [] == output;
  }

  /** Pings at every tick and takes whatever frame comes next for the answer. */
  method KeepAliveTask(h: HashFn, meta: Frame, ticks: nat, input: seq<Frame>)
    returns (state: Receiver, output: seq<Frame>, unread: seq<Frame>)
    ensures (state, output, unread) == KeptAlive(h, meta, ticks, input)
  {
    hide KeptAlive, StillKept;
    output, unread := [], input;
    var left := ticks;
    assert StillKept(h, meta, ticks, input, ticks, [], input) by { NoTick(h, meta, ticks, input); }
    while left > 0
      invariant StillKept(h, meta, ticks, input, left, output, unread)
    {
      if unread == [] {
        LastTick(h, meta, ticks, input, left, output, unread);
        return Pinging(meta), output + [Ping], unread;
      }
      NextTick(h, meta, ticks, input, left, output, unread);
      output := output + [Ping];
      unread := unread[1..];
      left := left - 1;
    }
    LastTick(h, meta, ticks, input, left, output, unread);
    state := Holding(meta);
  }

  lemma NoTick(h: HashFn, meta: Frame, ticks: nat, input: seq<Frame>)
    ensures StillKept(h, meta, ticks, input, ticks, [], input)
  {
  }

  /** The stream handed back, the user accepts. */
  method AcceptContent(h: HashFn, meta: Frame, input: seq<Frame>)
    returns (state: Receiver, output: seq<Frame>, unread: seq<Frame>)
    requires meta.Meta?
    ensures var t := ReceiverTask(h, Accepting(meta), input);
            state == t.0 && output == [Ack(true)] + t.1 && unread == t.2
  {
    hide Unwire;
    output, unread := [Ack(true)], input;
    if unread == [] { return Accepting(meta), output, unread; }
    var f := unread[0];
    unread := unread[1..];
    ghost var (r1, out) := ReceiverReads(h, Accepting(meta), f);
    ghost var t, t' := ReceiverTask(h, Accepting(meta), input), ReceiverTask(h, r1, unread);
    assert t.0 == t'.0 && t.1 == out + t'.1 && t.2 == t'.2;
    if !f.Data? { return ReceiveFailed(Unexpected), output, unread; }
    if |f.payload| < 8 { return ReceiveFailed(TooShort), output, unread; }
    var decoded := Unwire(meta.ctype, f.payload);
    if decoded.None? { return ReceiveFailed(BadContent), output, unread; }
    if decoded.value.Hash(h) != meta.checksum {
      return ReceiveFailed(ChecksumMismatch), output + [Ack(false)], unread;
    }
    output := output + [Ack(true)];
    if unread == [] { return Confirming(decoded.value), output, unread; }
    state := if unread[0].Complete? then Received(decoded.value) else ReceiveFailed(Unexpected);
    unread := unread[1..];
    assert ReceiverTask(h, state, unread) == (state, [], unread);
  }

  /** Or declines: one frame, and the stream is shut down. */
  method Decline(h: HashFn, c: Content, meta: Frame) returns (state: Receiver, output: seq<Frame>)
    ensures var s := Next(h, c, System(Offering, Holding(meta), [], []), Move.Decline);
            state == s.receiver && output == s.up
  {
    state, output := Declined, [Ack(false)];
  }

  lemma {:induction false} PongsKeepAlive(h: HashFn, meta: Frame, ticks: nat, rest: seq<Frame>)
    ensures KeptAlive(h, meta, ticks, Repeat(Pong, ticks) + rest) == (Holding(meta), Repeat(Ping, ticks), rest)
  {
    if ticks == 0 {
      assert Repeat(Pong, 0) + rest == rest;
    } else {
      PongsKeepAlive(h, meta, ticks - 1, rest);
      var frames := Repeat(Pong, ticks) + rest;
      assert frames[0] == Pong && frames[1..] == Repeat(Pong, ticks - 1) + rest;
      assert [Ping] + [] + Repeat(Ping, ticks - 1) == Repeat(Ping, ticks);
    }
  }

  lemma AcceptingGetsTheContent(h: HashFn, c: Content)
    requires c.WellFormed()
    ensures ReceiverTask(h, Accepting(MetaOf(h, c)), [Data(Wire(c)), Complete]) == (Received(c), [Ack(true)], [])
  {
    UnwireWire(c.Type(), c);
    hide Wire, Unwire;
    var frames := [Data(Wire(c)), Complete];
    assert frames[1..] == [Complete] && [Complete][1..] == [];
    ReceiverStops(h, Confirming(c), [Complete]);
    assert ReceiverReads(h, Accepting(MetaOf(h, c)), frames[0]) == (Confirming(c), [Ack(true)]);
    assert [Ack(true)] + [] == [Ack(true)];
  }

  lemma SendingTheContent(c: Content)
    ensures SenderTask(c, Offering, [Ack(true), Ack(true)]) == (Sent, [Data(Wire(c)), Complete], [])
  {
    hide Wire;
    var frames := [Ack(true), Ack(true)];
    assert frames[1..] == [Ack(true)] && [Ack(true)][1..] == [];
    assert SenderTask(c, Sent, []) == (Sent, [], []);
    assert SenderReads(c, Delivering, [Ack(true)][0]) == (Sent, [Complete]);
    assert [Complete] + [] == [Complete];
    assert SenderTask(c, Delivering, [Ack(true)]) == (Sent, [Complete], []);
    assert SenderReads(c, Offering, frames[0]) == (Delivering, [Data(Wire(c))]);
    assert [Data(Wire(c))] + [Complete] == [Data(Wire(c)), Complete];
  }

  /** The two programs fit together, for any number of ticks: fed what the other writes, the sender
      ends having sent and the receiver having received the content, and nothing is left unread. */
  lemma ProgramsFitTogether(h: HashFn, c: Content, ticks: nat)
    requires c.WellFormed()
    ensures var pings, pongs := Repeat(Ping, ticks), Repeat(Pong, ticks);
            var meta, answers := MetaOf(h, c), [Ack(true), Ack(true)];
            && SenderTask(c, Offering, pings + answers) == (Sent, pongs + [Data(Wire(c)), Complete], [])
            && ReceiverTask(h, Connecting, [meta]) == (Holding(meta), [], [])
            && KeptAlive(h, meta, ticks, pongs + [Data(Wire(c)), Complete]) == (Holding(meta), pings, [Data(Wire(c)), Complete])
            && ReceiverTask(h, Accepting(meta), [Data(Wire(c)), Complete]) == (Received(c), [Ack(true)], [])
  {
    hide SenderTask, Wire, Unwire;
    PingsOnlyCostPongs(c, ticks, [Ack(true), Ack(true)]);
    SendingTheContent(c);
    PongsKeepAlive(h, MetaOf(h, c), ticks, [Data(Wire(c)), Complete]);
    AcceptingGetsTheContent(h, c);
    assert [MetaOf(h, c)][1..] == [];
  }

  // ---------- what each program makes of any frames ----------

  /** The keep-alive task takes whatever frame comes for the answer to its ping. */
  lemma {:induction false} AnyFrameKeepsAlive(h: HashFn, meta: Frame, ticks: nat, frames: seq<Frame>)
    ensures KeptAlive(h, meta, ticks, frames) ==
            if ticks <= |frames| then (Holding(meta), Repeat(Ping, ticks), frames[ticks..])
            else (Pinging(meta), Repeat(Ping, |frames| + 1), [])
  {
    if ticks == 0 {
      assert frames[0..] == frames;
    } else if frames == [] {
      assert Repeat(Ping, |frames| + 1) == [Ping] + Repeat(Ping, |frames|) == [Ping];
      assert KeptAlive(h, meta, ticks, frames) == (Pinging(meta), [Ping], frames);
    } else {
      AnyFrameKeepsAlive(h, meta, ticks - 1, frames[1..]);
      assert [Ping] + ReceiverReads(h, Pinging(meta), frames[0]).1 == [Ping];
    }
  }

  /** After its metadata and any number of pings, the decision is the first frame that is no ping: an
      acceptance is answered with the content, and only what follows that decides whether the sender
      reports success. */
  lemma SenderOutcome(c: Content, pings: nat, f: Frame, rest: seq<Frame>)
    requires f != Ping
    ensures var t := SenderTask(c, Offering, Repeat(Ping, pings) + [f] + rest);
            if f == Ack(true) then
              && (t.0.Sent? <==> rest != [] && rest[0] == Ack(true))
              && (rest != [] && rest[0] == Ack(false) ==> t.0 == SendFailed(Cancelled))
              && (rest != [] && !rest[0].Ack? ==> t.0 == SendFailed(Unexpected))
              && t.1 == Repeat(Pong, pings) + [Data(Wire(c))] + (if t.0.Sent? then [Complete] else [])
            else
              t.0 == SendFailed(if f == Ack(false) then Rejected else Unexpected) && t.1 == Repeat(Pong, pings)
  {
    hide SenderTask, Wire;
    var frames := [f] + rest;
    assert frames[1..] == rest;
    assert Repeat(Ping, pings) + [f] + rest == Repeat(Ping, pings) + frames;
    PingsOnlyCostPongs(c, pings, frames);
    DecisionOutcome(c, frames);
    var end: seq<Frame> := if SenderTask(c, Offering, frames).0.Sent? then [Complete] else [];
    assert Repeat(Pong, pings) + ([Data(Wire(c))] + end) == Repeat(Pong, pings) + [Data(Wire(c))] + end;
    assert Repeat(Pong, pings) + [] == Repeat(Pong, pings);
  }

  lemma SenderStops(c: Content, s: Sender, frames: seq<Frame>)
    requires frames != [] && !SenderFinished(s) && SenderFinished(SenderReads(c, s, frames[0]).0)
    ensures var (s1, out) := SenderReads(c, s, frames[0]);
            SenderTask(c, s, frames).0 == s1 && SenderTask(c, s, frames).1 == out
  {
    hide SenderReads;
    var (s1, out) := SenderReads(c, s, frames[0]);
    assert SenderTask(c, s1, frames[1..]) == (s1, [], frames[1..]);
    assert out + [] == out;
  }

  lemma DecisionOutcome(c: Content, frames: seq<Frame>)
    requires frames != [] && frames[0] != Ping
    ensures var t := SenderTask(c, Offering, frames); var f, rest := frames[0], frames[1..];
            if f == Ack(true) then
              && (t.0.Sent? <==> rest != [] && rest[0] == Ack(true))
              && (rest != [] && rest[0] == Ack(false) ==> t.0 == SendFailed(Cancelled))
              && (rest != [] && !rest[0].Ack? ==> t.0 == SendFailed(Unexpected))
              && t.1 == [Data(Wire(c))] + (if t.0.Sent? then [Complete] else [])
            else
              t.0 == SendFailed(if f == Ack(false) then Rejected else Unexpected) && t.1 == []
  {
    hide Wire;
    if frames[0] == Ack(true) {
      if frames[1..] != [] {
        SenderStops(c, Delivering, frames[1..]);
      } else {
        assert SenderTask(c, Delivering, []) == (Delivering, [], []);
      }
    } else {
      SenderStops(c, Offering, frames);
    }
  }

  /** Over every sequence of frames, the receiver that has accepted ends with some content exactly when
      the first frame holds it behind eight bytes, readable as the announced type and of the announced
      hash, and the second is the completion; and it objects exactly to a wrong hash. */
  lemma AcceptedExactly(h: HashFn, t: ContentType, size: nat, checksum: u64, frames: seq<Frame>, content: Content)
    ensures var r := ReceiverTask(h, Accepting(Meta(t, size, checksum)), frames);
            && (r.0 == Received(content) <==>
                  && |frames| > 1 && frames[0].Data? && |frames[0].payload| >= 8
                  && Unwire(t, frames[0].payload) == Some(content) && h(content.Bytes()) == checksum
                  && frames[1] == Complete)
            && (Ack(false) in r.1 <==>
                  && frames != [] && frames[0].Data? && |frames[0].payload| >= 8
                  && Unwire(t, frames[0].payload).Some? && h(Unwire(t, frames[0].payload).value.Bytes()) != checksum)
            && (frames != [] && !frames[0].Data? ==> r.0 == ReceiveFailed(Unexpected))
            && (frames != [] && frames[0].Data? && |frames[0].payload| < 8 ==> r.0 == ReceiveFailed(TooShort))
            && (frames != [] && frames[0].Data? && |frames[0].payload| >= 8 && Unwire(t, frames[0].payload).None? ==>
                  r.0 == ReceiveFailed(BadContent))
            && (Ack(false) in r.1 ==> r.0 == ReceiveFailed(ChecksumMismatch))
  {
    hide Unwire;
    var meta := Meta(t, size, checksum);
    if frames != [] {
      var (r1, out) := ReceiverReads(h, Accepting(meta), frames[0]);
      if r1.Confirming? {
        if |frames| > 1 {
          assert frames[1..][0] == frames[1];
          ReceiverStops(h, r1, frames[1..]);
        }
      } else {
        ReceiverStops(h, Accepting(meta), frames);
      }
    }
  }
}
