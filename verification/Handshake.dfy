/**
 The handshake of a live sync: one host program faces a client in code mode or in trusted mode.
 Either side may start sending sync frames as soon as it considers the handshake done.
 Keys, signatures and the code's HMAC are parameters.
 */
module Handshake {
  import opened Wrappers
  import opened Clipboard

  type Id = nat
  type Key = string
  type Nonce = seq<byte>
  type Signature = seq<byte>
  type Mac = seq<byte>

  datatype Device = Device(id: Id, key: Key)

  datatype Crypto = Crypto(
    mac: string -> Mac,
    sign: (Key, Nonce) -> Signature,
    verify: (Key, Nonce, Signature) -> bool)

  const SIGNATURE_LENGTH := 64

  /** No two codes share an HMAC, and a device's own signatures are valid. */
  ghost predicate Sound(k: Crypto) {
    && (forall a, b :: k.mac(a) == k.mac(b) ==> a == b)
    && (forall key, nonce :: |k.sign(key, nonce)| == SIGNATURE_LENGTH && k.verify(key, nonce, k.sign(key, nonce)))
  }

  datatype Frame =
    | TrustedHello(device: Device, nonce: Nonce, signature: Signature)
    | Hello(id: Option<Id>, key: Option<Key>)
    | TrustedHelloAck(trusted: bool, id: Option<Id>, key: Option<Key>, answer: Option<Signature>)
    | HelloAck(id: Option<Id>, key: Option<Key>)
    | CodeVerify(mac: Mac)
    | CodeVerifyAck(success: bool)
    | Live

  datatype Error = PeerRejected | MissingField | BadSignature | Mismatch | CodeNotFound | Unexpected

  datatype Phase = Starting | AwaitingAck | AwaitingCode | AwaitingHello | AwaitingVerdict | Syncing | Failed(error: Error)

  datatype Mode = ByCode(code: string) | ByTrust(expected: Device)

  datatype Setup = Setup(
    host: Device,
    hostCode: string,
    hostNonce: Nonce,
    store: Option<map<Id, Key>>,
    client: Device,
    mode: Mode)

  /** The host's trust store, if it was given one, holds this device with this key. */
  predicate Trusts(store: Option<map<Id, Key>>, d: Device) {
    store.Some? && d.id in store.value && store.value[d.id] == d.key
  }

  function HostGreeting(k: Crypto, c: Setup): Frame {
    TrustedHello(c.host, c.hostNonce, k.sign(c.host.key, c.hostNonce))
  }

  function HostReadsAck(k: Crypto, c: Setup, f: Frame): Phase {
    match f
    case TrustedHelloAck(trusted, id, key, answer) =>
      if !trusted then Failed(PeerRejected)
      else if id.None? || key.None? then Failed(MissingField)
      else if answer.Some? && (|answer.value| != SIGNATURE_LENGTH || !k.verify(key.value, c.hostNonce, answer.value))
      then Failed(BadSignature)
      else if Trusts(c.store, Device(id.value, key.value)) then Syncing
      else AwaitingCode
    case HelloAck(id, key) =>
      if id.Some? && key.Some? && Trusts(c.store, Device(id.value, key.value)) then Syncing else AwaitingCode
    case _ => Failed(Unexpected)
  }

  /** One frame read by the host; once syncing it ignores what is left of the handshake. */
  function HostReads(k: Crypto, c: Setup, p: Phase, f: Frame): (Phase, seq<Frame>) {
    match p
    case AwaitingAck => (HostReadsAck(k, c, f), [])
    case AwaitingCode =>
      if !f.CodeVerify? then (Failed(Unexpected), [])
      else if f.mac == k.mac(c.hostCode) then (Syncing, [CodeVerifyAck(true)])
      else (Failed(CodeNotFound), [CodeVerifyAck(false)])
    case _ => (p, [])
  }

  function TrustingClientReadsHello(k: Crypto, client: Device, expected: Device, f: Frame): (Phase, seq<Frame>) {
    match f
    case TrustedHello(device, nonce, signature) =>
      if device.id != expected.id || device.key != expected.key then (Failed(Mismatch), [])
      else if |signature| != SIGNATURE_LENGTH || !k.verify(device.key, nonce, signature) then (Failed(BadSignature), [])
      else (Syncing, [TrustedHelloAck(true, Some(client.id), Some(client.key), Some(k.sign(client.key, nonce)))])
    case Hello(id, key) =>
      if id.Some? && key.Some? && (id.value != expected.id || key.value != expected.key) then (Failed(Mismatch), [])
      else (Syncing, [HelloAck(Some(client.id), Some(client.key))])
    case _ => (Failed(Unexpected), [])
  }

  function CodeClientReadsHello(k: Crypto, client: Device, code: string, f: Frame): (Phase, seq<Frame>) {
    match f
    case TrustedHello(_, _, _) =>
      (AwaitingVerdict, [HelloAck(Some(client.id), Some(client.key)), CodeVerify(k.mac(code))])
    case Hello(_, _) => (AwaitingVerdict, [HelloAck(None, None), CodeVerify(k.mac(code))])
    case _ => (Failed(Unexpected), [])
  }

  /** One frame read by the client. */
  function ClientReads(k: Crypto, c: Setup, p: Phase, f: Frame): (Phase, seq<Frame>) {
    match p
    case AwaitingHello =>
      (match c.mode
       case ByCode(code) => CodeClientReadsHello(k, c.client, code, f)
       case ByTrust(expected) => TrustingClientReadsHello(k, c.client, expected, f))
    case AwaitingVerdict =>
      if !f.CodeVerifyAck? then (Failed(Unexpected), [])
      else if f.success then (Syncing, []) else (Failed(CodeNotFound), [])
    case _ => (p, [])
  }

  datatype System = System(host: Phase, client: Phase, down: seq<Frame>, up: seq<Frame>)

  /** Steps of the two programs, and sync frames sent by a side that is syncing. */
  datatype Move = HostStep | ClientStep | HostSends | ClientSends

  const START := System(Starting, AwaitingHello, [], [])

  function Next(k: Crypto, c: Setup, s: System, m: Move): System {
    match m
    case HostStep =>
      if s.host.Starting? then s.(host := AwaitingAck, down := s.down + [HostGreeting(k, c)])
      else if s.up == [] || s.host.Failed? then s
      else
        var (host, out) := HostReads(k, c, s.host, s.up[0]);
        s.(host := host, down := s.down + out, up := s.up[1..])
    case ClientStep =>
      if s.down == [] || s.client.Failed? then s
      else
        var (client, out) := ClientReads(k, c, s.client, s.down[0]);
        s.(client := client, down := s.down[1..], up := s.up + out)
    case HostSends => if s.host.Syncing? then s.(down := s.down + [Live]) else s
    case ClientSends => if s.client.Syncing? then s.(up := s.up + [Live]) else s
  }

  function Exec(k: Crypto, c: Setup, sched: seq<Move>): System
    decreases |sched|
  {
    if sched == [] then START
    else Next(k, c, Exec(k, c, sched[..|sched| - 1]), sched[|sched| - 1])
  }

  /** The setups in which the handshake succeeds. */
  predicate Agreeable(c: Setup) {
    match c.mode
    case ByTrust(expected) => expected == c.host && Trusts(c.store, c.client)
    case ByCode(code) => !Trusts(c.store, c.client) && code == c.hostCode
  }

  predicate AllLive(ch: seq<Frame>) {
    forall i :: 0 <= i < |ch| ==> ch[i].Live?
  }

  predicate LiveAfter(ch: seq<Frame>, first: Frame) {
    ch != [] && ch[0] == first && AllLive(ch[1..])
  }

  /** Every state a run can reach, frame by frame. */
  ghost predicate Reachable(k: Crypto, c: Setup, s: System) {
    || s == START
    || s == System(AwaitingAck, AwaitingHello, [HostGreeting(k, c)], [])
    || (c.mode.ByTrust? && if c.mode.expected == c.host then TrustMatches(k, c, s)
                           else s == System(AwaitingAck, Failed(Mismatch), [], []))
    || (c.mode.ByCode? && if Trusts(c.store, c.client) then CodeUnneeded(k, c, s) else CodeNeeded(k, c, s))
  }

  ghost predicate TrustMatches(k: Crypto, c: Setup, s: System) {
    var ack := TrustedHelloAck(true, Some(c.client.id), Some(c.client.key), Some(k.sign(c.client.key, c.hostNonce)));
    && s.client.Syncing?
    && (if s.host.AwaitingAck? then s.down == [] && LiveAfter(s.up, ack)
        else if Trusts(c.store, c.client) then s.host.Syncing? && AllLive(s.down) && AllLive(s.up)
        else (s.host.AwaitingCode? || s.host == Failed(Unexpected)) && s.down == [] && AllLive(s.up))
  }

  ghost predicate CodeUnneeded(k: Crypto, c: Setup, s: System)
    requires c.mode.ByCode?
  {
    var hello, verify := HelloAck(Some(c.client.id), Some(c.client.key)), CodeVerify(k.mac(c.mode.code));
    || s == System(AwaitingAck, AwaitingVerdict, [], [hello, verify])
    || (&& s.host.Syncing? && (s.client.AwaitingVerdict? || s.client == Failed(Unexpected))
        && AllLive(s.down) && (s.up == [verify] || s.up == []))
  }

  ghost predicate CodeNeeded(k: Crypto, c: Setup, s: System)
    requires c.mode.ByCode?
  {
    var hello, verify := HelloAck(Some(c.client.id), Some(c.client.key)), CodeVerify(k.mac(c.mode.code));
    || s == System(AwaitingAck, AwaitingVerdict, [], [hello, verify])
    || s == System(AwaitingCode, AwaitingVerdict, [], [verify])
    || (if c.mode.code == c.hostCode then
          && s.host.Syncing?
          && (if s.client.AwaitingVerdict? then s.up == [] && LiveAfter(s.down, CodeVerifyAck(true))
              else s.client.Syncing? && AllLive(s.down) && AllLive(s.up))
        else
          || s == System(Failed(CodeNotFound), AwaitingVerdict, [CodeVerifyAck(false)], [])
          || s == System(Failed(CodeNotFound), Failed(CodeNotFound), [], []))
  }

  lemma SendsStayReachable(k: Crypto, c: Setup, s: System, m: Move)
    requires (m.HostSends? || m.ClientSends?) && Reachable(k, c, s)
    ensures Reachable(k, c, Next(k, c, s, m))
  {
  }

  /** What Sound says of one signature. */
  predicate Signs(k: Crypto, key: Key, nonce: Nonce) {
    |k.sign(key, nonce)| == SIGNATURE_LENGTH && k.verify(key, nonce, k.sign(key, nonce))
  }

  lemma HostStaysWithTrust(k: Crypto, c: Setup, s: System)
    requires c.mode.ByTrust? && Reachable(k, c, s) && Signs(k, c.client.key, c.hostNonce)
    ensures Reachable(k, c, Next(k, c, s, HostStep))
  {
    hide CodeUnneeded, CodeNeeded;
    assert [] + [HostGreeting(k, c)] == [HostGreeting(k, c)];
  }

  lemma HostStaysWithCode(k: Crypto, c: Setup, s: System)
    requires c.mode.ByCode? && Reachable(k, c, s)
    requires k.mac(c.mode.code) == k.mac(c.hostCode) ==> c.mode.code == c.hostCode
    ensures Reachable(k, c, Next(k, c, s, HostStep))
  {
    hide TrustMatches;
    var hello, verify := HelloAck(Some(c.client.id), Some(c.client.key)), CodeVerify(k.mac(c.mode.code));
    assert [hello, verify][1..] == [verify] && [verify][1..] == [];
    assert [] + [HostGreeting(k, c)] == [HostGreeting(k, c)];
    if Trusts(c.store, c.client) {
      hide CodeNeeded;
    } else {
      hide CodeUnneeded;
    }
  }

  lemma ClientStaysWithTrust(k: Crypto, c: Setup, s: System)
    requires c.mode.ByTrust? && Reachable(k, c, s) && Signs(k, c.host.key, c.hostNonce)
    ensures Reachable(k, c, Next(k, c, s, ClientStep))
  {
    hide CodeUnneeded, CodeNeeded;
    assert [HostGreeting(k, c)][1..] == [];
  }

  lemma ClientStaysWithCode(k: Crypto, c: Setup, s: System)
    requires c.mode.ByCode? && Reachable(k, c, s)
    ensures Reachable(k, c, Next(k, c, s, ClientStep))
  {
    hide TrustMatches;
    var hello, verify := HelloAck(Some(c.client.id), Some(c.client.key)), CodeVerify(k.mac(c.mode.code));
    assert [HostGreeting(k, c)][1..] == [] && [] + [hello, verify] == [hello, verify];
    assert [CodeVerifyAck(false)][1..] == [];
  }

  lemma {:induction false} RunStaysReachable(k: Crypto, c: Setup, sched: seq<Move>)
    requires Sound(k)
    ensures Reachable(k, c, Exec(k, c, sched))
    decreases |sched|
  {
    if sched != [] {
      var n := |sched| - 1;
      RunStaysReachable(k, c, sched[..n]);
      var s := Exec(k, c, sched[..n]);
      hide Reachable, Next;
      match sched[n]
      case HostStep =>
        if c.mode.ByTrust? { HostStaysWithTrust(k, c, s); } else { HostStaysWithCode(k, c, s); }
      case ClientStep =>
        if c.mode.ByTrust? { ClientStaysWithTrust(k, c, s); } else { ClientStaysWithCode(k, c, s); }
      case _ => SendsStayReachable(k, c, s, sched[n]);
    }
  }

  // ---------- agreement ----------

  predicate BothSync(s: System) {
    s.host.Syncing? && s.client.Syncing?
  }

  /** Steps the two programs can still take before both sync. */
  function Rank(p: Phase): nat {
    match p
    case Starting => 3
    case AwaitingAck => 2
    case AwaitingHello => 2
    case AwaitingCode => 1
    case AwaitingVerdict => 1
    case _ => 0
  }

  predicate Stuck(k: Crypto, c: Setup, s: System) {
    Next(k, c, s, HostStep) == s && Next(k, c, s, ClientStep) == s
  }

  lemma AgreeableIsNotStuck(k: Crypto, c: Setup, s: System)
    requires Sound(k) && Reachable(k, c, s) && Agreeable(c) && !BothSync(s)
    ensures !s.host.Failed? && !s.client.Failed? && !Stuck(k, c, s)
  {
    hide Sound;
    var t, u := Next(k, c, s, HostStep), Next(k, c, s, ClientStep);
    assert (|t.up| != |s.up| || t.host != s.host) || |u.down| != |s.down|;
  }

  lemma AgreeableProgress(k: Crypto, c: Setup, s: System, m: Move)
    requires Sound(k) && Reachable(k, c, s) && Agreeable(c) && !BothSync(s) && (m.HostStep? || m.ClientStep?)
    ensures var s' := Next(k, c, s, m);
            s' != s ==> Rank(s'.host) + Rank(s'.client) < Rank(s.host) + Rank(s.client)
  {
  }

  /** Handshake agreement: both sides reach the sync phase in some run exactly when the setup is
      agreeable, and then in every run: nobody fails, and until both sync some program step is
      possible, each bringing them closer. */
  lemma Agreement(k: Crypto, c: Setup, sched: seq<Move>)
    requires Sound(k)
    ensures var s := Exec(k, c, sched);
            && (BothSync(s) ==> Agreeable(c))
            && (Agreeable(c) && !BothSync(s) ==>
                  && !s.host.Failed? && !s.client.Failed? && !Stuck(k, c, s)
                  && forall m: Move :: (m.HostStep? || m.ClientStep?) && Next(k, c, s, m) != s ==>
                       Rank(Next(k, c, s, m).host) + Rank(Next(k, c, s, m).client) < Rank(s.host) + Rank(s.client))
  {
    RunStaysReachable(k, c, sched);
    var s := Exec(k, c, sched);
    if Agreeable(c) && !BothSync(s) {
      hide Next, Reachable, Stuck;
      AgreeableIsNotStuck(k, c, s);
      forall m: Move | (m.HostStep? || m.ClientStep?) && Next(k, c, s, m) != s
        ensures Rank(Next(k, c, s, m).host) + Rank(Next(k, c, s, m).client) < Rank(s.host) + Rank(s.client)
      {
        AgreeableProgress(k, c, s, m);
      }
    }
  }

  /** How each other setup ends, once neither program can take a step. */
  ghost predicate Outcome(c: Setup, s: System) {
    match c.mode
    case ByTrust(expected) =>
      if expected != c.host then
        s.client == Failed(Mismatch) && s.host.AwaitingAck?
      else
        s.client.Syncing? && (s.host.AwaitingCode? || s.host == Failed(Unexpected))
    case ByCode(code) =>
      if Trusts(c.store, c.client) then
        s.host.Syncing? && (s.client.AwaitingVerdict? || s.client == Failed(Unexpected))
      else
        s.host == s.client == Failed(CodeNotFound)
  }

  lemma DisagreementOutcome(k: Crypto, c: Setup, sched: seq<Move>)
    requires Sound(k) && !Agreeable(c)
    ensures var s := Exec(k, c, sched);
            Stuck(k, c, s) ==> Outcome(c, s)
  {
    RunStaysReachable(k, c, sched);
    if Stuck(k, c, Exec(k, c, sched)) {
      StuckOutcome(k, c, Exec(k, c, sched));
    }
  }

  lemma StuckOutcome(k: Crypto, c: Setup, s: System)
    requires Reachable(k, c, s) && !Agreeable(c) && Stuck(k, c, s)
    ensures Outcome(c, s)
  {
    var t, u := Next(k, c, s, HostStep), Next(k, c, s, ClientStep);
    assert |t.up| == |s.up| && t.host == s.host && |u.down| == |s.down|;
  }

  // ---------- the two programs ----------

  predicate Finished(p: Phase) {
    p.Syncing? || p.Failed?
  }

  /** The host, once it has greeted, on a list of frames: its phase, what it wrote, what it left unread. */
  function HostTask(k: Crypto, c: Setup, p: Phase, frames: seq<Frame>): (Phase, seq<Frame>, seq<Frame>)
    decreases |frames|
  {
    if frames == [] || Finished(p) then (p, [], frames)
    else
      var (p1, out) := HostReads(k, c, p, frames[0]);
      var (p2, rest, unread) := HostTask(k, c, p1, frames[1..]);
      (p2, out + rest, unread)
  }

  function ClientTask(k: Crypto, c: Setup, p: Phase, frames: seq<Frame>): (Phase, seq<Frame>, seq<Frame>)
    decreases |frames|
  {
    if frames == [] || Finished(p) then (p, [], frames)
    else
      var (p1, out) := ClientReads(k, c, p, frames[0]);
      var (p2, rest, unread) := ClientTask(k, c, p1, frames[1..]);
      (p2, out + rest, unread)
  }

  method WaitForPeerWithTrust(k: Crypto, c: Setup, input: seq<Frame>)
    returns (phase: Phase, output: seq<Frame>, unread: seq<Frame>)
    ensures var t := HostTask(k, c, AwaitingAck, input);
            phase == t.0 && output == [HostGreeting(k, c)] + t.1 && unread == t.2
  {
    output, unread := [HostGreeting(k, c)], input;
    if unread == [] { return AwaitingAck, output, unread; }
    var f := unread[0];
    unread := unread[1..];
    var trusted;
    match f {
      case TrustedHelloAck(accepted, id, key, answer) =>
        if !accepted { return Failed(PeerRejected), output, unread; }
        if id.None? { return Failed(MissingField), output, unread; }
        if key.None? { return Failed(MissingField), output, unread; }
        trusted := Trusts(c.store, Device(id.value, key.value));
        if answer.Some? {
          if |answer.value| != SIGNATURE_LENGTH { return Failed(BadSignature), output, unread; }
          if !k.verify(key.value, c.hostNonce, answer.value) { return Failed(BadSignature), output, unread; }
        }
      case HelloAck(id, key) =>
        trusted := id.Some? && key.Some? && Trusts(c.store, Device(id.value, key.value));
      case _ => return Failed(Unexpected), output, unread;
    }
    if trusted { return Syncing, output, unread; }
    ghost var t, t' := HostTask(k, c, AwaitingAck, input), HostTask(k, c, AwaitingCode, unread);
    assert t.0 == t'.0 && t.1 == t'.1 && t.2 == t'.2;
    if unread == [] { return AwaitingCode, output, unread; }
    f := unread[0];
    unread := unread[1..];
    ghost var last := HostReads(k, c, AwaitingCode, f);
    assert HostTask(k, c, last.0, unread) == (last.0, [], unread);
    assert t'.0 == last.0 && t'.1 == last.1 && t'.2 == unread;
    if !f.CodeVerify? { return Failed(Unexpected), output, unread; }
    var success := f.mac == k.mac(c.hostCode);
    output := output + [CodeVerifyAck(success)];
    phase := if success then Syncing else Failed(CodeNotFound);
  }

  method ConnectWithOptions(k: Crypto, c: Setup, input: seq<Frame>)
    returns (phase: Phase, output: seq<Frame>, unread: seq<Frame>)
    requires c.mode.ByCode?
    ensures var t := ClientTask(k, c, AwaitingHello, input); phase == t.0 && output == t.1 && unread == t.2
  {
    output, unread := [], input;
    if unread == [] { return AwaitingHello, output, unread; }
    var f := unread[0];
    unread := unread[1..];
    match f {
      case TrustedHello(_, _, _) => output := [HelloAck(Some(c.client.id), Some(c.client.key))];
      case Hello(_, _) => output := [HelloAck(None, None)];
      case _ => return Failed(Unexpected), output, unread;
    }
    output := output + [CodeVerify(k.mac(c.mode.code))];
    ghost var t, t' := ClientTask(k, c, AwaitingHello, input), ClientTask(k, c, AwaitingVerdict, unread);
    assert t.0 == t'.0 && t.1 == output + t'.1 && t.2 == t'.2;
    if unread == [] { return AwaitingVerdict, output, unread; }
    f := unread[0];
    unread := unread[1..];
    ghost var last := ClientReads(k, c, AwaitingVerdict, f);
    assert ClientTask(k, c, last.0, unread) == (last.0, [], unread);
    assert t'.0 == last.0 && t'.1 == last.1 && t'.2 == unread;
    if !f.CodeVerifyAck? { return Failed(Unexpected), output, unread; }
    phase := if f.success then Syncing else Failed(CodeNotFound);
  }

  method TrustedHandshakeClient(k: Crypto, c: Setup, input: seq<Frame>)
    returns (phase: Phase, output: seq<Frame>, unread: seq<Frame>)
    requires c.mode.ByTrust?
    ensures var t := ClientTask(k, c, AwaitingHello, input); phase == t.0 && output == t.1 && unread == t.2
  {
    var expected := c.mode.expected;
    output, unread := [], input;
    if unread == [] { return AwaitingHello, output, unread; }
    var f := unread[0];
    unread := unread[1..];
    match f {
      case TrustedHello(device, nonce, signature) =>
        if device.id != expected.id { return Failed(Mismatch), output, unread; }
        if device.key != expected.key { return Failed(Mismatch), output, unread; }
        if |signature| != SIGNATURE_LENGTH { return Failed(BadSignature), output, unread; }
        if !k.verify(device.key, nonce, signature) { return Failed(BadSignature), output, unread; }
        output := [TrustedHelloAck(true, Some(c.client.id), Some(c.client.key), Some(k.sign(c.client.key, nonce)))];
      case Hello(id, key) =>
        if id.Some? && key.Some? {
          if id.value != expected.id { return Failed(Mismatch), output, unread; }
          if key.value != expected.key { return Failed(Mismatch), output, unread; }
        }
        output := [HelloAck(Some(c.client.id), Some(c.client.key))];
      case _ => return Failed(Unexpected), output, unread;
    }
    phase := Syncing;
  }

  // ---------- what the host asks of its peer ----------

  predicate InStore(c: Setup, id: Id, key: Key) {
    c.store.Some? && id in c.store.value && c.store.value[id] == key
  }

  /** An acknowledgement on which the host goes straight to the sync phase. */
  predicate Recognised(k: Crypto, c: Setup, f: Frame) {
    match f
    case TrustedHelloAck(trusted, id, key, answer) =>
      && trusted && id.Some? && key.Some? && InStore(c, id.value, key.value)
      && (answer.Some? ==> |answer.value| == 64 && k.verify(key.value, c.hostNonce, answer.value))
    case HelloAck(id, key) => id.Some? && key.Some? && InStore(c, id.value, key.value)
    case _ => false
  }

  /** An acknowledgement after which the host waits for the code. */
  predicate SentForCode(k: Crypto, c: Setup, f: Frame) {
    match f
    case TrustedHelloAck(trusted, id, key, answer) =>
      && trusted && id.Some? && key.Some? && !InStore(c, id.value, key.value)
      && (answer.Some? ==> |answer.value| == 64 && k.verify(key.value, c.hostNonce, answer.value))
    case HelloAck(id, key) => id.None? || key.None? || !InStore(c, id.value, key.value)
    case _ => false
  }

  /** Over every sequence of frames, from whatever peer: the host reaches the sync phase without a
      word about the code exactly when the first frame is one it recognises, and with the code
      exactly when the first sends it for the code and the second brings the right one. */
  lemma HostSyncsExactly(k: Crypto, c: Setup, frames: seq<Frame>)
    ensures var t := HostTask(k, c, AwaitingAck, frames);
            && (t.0.Syncing? && t.1 == [] <==> frames != [] && Recognised(k, c, frames[0]))
            && (t.0.Syncing? && t.1 != [] <==>
                  |frames| > 1 && SentForCode(k, c, frames[0]) && frames[1] == CodeVerify(k.mac(c.hostCode)))
            && (t.0.Syncing? ==> t.1 == [] || t.1 == [CodeVerifyAck(true)])
            && (|frames| > 1 && SentForCode(k, c, frames[0]) && !t.0.Syncing? ==>
                  if frames[1].CodeVerify? then t.0 == Failed(CodeNotFound) && t.1 == [CodeVerifyAck(false)]
                  else t.0 == Failed(Unexpected) && t.1 == [])
  {
    if frames != [] {
      var p := HostReads(k, c, AwaitingAck, frames[0]).0;
      if p.AwaitingCode? && |frames| > 1 {
        var (q, out) := HostReads(k, c, AwaitingCode, frames[1]);
        assert frames[1..][1..] == frames[2..] && frames[1..][0] == frames[1];
        assert HostTask(k, c, q, frames[2..]) == (q, [], frames[2..]);
        assert out + [] == out;
      }
    }
  }

  /** And what it makes of a first frame it neither recognises nor sends for the code. */
  lemma HostRefuses(k: Crypto, c: Setup, frames: seq<Frame>)
    requires frames != [] && !Recognised(k, c, frames[0]) && !SentForCode(k, c, frames[0])
    ensures var t, f := HostTask(k, c, AwaitingAck, frames), frames[0];
            && t.1 == [] && t.2 == frames[1..]
            && t.0 == Failed(if !f.TrustedHelloAck? then Unexpected
                             else if !f.trusted then PeerRejected
                             else if f.id.None? || f.key.None? then MissingField
                             else BadSignature)
  {
    var p := HostReads(k, c, AwaitingAck, frames[0]).0;
    assert HostTask(k, c, p, frames[1..]) == (p, [], frames[1..]);
  }

  lemma HostStops(k: Crypto, c: Setup, frames: seq<Frame>)
    requires frames != [] && HostReads(k, c, AwaitingAck, frames[0]) == (Syncing, [])
    ensures var t := HostTask(k, c, AwaitingAck, frames); t.0 == Syncing && t.1 == [] && t.2 == frames[1..]
  {
    assert HostTask(k, c, Syncing, frames[1..]) == (Syncing, [], frames[1..]);
  }

  /** What it recognises needs no signature: the id and the key of a device in its store are enough,
      in either acknowledgement. */
  lemma IdAndKeyAreEnough(k: Crypto, c: Setup, d: Device, rest: seq<Frame>)
    requires Trusts(c.store, d)
    ensures HostTask(k, c, AwaitingAck, [HelloAck(Some(d.id), Some(d.key))] + rest) == (Syncing, [], rest)
    ensures HostTask(k, c, AwaitingAck, [TrustedHelloAck(true, Some(d.id), Some(d.key), None)] + rest) == (Syncing, [], rest)
  {
    assert ([HelloAck(Some(d.id), Some(d.key))] + rest)[1..] == rest;
    HostStops(k, c, [HelloAck(Some(d.id), Some(d.key))] + rest);
    HostStops(k, c, [TrustedHelloAck(true, Some(d.id), Some(d.key), None)] + rest);
    assert ([TrustedHelloAck(true, Some(d.id), Some(d.key), None)] + rest)[1..] == rest;
  }

  // ---------- what the clients ask of their host ----------

  lemma ClientStops(k: Crypto, c: Setup, p: Phase, frames: seq<Frame>)
    requires frames != [] && !Finished(p) && Finished(ClientReads(k, c, p, frames[0]).0)
    ensures var (p1, out) := ClientReads(k, c, p, frames[0]);
            ClientTask(k, c, p, frames).0 == p1 && ClientTask(k, c, p, frames).1 == out
  {
    hide ClientReads;
    var (p1, out) := ClientReads(k, c, p, frames[0]);
    assert ClientTask(k, c, p1, frames[1..]) == (p1, [], frames[1..]);
    assert out + [] == out;
  }

  /** Over every sequence of frames, from whatever host: a client in trusted mode reaches the sync phase
      exactly when the first frame is a trusted greeting from the expected device, with 64 bytes that
      are a valid signature of the nonce, or a plain greeting that does not give another id and key.
      It answers nobody else. */
  lemma TrustingClientSyncsExactly(k: Crypto, c: Setup, frames: seq<Frame>)
    requires c.mode.ByTrust? && frames != []
    ensures var t, f, expected := ClientTask(k, c, AwaitingHello, frames), frames[0], c.mode.expected;
            && (t.0.Syncing? <==>
                  || (&& f.TrustedHello? && f.device == expected
                      && |f.signature| == 64 && k.verify(expected.key, f.nonce, f.signature))
                  || (f.Hello? && (f.id.None? || f.key.None? || (f.id.value == expected.id && f.key.value == expected.key))))
            && (!t.0.Syncing? ==> t.1 == [])
            && (f.TrustedHello? && f.device == expected && !t.0.Syncing? ==> t.0 == Failed(BadSignature))
            && ((f.TrustedHello? && f.device != expected) || (f.Hello? && !t.0.Syncing?) ==> t.0 == Failed(Mismatch))
            && (!f.TrustedHello? && !f.Hello? ==> t.0 == Failed(Unexpected))
            && (t.0.Syncing? && f.TrustedHello? ==>
                  t.1 == [TrustedHelloAck(true, Some(c.client.id), Some(c.client.key), Some(k.sign(c.client.key, f.nonce)))])
            && (t.0.Syncing? && f.Hello? ==> t.1 == [HelloAck(Some(c.client.id), Some(c.client.key))])
  {
    ClientStops(k, c, AwaitingHello, frames);
  }

  /** A client in code mode answers any greeting with its code, whoever it is from, and reaches the sync
      phase exactly when the next frame confirms it. */
  lemma CodeClientSyncsExactly(k: Crypto, c: Setup, frames: seq<Frame>)
    requires c.mode.ByCode? && frames != []
    ensures var t, f := ClientTask(k, c, AwaitingHello, frames), frames[0];
            && (t.0.Syncing? <==> (f.TrustedHello? || f.Hello?) && |frames| > 1 && frames[1] == CodeVerifyAck(true))
            && t.1 == (if f.TrustedHello? then [HelloAck(Some(c.client.id), Some(c.client.key)), CodeVerify(k.mac(c.mode.code))]
                       else if f.Hello? then [HelloAck(None, None), CodeVerify(k.mac(c.mode.code))]
                       else [])
            && ((f.TrustedHello? || f.Hello?) && |frames| > 1 && frames[1] == CodeVerifyAck(false) ==> t.0 == Failed(CodeNotFound))
            && (!f.TrustedHello? && !f.Hello? ==> t.0 == Failed(Unexpected))
            && ((f.TrustedHello? || f.Hello?) && |frames| > 1 && !frames[1].CodeVerifyAck? ==> t.0 == Failed(Unexpected))
  {
    var (p, out) := ClientReads(k, c, AwaitingHello, frames[0]);
    if p.AwaitingVerdict? {
      if |frames| > 1 {
        assert frames[1..][0] == frames[1];
        ClientStops(k, c, AwaitingVerdict, frames[1..]);
      }
      assert out + [] == out;
    } else {
      ClientStops(k, c, AwaitingHello, frames);
    }
  }
}
