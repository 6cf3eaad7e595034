/**
 * Two whole sessions, in one epoch each, over a network that loses, repeats, reorders, alters
 * and forges datagrams. Each of their two channels is a run of `Delivery`.
 */
module EndToEnd {
  import opened Bytes
  import opened Protocol
  import opened Wrappers
  import opened Packets
  import opened SspStates
  import opened Channels
  import opened Histories
  import opened Sessions
  import D = Delivery

  /** A session, what its application asked it to send, and the messages its application took. */
  datatype End = End(session: SessionState, queued: seq<Bytes>, shown: History, taken: seq<Bytes>)

  /** An emitted datagram stays in flight, to be heard any number of times at any later moment, or never. */
  datatype System = System(a: End, b: End, toA: set<Datagram>, toB: set<Datagram>)

  datatype Step = AtA(event: Event) | AtB(event: Event)

  function Flip(y: System): System { System(y.b, y.a, y.toB, y.toA) }

  /**
   * What a hostile network can bring to `a`: any header at all, over a payload sealed under some
   * other key or one it has seen, in either direction. It cannot seal under the pair's key.
   */
  ghost predicate CanArrive(y: System, d: Datagram) {
    d.payload.key == y.a.session.config.pairKey ==> exists e | e in y.toA + y.toB :: e.payload == d.payload
  }

  /** Something happens at `a`; it hears whatever the network can bring. */
  ghost function Act(y: System, e: Event): System
    requires y.a.session.Typed()
  {
    var s := y.a.session;
    match e
    case Queue(body) =>
      var (s', r) := s.QueueMessage(body);
      y.(a := y.a.(session := s', queued := if r.Ok? then y.a.queued + [body] else y.a.queued))
    case Show(rows) =>
      var (s', r) := s.ReplaceScreen(rows);
      y.(a := y.a.(session := s', shown := if r.Ok? then y.a.shown + [rows] else y.a.shown))
    case Drain =>
      y.(a := y.a.(session := s.TakeMessages(), taken := y.a.taken + s.messages.received.queue.messages))
    case Tick(nowMs, draws) =>
      var (s', out) := s.Outgoing(nowMs, draws);
      y.(a := y.a.(session := s'), toB := y.toB + Emitted(out))
    case Hear(d, heardMs, sampledRto) =>
      if CanArrive(y, d) then y.(a := y.a.(session := s.Handle(d, heardMs, sampledRto).0)) else y
  }

  ghost function Emitted(out: Result<seq<Datagram>, TransportError>): set<Datagram> {
    if out.Ok? then set d | d in out.value else {}
  }

  // ---------- the sessions are two runs of a lossy network ----------

  ghost predicate EndLinks(e: End, messages: D.Endpoint, screen: D.Endpoint) {
    && e.session.Typed()
    && e.session.messages == messages.chan && e.session.screen == screen.chan
    && e.queued == Newest(messages.hist) && e.taken == messages.delivered
    && e.shown == screen.hist
  }

  /** `s` knows `peer` by id, which is not its own, and by key, and has heard no other epoch of it. */
  ghost predicate Knows(s: SessionState, peer: SessionState) {
    && s.config.peerNodeId == peer.config.nodeId != s.config.nodeId
    && s.config.pairKey == peer.config.pairKey
    && s.retired == []
    && (s.peerEpoch.Some? ==> s.peerEpoch.value == peer.localEpoch)
  }

  /** A datagram that `s` built: its Instruction is in flight on the channel it names. */
  ghost predicate BuiltBy(d: Datagram, s: SessionState, messages: set<Instruction>, screen: set<Instruction>) {
    && d.header.src == s.config.nodeId && d.header.dst == s.config.peerNodeId && d.header.epoch == s.localEpoch
    && d.payload == Sealed(s.config.pairKey, d.header.seq', d.header, d.payload.plaintext)
    && var p := DecodePacket(d.payload.plaintext);
       && p.Ok?
       && var i := p.value.instruction;
          (i.channel == CHANNEL_MESSAGES && i in messages) || (i.channel == CHANNEL_SCREEN && i in screen)
  }

  ghost predicate Way(y: System, n0: D.Net, n1: D.Net) {
    && D.Inv(n0) && D.Inv(n1)
    && EndLinks(y.a, n0.a, n1.a)
    && Knows(y.a.session, y.b.session)
    && (forall d | d in y.toB :: BuiltBy(d, y.a.session, n0.toB, n1.toB))
  }

  /** The system is what two in-order networks, one a channel, make of it. */
  ghost predicate Link(y: System, n0: D.Net, n1: D.Net) {
    Way(y, n0, n1) && Way(Flip(y), D.Flip(n0), D.Flip(n1))
  }

  /** Every number so far fits the 64-bit fields that carry it. */
  ghost predicate Short(n: D.Net, k: nat) {
    |n.a.hist| <= k + 1 && |n.b.hist| <= k + 1
  }

  /** A change to `a`'s end that its two networks follow keeps the link. */
  lemma EndMoves(y: System, n0: D.Net, n1: D.Net, y': System, m0: D.Net, m1: D.Net)
    requires Link(y, n0, n1)
    requires D.Inv(m0) && D.Inv(m1) && EndLinks(y'.a, m0.a, m1.a)
    requires y'.b == y.b && m0.b == n0.b && m1.b == n1.b
    requires y'.toA == y.toA && m0.toA == n0.toA && m1.toA == n1.toA
    requires n0.toB <= m0.toB && n1.toB <= m1.toB
    requires y'.a.session.config == y.a.session.config && y'.a.session.localEpoch == y.a.session.localEpoch
    requires Knows(y'.a.session, y.b.session)
    requires forall d | d in y'.toB :: d in y.toB || BuiltBy(d, y'.a.session, m0.toB, m1.toB)
    ensures Link(y', m0, m1)
  {
    hide EndLinks, D.Half, DecodePacket;
    forall d | d in y'.toB
      ensures BuiltBy(d, y'.a.session, m0.toB, m1.toB)
    {
      if d in y.toB {
        assert BuiltBy(d, y.a.session, n0.toB, n1.toB);
      }
    }
    FlipKeepsInv(m0);
    FlipKeepsInv(m1);
    assert forall d | d in y.toA :: BuiltBy(d, y.b.session, n0.toA, n1.toA);
  }

  lemma FlipKeepsInv(n: D.Net)
    requires D.Inv(n)
    ensures D.Inv(D.Flip(n))
  {
    hide D.Half;
    assert D.Flip(D.Flip(n)) == n;
  }

  lemma FlipKeepsLink(y: System, n0: D.Net, n1: D.Net)
    requires Link(y, n0, n1)
    ensures Link(Flip(y), D.Flip(n0), D.Flip(n1))
  {
    hide Way;
    assert Flip(Flip(y)) == y && D.Flip(D.Flip(n0)) == n0 && D.Flip(D.Flip(n1)) == n1;
  }

  // ---------- every event is followed by the networks ----------

  lemma LinkKinds(y: System, n0: D.Net, n1: D.Net)
    requires Link(y, n0, n1)
    ensures y.a.session.Typed()
    ensures n0.a.chan.Typed() && n0.a.chan.initial.Messages? && n0.a.chan.id == CHANNEL_MESSAGES
    ensures n0.a.chan.received.Messages?
    ensures n1.a.chan.Typed() && n1.a.chan.initial.Screen? && n1.a.chan.id == CHANNEL_SCREEN
    ensures n0.a.chan == y.a.session.messages && n1.a.chan == y.a.session.screen
    ensures D.Inv(n0) && D.Inv(n1) && EndLinks(y.a, n0.a, n1.a) && Knows(y.a.session, y.b.session)
  {
    hide D.Half, BuiltBy;
  }

  lemma OfferLeaves(n: D.Net, change: Change) returns (m: D.Net)
    requires D.Inv(n) && n.a.chan.Typed() && change.Kind() == n.a.chan.initial.Kind() && WireSized(change)
    ensures D.Inv(m)
    ensures m == match Offer(n.a.chan, change)
                 case Err(_) => n
                 case Ok(c) => n.(a := n.a.(chan := c, hist := n.a.hist + [ViewAfter(change, Newest(n.a.hist))]))
  {
    D.ActKeeps(n, D.Offering(change));
    hide D.Half, Offer;
    m := D.Act(n, D.Offering(change));
  }

  lemma QueueLinks(y: System, n0: D.Net, n1: D.Net, body: Bytes) returns (m0: D.Net)
    requires Link(y, n0, n1)
    ensures y.a.session.Typed() && Link(Act(y, Queue(body)), m0, n1)
    ensures |m0.a.hist| <= |n0.a.hist| + 1 && m0 == n0.(a := m0.a)
  {
    LinkKinds(y, n0, n1);
    hide SessionState.Typed, ChannelState.Typed, D.Inv, BuiltBy, Offer, Link;
    m0 := OfferLeaves(n0, PushMessage(body));
    TypedStays(Act(y, Queue(body)).a.session, m0, n1);
    EndMoves(y, n0, n1, Act(y, Queue(body)), m0, n1);
  }

  lemma ShowLinks(y: System, n0: D.Net, n1: D.Net, rows: seq<Bytes>) returns (m1: D.Net)
    requires Link(y, n0, n1) && |rows| < U32_SPAN
    ensures y.a.session.Typed() && Link(Act(y, Show(rows)), n0, m1)
    ensures |m1.a.hist| <= |n1.a.hist| + 1 && m1 == n1.(a := m1.a)
  {
    LinkKinds(y, n0, n1);
    hide SessionState.Typed, ChannelState.Typed, D.Inv, BuiltBy, Offer, Link;
    m1 := OfferLeaves(n1, SetRows(rows));
    TypedStays(Act(y, Show(rows)).a.session, n0, m1);
    EndMoves(y, n0, n1, Act(y, Show(rows)), n0, m1);
  }

  lemma DrainLeaves(n: D.Net) returns (m: D.Net)
    requires D.Inv(n) && n.a.chan.Typed() && n.a.chan.received.Messages?
    ensures D.Inv(m) && m == D.Act(n, D.Draining)
    ensures var q := n.a.chan.received.queue;
            m == n.(a := n.a.(chan := n.a.chan.(received := Messages(q.Drain())), delivered := n.a.delivered + q.messages))
  {
    D.ActKeeps(n, D.Draining);
    hide D.Half;
    m := D.Act(n, D.Draining);
  }

  lemma DrainLinks(y: System, n0: D.Net, n1: D.Net) returns (m0: D.Net)
    requires Link(y, n0, n1)
    ensures y.a.session.Typed() && Link(Act(y, Drain), m0, n1)
    ensures n0.a.chan.Typed() && m0 == D.Act(n0, D.Draining) && m0.a.hist == n0.a.hist && m0.b == n0.b
  {
    LinkKinds(y, n0, n1);
    hide ChannelState.Typed, D.Inv, BuiltBy, Link;
    m0 := DrainLeaves(n0);
    TypedStays(Act(y, Drain).a.session, m0, n1);
    hide SessionState.Typed;
    EndMoves(y, n0, n1, Act(y, Drain), m0, n1);
  }

  /** A datagram in flight is taken for what it is: authentic, of no new epoch, and applied. */
  lemma HeardIsApplied(y: System, n0: D.Net, n1: D.Net, d: Datagram, heardMs: nat, sampledRto: nat)
    requires Link(y, n0, n1) && d in y.toA
    ensures var s := y.a.session;
            && s.Authentic(d).Ok?
            && var p := s.Authentic(d).value;
            && s.Handle(d, heardMs, sampledRto) == s.Noted(d, p, heardMs, sampledRto).Applied(p.instruction)
            && d.header.epoch == y.b.session.localEpoch
            && BuiltBy(d, y.b.session, n0.toA, n1.toA) && p == DecodePacket(d.payload.plaintext).value
  {
    hide D.Half, DecodePacket, EndLinks, SessionState.Noted, SessionState.Applied;
    assert BuiltBy(d, y.b.session, n0.toA, n1.toA);
  }

  /** What hearing leaves of a session: one channel moves, and the epoch heard is noted. */
  lemma HearingLeaves(s: SessionState, d: Datagram, p: Packet, heardMs: nat, sampledRto: nat)
    requires s.Typed() && p.instruction.channel <= CHANNEL_SCREEN
    ensures var s', i := s.Noted(d, p, heardMs, sampledRto).Applied(p.instruction).0, p.instruction;
            && s'.messages == (if i.channel == CHANNEL_MESSAGES then s.messages.Apply(i).0 else s.messages)
            && s'.screen == (if i.channel == CHANNEL_SCREEN then s.screen.Apply(i).0 else s.screen)
            && s'.config == s.config && s'.localEpoch == s.localEpoch && s'.retired == s.retired
            && s'.peerEpoch == Some(d.header.epoch)
  {
    hide ChannelState.Apply;
  }

  /** The system after `a` heard `i`, given what its session came to. */
  lemma HearMessages(y: System, n0: D.Net, n1: D.Net, s': SessionState, i: Instruction) returns (m0: D.Net)
    requires Link(y, n0, n1) && i in n0.toA
    requires s'.messages == y.a.session.messages.Apply(i).0 && s'.screen == y.a.session.screen
    requires s'.config == y.a.session.config && s'.localEpoch == y.a.session.localEpoch
    requires Knows(s', y.b.session)
    ensures Link(y.(a := y.a.(session := s')), m0, n1)
    ensures n0.a.chan.Typed() && m0 == D.Act(n0, D.Receiving(i))
  {
    LinkKinds(y, n0, n1);
    ApplyIsTyped(y.a.session.messages, i);
    m0 := D.Act(n0, D.Receiving(i));
    D.ActKeeps(n0, D.Receiving(i));
    hide D.Half, BuiltBy, ChannelState.Apply, Knows, Link, D.Inv;
    EndMoves(y, n0, n1, y.(a := y.a.(session := s')), m0, n1);
  }

  lemma HearScreen(y: System, n0: D.Net, n1: D.Net, s': SessionState, i: Instruction) returns (m1: D.Net)
    requires Link(y, n0, n1) && i in n1.toA
    requires s'.screen == y.a.session.screen.Apply(i).0 && s'.messages == y.a.session.messages
    requires s'.config == y.a.session.config && s'.localEpoch == y.a.session.localEpoch
    requires Knows(s', y.b.session)
    ensures Link(y.(a := y.a.(session := s')), n0, m1)
    ensures n1.a.chan.Typed() && m1 == D.Act(n1, D.Receiving(i))
  {
    LinkKinds(y, n0, n1);
    ApplyIsTyped(y.a.session.screen, i);
    m1 := D.Act(n1, D.Receiving(i));
    D.ActKeeps(n1, D.Receiving(i));
    hide D.Half, BuiltBy, ChannelState.Apply, Knows, Link, D.Inv;
    EndMoves(y, n0, n1, y.(a := y.a.(session := s')), n0, m1);
  }

  /** The session after a datagram in flight was heard. */
  lemma HeardSession(y: System, n0: D.Net, n1: D.Net, d: Datagram, heardMs: nat, sampledRto: nat) returns (i: Instruction)
    requires Link(y, n0, n1) && d in y.toA
    ensures y.a.session.Typed()
    ensures (i.channel == CHANNEL_MESSAGES && i in n0.toA) || (i.channel == CHANNEL_SCREEN && i in n1.toA)
    ensures var s, s' := y.a.session, y.a.session.Handle(d, heardMs, sampledRto).0;
            && s'.messages == (if i.channel == CHANNEL_MESSAGES then s.messages.Apply(i).0 else s.messages)
            && s'.screen == (if i.channel == CHANNEL_SCREEN then s.screen.Apply(i).0 else s.screen)
            && s'.config == s.config && s'.localEpoch == s.localEpoch
            && Knows(s', y.b.session)
    ensures DecodePacket(d.payload.plaintext).Ok? && i == DecodePacket(d.payload.plaintext).value.instruction
  {
    LinkKinds(y, n0, n1);
    HeardIsApplied(y, n0, n1, d, heardMs, sampledRto);
    var p := y.a.session.Authentic(d).value;
    HearingLeaves(y.a.session, d, p, heardMs, sampledRto);
    i := p.instruction;
    hide D.Inv, Link, EndLinks, SessionState.Authentic, SessionState.Handle, ChannelState.Apply, DecodePacket,
      SessionState.Noted, SessionState.Applied, SessionState.Typed;
  }

  lemma ActHears(y: System, d: Datagram, heardMs: nat, sampledRto: nat)
    requires y.a.session.Typed()
    ensures Act(y, Hear(d, heardMs, sampledRto))
         == if CanArrive(y, d) then y.(a := y.a.(session := y.a.session.Handle(d, heardMs, sampledRto).0)) else y
  {
    hide SessionState.Handle, SessionState.Outgoing, SessionState.QueueMessage, SessionState.ReplaceScreen,
      SessionState.TakeMessages, SessionState.Typed, CanArrive;
  }

  /** What is authentic was emitted by the peer: nothing altered, forged or sent back to its sender is. */
  lemma AuthenticIsEmitted(y: System, n0: D.Net, n1: D.Net, d: Datagram)
    requires Link(y, n0, n1) && CanArrive(y, d) && y.a.session.Authentic(d).Ok?
    ensures d in y.toA
  {
    hide D.Inv, EndLinks, DecodePacket;
    var e :| e in y.toA + y.toB && e.payload == d.payload;
    assert e in y.toB ==> BuiltBy(e, y.a.session, n0.toB, n1.toB);
    assert e in y.toA ==> BuiltBy(e, y.b.session, n0.toA, n1.toA);
  }

  /** Anything the network brings that the peer did not emit leaves no trace. */
  lemma ForgeriesLeaveNoTrace(y: System, n0: D.Net, n1: D.Net, d: Datagram, heardMs: nat, sampledRto: nat)
    requires Link(y, n0, n1) && CanArrive(y, d) && d !in y.toA
    ensures y.a.session.Typed() && Act(y, Hear(d, heardMs, sampledRto)) == y
  {
    LinkKinds(y, n0, n1);
    if y.a.session.Authentic(d).Ok? {
      AuthenticIsEmitted(y, n0, n1, d);
    }
    ActHears(y, d, heardMs, sampledRto);
    hide Act, CanArrive, Link, SessionState.Typed, SessionState.Authentic;
  }

  /** One Instruction in flight on one channel was delivered, and nothing else happened. */
  ghost predicate Delivers(n0: D.Net, n1: D.Net, m0: D.Net, m1: D.Net, i: Instruction) {
    && n0.a.chan.Typed() && n1.a.chan.Typed()
    && ((i in n0.toA && m0 == D.Act(n0, D.Receiving(i)) && m1 == n1)
        || (i in n1.toA && m1 == D.Act(n1, D.Receiving(i)) && m0 == n0))
  }

  lemma ReceivingLeaves(n: D.Net, i: Instruction)
    requires n.a.chan.Typed()
    ensures D.Act(n, D.Receiving(i)).a.hist == n.a.hist && D.Act(n, D.Receiving(i)).b == n.b
  {
    hide ChannelState.Apply;
  }

  lemma EmittedCanArrive(y: System, d: Datagram)
    requires d in y.toA
    ensures CanArrive(y, d)
  {
  }

  lemma HearEmitted(y: System, n0: D.Net, n1: D.Net, d: Datagram, heardMs: nat, sampledRto: nat)
    returns (m0: D.Net, m1: D.Net, i: Instruction)
    requires Link(y, n0, n1) && d in y.toA
    ensures y.a.session.Typed() && Link(Act(y, Hear(d, heardMs, sampledRto)), m0, m1)
    ensures Delivers(n0, n1, m0, m1, i)
    ensures m0.a.hist == n0.a.hist && m0.b == n0.b && m1.a.hist == n1.a.hist && m1.b == n1.b
  {
    LinkKinds(y, n0, n1);
    ActHears(y, d, heardMs, sampledRto);
    EmittedCanArrive(y, d);
    hide Act, Link, Knows, EndLinks, D.Inv, D.Act, CanArrive, SessionState.Handle, ChannelState.Apply, SessionState.Typed,
      ChannelState.Typed;
    i := HeardSession(y, n0, n1, d, heardMs, sampledRto);
    var s' := y.a.session.Handle(d, heardMs, sampledRto).0;
    m0, m1 := n0, n1;
    if i.channel == CHANNEL_MESSAGES {
      m0 := HearMessages(y, n0, n1, s', i);
      ReceivingLeaves(n0, i);
    } else {
      m1 := HearScreen(y, n0, n1, s', i);
      ReceivingLeaves(n1, i);
    }
  }

  /** Hearing a datagram of the peer's is one delivery; hearing anything else is nothing at all. */
  lemma HearLinks(y: System, n0: D.Net, n1: D.Net, d: Datagram, heardMs: nat, sampledRto: nat)
    returns (m0: D.Net, m1: D.Net)
    requires Link(y, n0, n1)
    ensures y.a.session.Typed() && Link(Act(y, Hear(d, heardMs, sampledRto)), m0, m1)
    ensures if d in y.toA then exists i :: Delivers(n0, n1, m0, m1, i)
            else Act(y, Hear(d, heardMs, sampledRto)) == y && m0 == n0 && m1 == n1
    ensures m0.a.hist == n0.a.hist && m0.b == n0.b && m1.a.hist == n1.a.hist && m1.b == n1.b
  {
    LinkKinds(y, n0, n1);
    ActHears(y, d, heardMs, sampledRto);
    hide Act, Link, Knows, EndLinks, D.Inv, CanArrive, SessionState.Handle, SessionState.Typed, ChannelState.Typed, Delivers;
    m0, m1 := n0, n1;
    if d in y.toA {
      var i;
      m0, m1, i := HearEmitted(y, n0, n1, d, heardMs, sampledRto);
    } else if CanArrive(y, d) {
      ForgeriesLeaveNoTrace(y, n0, n1, d, heardMs, sampledRto);
    }
  }

  // ---------- sending ----------

  /** What an in-order channel sends can be framed, and reads back as itself. */
  lemma InstructionFits(n: D.Net, k: nat)
    requires D.Inv(n) && Short(n, k) && k < U64_SPAN && n.a.chan.id < 256
    ensures n.a.chan.Typed() && n.a.chan.NextInstruction().Ok?
    ensures var i := n.a.chan.NextInstruction().value;
            Representable(i) && |i.diff| <= MAX_DIFF_LEN && i.channel == n.a.chan.id
  {
    NeverWedged(n.a.chan, n.a.hist);
    hide ChannelState.NextInstruction, Shows;
    assert D.Held(D.Flip(n));
  }

  lemma ReplyFits(s: SessionState, nowMs: nat)
    ensures s.ReplyTs(nowMs) < U16_SPAN
  {
  }

  /** `s'` differs from `s` in nothing a peer or a channel could tell. */
  ghost predicate SameLink(s: SessionState, s': SessionState) {
    s'.config == s.config && s'.localEpoch == s.localEpoch && s'.retired == s.retired && s'.peerEpoch == s.peerEpoch
  }

  /** A datagram from `s` to its peer that carries `i`. */
  ghost predicate CarriesFrom(d: Datagram, s: SessionState, i: Instruction) {
    && d.header.src == s.config.nodeId && d.header.dst == s.config.peerNodeId && d.header.epoch == s.localEpoch
    && d.payload == Sealed(s.config.pairKey, d.header.seq', d.header, d.payload.plaintext)
    && DecodePacket(d.payload.plaintext).Ok? && DecodePacket(d.payload.plaintext).value.instruction == i
  }

  /** What a build puts on the wire. */
  lemma BuildCarries(s: SessionState, id: nat, nowMs: nat, drawn: Option<nat>, heartbeat: bool)
    requires s.Typed() && s.ChannelOf(id).NextInstruction().Ok?
    requires var i := s.ChannelOf(id).NextInstruction().value; Representable(i) && |i.diff| <= MAX_DIFF_LEN
    ensures var r := s.Build(id, nowMs, drawn, heartbeat).1;
            r.Ok? ==> CarriesFrom(r.value, s, s.ChannelOf(id).NextInstruction().value)
  {
    var i := s.ChannelOf(id).NextInstruction().value;
    ReplyFits(s, nowMs);
    PacketRoundTrip(Packet(Timestamp16(nowMs), s.ReplyTs(nowMs), i));
    hide ChannelState.NextInstruction, EncodePacket, DecodePacket, Representable, SessionState.Typed, SessionState.ReplyTs,
      SessionState.Sent, SessionState.ChannelOf;
  }

  /** What a build leaves of a session. */
  lemma BuildLeaves(s: SessionState, id: nat, nowMs: nat, drawn: Option<nat>, heartbeat: bool)
    requires s.Typed() && s.ChannelOf(id).NextInstruction().Ok?
    ensures var (s', r) := s.Build(id, nowMs, drawn, heartbeat);
            var i := s.ChannelOf(id).NextInstruction().value;
            && SameLink(s, s')
            && s'.messages == (if r.Ok? && id != CHANNEL_SCREEN then s.messages.NoteSent(i, nowMs) else s.messages)
            && s'.screen == (if r.Ok? && id == CHANNEL_SCREEN then s.screen.NoteSent(i, nowMs) else s.screen)
  {
    hide ChannelState.NextInstruction, EncodePacket, SessionState.Typed, SessionState.ReplyTs, SessionState.ChannelOf,
      ChannelState.NoteSent;
  }

  ghost function Built(y: System, s': SessionState, r: Result<Datagram, TransportError>): System {
    y.(a := y.a.(session := s'), toB := if r.Ok? then y.toB + {r.value} else y.toB)
  }

  lemma {:induction false} SameReach(c: ChannelState, num: nat, stamp: Option<nat>, k: nat)
    requires c.Typed() && k < |c.sent|
    ensures var c' := c.(sentNum := num, lastSentMs := stamp);
            c'.Reach(k) == c.Reach(k) && c'.StepDiff(k) == c.StepDiff(k)
    decreases |c.sent| - k
  {
    if k + 1 < |c.sent| {
      SameReach(c, num, stamp, k + 1);
    }
  }

  /** What a channel sends next does not depend on what it noted of its sending. */
  lemma SameNext(c: ChannelState, num: nat, stamp: Option<nat>)
    requires c.Typed()
    ensures c.(sentNum := num, lastSentMs := stamp).NextInstruction() == c.NextInstruction()
  {
    SameReach(c, num, stamp, 0);
    SameReach(c, num, stamp, c.Reach(0));
    hide ChannelState.Reach, ChannelState.StepDiff;
  }

  /** `m` is `n` after `a` sent, any number of times, its next Instruction and nothing else. */
  ghost predicate OnlySends(n: D.Net, m: D.Net) {
    && n.a.chan.Typed()
    && m == n.(a := n.a.(chan := n.a.chan.(sentNum := m.a.chan.sentNum, lastSentMs := m.a.chan.lastSentMs)), toB := m.toB)
    && n.toB <= m.toB
    && n.a.chan.sentNum <= m.a.chan.sentNum
    && (m.a.chan.sentNum > n.a.chan.sentNum ==>
          n.a.chan.NextInstruction().Ok? && m.a.chan.sentNum == n.a.chan.NextInstruction().value.newNum)
    && (forall i | i in m.toB && i !in n.toB :: n.a.chan.NextInstruction() == Ok(i))
  }

  lemma SendsNothing(n: D.Net)
    requires n.a.chan.Typed()
    ensures OnlySends(n, n)
  {
  }

  lemma SendsStayShort(n: D.Net, m: D.Net, k: nat)
    requires OnlySends(n, m) && Short(n, k)
    ensures Short(m, k)
  {
  }

  lemma SendsAddUp(n: D.Net, m: D.Net, l: D.Net)
    requires OnlySends(n, m) && OnlySends(m, l)
    ensures OnlySends(n, l)
  {
    SameNext(n.a.chan, m.a.chan.sentNum, m.a.chan.lastSentMs);
    hide ChannelState.NextInstruction, ChannelState.Typed;
  }

  lemma SendingLeaves(n: D.Net, nowMs: nat) returns (m: D.Net)
    requires D.Inv(n)
    ensures D.Inv(m) && n.a.chan.Typed() && n.a.chan.NextInstruction().Ok?
    ensures var i := n.a.chan.NextInstruction().value;
            m == n.(a := n.a.(chan := n.a.chan.NoteSent(i, nowMs)), toB := n.toB + {i})
    ensures OnlySends(n, m)
  {
    NeverWedged(n.a.chan, n.a.hist);
    D.ActKeeps(n, D.Sending(nowMs));
    hide D.Half, ChannelState.NextInstruction;
    m := D.Act(n, D.Sending(nowMs));
  }

  lemma MessagesSent(y: System, n0: D.Net, n1: D.Net, s': SessionState, r: Result<Datagram, TransportError>, i: Instruction,
                    nowMs: nat, m0: D.Net)
    requires Link(y, n0, n1) && SameLink(y.a.session, s') && D.Inv(m0)
    requires s'.messages == m0.a.chan && s'.screen == y.a.session.screen
    requires if r.Ok? then CarriesFrom(r.value, y.a.session, i) && i.channel == CHANNEL_MESSAGES else m0 == n0
    requires r.Ok? ==> m0 == n0.(a := n0.a.(chan := n0.a.chan.NoteSent(i, nowMs)), toB := n0.toB + {i})
    ensures Link(Built(y, s', r), m0, n1)
  {
    LinkKinds(y, n0, n1);
    hide D.Inv, Link, DecodePacket, SessionState.Typed;
    TypedStays(s', m0, n1);
    EndMoves(y, n0, n1, Built(y, s', r), m0, n1);
  }

  lemma BuildMessagesLinks(y: System, n0: D.Net, n1: D.Net, k: nat, nowMs: nat, drawn: Option<nat>, heartbeat: bool)
    returns (m0: D.Net)
    requires Link(y, n0, n1) && Short(n0, k) && k < U64_SPAN
    ensures y.a.session.Typed()
    ensures var (s', r) := y.a.session.Build(CHANNEL_MESSAGES, nowMs, drawn, heartbeat); Link(Built(y, s', r), m0, n1)
    ensures OnlySends(n0, m0)
  {
    LinkKinds(y, n0, n1);
    InstructionFits(n0, k);
    BuildCarries(y.a.session, CHANNEL_MESSAGES, nowMs, drawn, heartbeat);
    BuildLeaves(y.a.session, CHANNEL_MESSAGES, nowMs, drawn, heartbeat);
    hide D.Inv, Link, ChannelState.NextInstruction, SessionState.Build, Representable, SessionState.Typed, CarriesFrom,
      SameLink, Built, EndLinks, OnlySends, ChannelState.Typed;
    var (s', r) := y.a.session.Build(CHANNEL_MESSAGES, nowMs, drawn, heartbeat);
    m0 := n0;
    SendsNothing(n0);
    if r.Ok? {
      m0 := SendingLeaves(n0, nowMs);
    }
    MessagesSent(y, n0, n1, s', r, y.a.session.messages.NextInstruction().value, nowMs, m0);
  }

  lemma ScreenSent(y: System, n0: D.Net, n1: D.Net, s': SessionState, r: Result<Datagram, TransportError>, i: Instruction,
                    nowMs: nat, m1: D.Net)
    requires Link(y, n0, n1) && SameLink(y.a.session, s') && D.Inv(m1)
    requires s'.screen == m1.a.chan && s'.messages == y.a.session.messages
    requires if r.Ok? then CarriesFrom(r.value, y.a.session, i) && i.channel == CHANNEL_SCREEN else m1 == n1
    requires r.Ok? ==> m1 == n1.(a := n1.a.(chan := n1.a.chan.NoteSent(i, nowMs)), toB := n1.toB + {i})
    ensures Link(Built(y, s', r), n0, m1)
  {
    LinkKinds(y, n0, n1);
    hide D.Inv, Link, DecodePacket, SessionState.Typed;
    TypedStays(s', n0, m1);
    EndMoves(y, n0, n1, Built(y, s', r), n0, m1);
  }

  lemma BuildScreenLinks(y: System, n0: D.Net, n1: D.Net, k: nat, nowMs: nat, drawn: Option<nat>, heartbeat: bool)
    returns (m1: D.Net)
    requires Link(y, n0, n1) && Short(n1, k) && k < U64_SPAN
    ensures y.a.session.Typed()
    ensures var (s', r) := y.a.session.Build(CHANNEL_SCREEN, nowMs, drawn, heartbeat); Link(Built(y, s', r), n0, m1)
    ensures OnlySends(n1, m1)
  {
    LinkKinds(y, n0, n1);
    InstructionFits(n1, k);
    BuildCarries(y.a.session, CHANNEL_SCREEN, nowMs, drawn, heartbeat);
    BuildLeaves(y.a.session, CHANNEL_SCREEN, nowMs, drawn, heartbeat);
    hide D.Inv, Link, ChannelState.NextInstruction, SessionState.Build, Representable, SessionState.Typed, CarriesFrom,
      SameLink, Built, EndLinks, OnlySends, ChannelState.Typed;
    var (s', r) := y.a.session.Build(CHANNEL_SCREEN, nowMs, drawn, heartbeat);
    m1 := n1;
    SendsNothing(n1);
    if r.Ok? {
      m1 := SendingLeaves(n1, nowMs);
    }
    ScreenSent(y, n0, n1, s', r, y.a.session.screen.NextInstruction().value, nowMs, m1);
  }

  lemma TypedStays(s: SessionState, n0: D.Net, n1: D.Net)
    requires D.Inv(n0) && D.Inv(n1) && s.messages == n0.a.chan && s.screen == n1.a.chan
    requires n0.a.chan.id == CHANNEL_MESSAGES && n1.a.chan.id == CHANNEL_SCREEN
    ensures s.Typed()
  {
  }

  /** Channels that the schedule names. */
  ghost predicate Channels01(wanted: seq<(nat, bool)>) {
    forall k | 0 <= k < |wanted| :: wanted[k].0 == CHANNEL_MESSAGES || wanted[k].0 == CHANNEL_SCREEN
  }

  lemma WantedChannels(s: SessionState, nowMs: nat)
    ensures Channels01(s.Wanted(nowMs))
  {
    hide ChannelDueAt;
  }

  lemma BuildOneLinks(y: System, n0: D.Net, n1: D.Net, k: nat, id: nat, nowMs: nat, drawn: Option<nat>, heartbeat: bool)
    returns (m0: D.Net, m1: D.Net)
    requires Link(y, n0, n1) && Short(n0, k) && Short(n1, k) && k < U64_SPAN
    requires id == CHANNEL_MESSAGES || id == CHANNEL_SCREEN
    requires y.a.session.Typed()
    ensures var (s', r) := y.a.session.Build(id, nowMs, drawn, heartbeat); Link(Built(y, s', r), m0, m1)
    ensures OnlySends(n0, m0) && OnlySends(n1, m1)
  {
    LinkKinds(y, n0, n1);
    hide Link, SessionState.Build, SessionState.Typed, EndLinks, D.Inv, Knows, OnlySends, ChannelState.Typed;
    SendsNothing(n0);
    SendsNothing(n1);
    m0, m1 := n0, n1;
    if id == CHANNEL_MESSAGES {
      m0 := BuildMessagesLinks(y, n0, n1, k, nowMs, drawn, heartbeat);
    } else {
      m1 := BuildScreenLinks(y, n0, n1, k, nowMs, drawn, heartbeat);
    }
  }

  /** Fewer datagrams in flight is fewer to account for. */
  lemma FewerInFlight(y: System, y': System, n0: D.Net, n1: D.Net)
    requires Link(y, n0, n1) && y' == y.(toB := y'.toB) && y'.toB <= y.toB
    ensures Link(y', n0, n1)
  {
    hide D.Inv, EndLinks, DecodePacket;
    forall d | d in y'.toB
      ensures BuiltBy(d, y'.a.session, n0.toB, n1.toB)
    {
      assert BuiltBy(d, y.a.session, n0.toB, n1.toB);
    }
  }

  ghost function AllBuilt(y: System, s': SessionState, out: Result<seq<Datagram>, TransportError>): System {
    y.(a := y.a.(session := s'), toB := y.toB + Emitted(out))
  }

  lemma BuiltNothing(y: System)
    ensures AllBuilt(y, y.a.session, Ok([])) == y
  {
  }

  lemma BuiltSession(y: System, s': SessionState, r: Result<Datagram, TransportError>)
    ensures Built(y, s', r).a.session == s'
  {
  }

  lemma BuiltOneFailed(y: System, s': SessionState, r: Result<Datagram, TransportError>)
    requires r.Err?
    ensures AllBuilt(y, s', Err(r.error)) == Built(y, s', r)
  {
  }

  /** A later failure loses what was built before it: fewer datagrams are in flight. */
  lemma BuiltOneMore(y: System, s1: SessionState, d: Datagram, s': SessionState, out: Result<seq<Datagram>, TransportError>,
                     n0: D.Net, n1: D.Net)
    requires Link(AllBuilt(Built(y, s1, Ok(d)), s', out), n0, n1)
    ensures Link(AllBuilt(y, s', if out.Ok? then Ok([d] + out.value) else out), n0, n1)
  {
    hide Link;
    var before, after := AllBuilt(Built(y, s1, Ok(d)), s', out), AllBuilt(y, s', if out.Ok? then Ok([d] + out.value) else out);
    FewerInFlight(before, after, n0, n1);
  }

  lemma {:induction false} BuildAllLinks(y: System, n0: D.Net, n1: D.Net, k: nat, wanted: seq<(nat, bool)>, nowMs: nat,
                                         draws: seq<Option<nat>>) returns (m0: D.Net, m1: D.Net)
    requires Link(y, n0, n1) && Short(n0, k) && Short(n1, k) && k < U64_SPAN && Channels01(wanted)
    requires y.a.session.Typed()
    ensures var (s', out) := y.a.session.BuildAll(wanted, nowMs, draws); Link(AllBuilt(y, s', out), m0, m1)
    ensures OnlySends(n0, m0) && OnlySends(n1, m1)
    decreases wanted
  {
    LinkKinds(y, n0, n1);
    hide Link, SessionState.Build, SessionState.BuildAll, SessionState.Typed, ChannelState.Typed, EndLinks, D.Inv, Knows,
      OnlySends, Short, AllBuilt, Built;
    if wanted == [] {
      SendsNothing(n0);
      SendsNothing(n1);
      BuildNothing(y.a.session, nowMs, draws);
      m0, m1 := n0, n1;
      BuiltNothing(y);
    } else {
      var (s1, r) := y.a.session.Build(wanted[0].0, nowMs, HeadDraw(draws), wanted[0].1);
      BuildAllUnfolds(y.a.session, wanted, nowMs, draws);
      m0, m1 := BuildOneLinks(y, n0, n1, k, wanted[0].0, nowMs, HeadDraw(draws), wanted[0].1);
      var l0, l1 := m0, m1;
      if r.Err? {
        BuiltOneFailed(y, s1, r);
      } else {
        var y1 := Built(y, s1, r);
        BuiltSession(y, s1, r);
        SendsStayShort(n0, l0, k);
        SendsStayShort(n1, l1, k);
        m0, m1 := BuildAllLinks(y1, l0, l1, k, wanted[1..], nowMs, TailDraws(draws));
        SendsAddUp(n0, l0, m0);
        SendsAddUp(n1, l1, m1);
        var (s', out) := s1.BuildAll(wanted[1..], nowMs, TailDraws(draws));
        BuiltOneMore(y, s1, r.value, s', out, m0, m1);
      }
    }
  }

  lemma TickLinks(y: System, n0: D.Net, n1: D.Net, k: nat, nowMs: nat, draws: seq<Option<nat>>)
    returns (m0: D.Net, m1: D.Net)
    requires Link(y, n0, n1) && Short(n0, k) && Short(n1, k) && k < U64_SPAN
    ensures y.a.session.Typed() && Link(Act(y, Tick(nowMs, draws)), m0, m1)
    ensures OnlySends(n0, m0) && OnlySends(n1, m1)
  {
    LinkKinds(y, n0, n1);
    var s := y.a.session;
    var wanted := s.Wanted(nowMs);
    WantedChannels(s, nowMs);
    hide Link, SessionState.BuildAll, SessionState.Wanted, SessionState.Typed, D.Inv, EndLinks, Channels01;
    m0, m1 := n0, n1;
    if !s.FloorElapsed(nowMs) {
      assert Act(y, Tick(nowMs, draws)) == y;
    } else if s.DueChannels(nowMs) == [] {
      var z := y.(a := y.a.(session := s.Turned()));
      TurnLinks(y, n0, n1);
      m0, m1 := BuildAllLinks(z, n0, n1, k, wanted, nowMs, draws);
      var (s', out) := s.Turned().BuildAll(wanted, nowMs, draws);
      assert Act(y, Tick(nowMs, draws)) == AllBuilt(z, s', out);
    } else {
      m0, m1 := BuildAllLinks(y, n0, n1, k, wanted, nowMs, draws);
      var (s', out) := s.BuildAll(wanted, nowMs, draws);
      var built := AllBuilt(y, s', out);
      if out.Ok? {
        TurnLinks(built, m0, m1);
        assert Act(y, Tick(nowMs, draws)) == built.(a := built.a.(session := s'.Turned()));
      } else {
        assert Act(y, Tick(nowMs, draws)) == built;
      }
    }
  }

  /** Whose turn it is on the wire is no part of the link. */
  lemma TurnLinks(y: System, n0: D.Net, n1: D.Net)
    requires Link(y, n0, n1)
    ensures y.a.session.Typed() && y.a.session.Turned().Typed()
    ensures Link(y.(a := y.a.(session := y.a.session.Turned())), n0, n1)
  {
    LinkKinds(y, n0, n1);
    hide Link, D.Inv, BuiltBy;
    EndMoves(y, n0, n1, y.(a := y.a.(session := y.a.session.Turned())), n0, n1);
  }

  // ---------- runs ----------

  /** Every grid in the run has a row count the wire's 32-bit field can carry. */
  ghost predicate Possible(steps: seq<Step>) {
    forall s | s in steps && s.event.Show? :: |s.event.rows| < U32_SPAN
  }

  ghost function Take(y: System, step: Step): System {
    match step
    case AtA(e) => if y.a.session.Typed() then Act(y, e) else y
    case AtB(e) => if y.b.session.Typed() then Flip(Act(Flip(y), e)) else y
  }

  ghost function Run(y: System, steps: seq<Step>): System
    decreases steps
  {
    if steps == [] then y else Run(Take(y, steps[0]), steps[1..])
  }

  lemma ActLinks(y: System, n0: D.Net, n1: D.Net, k: nat, e: Event) returns (m0: D.Net, m1: D.Net)
    requires Link(y, n0, n1) && Short(n0, k) && Short(n1, k) && k < U64_SPAN
    requires e.Show? ==> |e.rows| < U32_SPAN
    ensures y.a.session.Typed() && Link(Act(y, e), m0, m1)
    ensures Short(m0, k + 1) && Short(m1, k + 1)
  {
    hide Link, Act, SessionState.Typed;
    m0, m1 := n0, n1;
    match e
    case Queue(body) => m0 := QueueLinks(y, n0, n1, body);
    case Show(rows) => m1 := ShowLinks(y, n0, n1, rows);
    case Drain => m0 := DrainLinks(y, n0, n1);
    case Tick(nowMs, draws) => m0, m1 := TickLinks(y, n0, n1, k, nowMs, draws);
    case Hear(d, heardMs, sampledRto) => m0, m1 := HearLinks(y, n0, n1, d, heardMs, sampledRto);
  }

  lemma TakeLinks(y: System, n0: D.Net, n1: D.Net, k: nat, step: Step) returns (m0: D.Net, m1: D.Net)
    requires Link(y, n0, n1) && Short(n0, k) && Short(n1, k) && k < U64_SPAN
    requires step.event.Show? ==> |step.event.rows| < U32_SPAN
    ensures Link(Take(y, step), m0, m1)
    ensures Short(m0, k + 1) && Short(m1, k + 1)
  {
    hide Link, Act, SessionState.Typed;
    match step
    case AtA(e) => m0, m1 := ActLinks(y, n0, n1, k, e);
    case AtB(e) =>
      FlipKeepsLink(y, n0, n1);
      m0, m1 := ActLinks(Flip(y), D.Flip(n0), D.Flip(n1), k, e);
      FlipKeepsLink(Act(Flip(y), e), m0, m1);
      m0, m1 := D.Flip(m0), D.Flip(m1);
  }

  lemma {:induction false} RunLinks(y: System, n0: D.Net, n1: D.Net, k: nat, steps: seq<Step>)
    returns (m0: D.Net, m1: D.Net)
    requires Link(y, n0, n1) && Short(n0, k) && Short(n1, k) && k + |steps| <= U64_SPAN
    requires Possible(steps)
    ensures Link(Run(y, steps), m0, m1) && Short(m0, k + |steps|) && Short(m1, k + |steps|)
    decreases steps
  {
    hide Link, Take;
    m0, m1 := n0, n1;
    if steps != [] {
      assert steps[0] in steps;
      m0, m1 := TakeLinks(y, n0, n1, k, steps[0]);
      m0, m1 := RunLinks(Take(y, steps[0]), m0, m1, k + 1, steps[1..]);
    }
  }

  ghost predicate Paired(a: Config, b: Config) {
    a.peerNodeId == b.nodeId && b.peerNodeId == a.nodeId && a.nodeId != b.nodeId && a.pairKey == b.pairKey
  }

  ghost predicate IsFreshEnd(e: End) {
    && e.queued == [] && e.shown == [[]] && e.taken == []
    && e.session.messages.initial.Messages?
    && e.session == NewSession(e.session.config, e.session.messages.initial.queue.limits, e.session.messages.maxSent,
                               e.session.localEpoch)
  }

  /** Two fresh sessions that were paired: each knows the other's id, and they share a key. */
  ghost predicate IsStart(y: System) {
    && IsFreshEnd(y.a) && IsFreshEnd(y.b)
    && Paired(y.a.session.config, y.b.session.config)
    && y.toA == {} && y.toB == {}
  }

  lemma StartLinks(y: System) returns (n0: D.Net, n1: D.Net)
    requires IsStart(y)
    ensures Link(y, n0, n1)
    ensures n0.toA == n0.toB == n1.toA == n1.toB == {}
    ensures Short(n0, 0) && Short(n1, 0)
  {
    var a, b := y.a.session, y.b.session;
    n0 := D.Start(CHANNEL_MESSAGES, a.messages.initial, b.messages.initial, a.messages.maxSent, b.messages.maxSent);
    n1 := D.Start(CHANNEL_SCREEN, a.screen.initial, b.screen.initial, a.screen.maxSent, b.screen.maxSent);
    D.StartsInOrder(CHANNEL_MESSAGES, a.messages.initial, b.messages.initial, a.messages.maxSent, b.messages.maxSent);
    D.StartsInOrder(CHANNEL_SCREEN, a.screen.initial, b.screen.initial, a.screen.maxSent, b.screen.maxSent);
    hide D.Half;
    FlipKeepsInv(n0);
    FlipKeepsInv(n1);
  }

  // ---------- what applications see ----------

  /** What `a` asked for is what `b` sees of it, so far. */
  ghost predicate Faithful(y: System) {
    var s := y.b.session;
    && s.messages.received.Messages? && s.screen.received.Screen?
    && s.messages.receivedNum <= |y.a.queued|
    && y.b.taken + s.messages.received.queue.messages == y.a.queued[..s.messages.receivedNum]
    && s.screen.receivedNum < |y.a.shown|
    && s.screen.received.grid.rows == y.a.shown[s.screen.receivedNum]
  }

  lemma LinkIsFaithful(y: System, n0: D.Net, n1: D.Net)
    requires Link(y, n0, n1)
    ensures Faithful(y)
  {
    LinkKinds(y, n0, n1);
    D.DeliveredPrefix(n0);
    assert D.Held(n1);
    FlipKeepsLink(y, n0, n1);
    LinkKinds(Flip(y), D.Flip(n0), D.Flip(n1));
    hide D.Inv, Link, BuiltBy;
  }

  /**
   * End to end: over every run of two paired sessions in which sealed datagrams are lost,
   * repeated, reordered, altered, sent back and forged at will, in both directions, the messages
   * an application took and its session still holds are the first ones its peer queued, in order
   * and once each; and the grid it sees is, whole, one its peer put on the screen.
   */
  lemma SessionsDeliver(y: System, steps: seq<Step>)
    requires IsStart(y) && Possible(steps) && |steps| <= U64_SPAN
    ensures Faithful(Run(y, steps)) && Faithful(Flip(Run(y, steps)))
  {
    hide Link;
    var n0, n1 := StartLinks(y);
    var m0, m1 := RunLinks(y, n0, n1, 0, steps);
    LinkIsFaithful(Run(y, steps), m0, m1);
    FlipKeepsLink(Run(y, steps), m0, m1);
    LinkIsFaithful(Flip(Run(y, steps)), D.Flip(m0), D.Flip(m1));
  }

  /** After any run, what the network brings and the peer did not emit leaves no trace. */
  lemma NoForgeryEverCounts(y: System, steps: seq<Step>, d: Datagram, heardMs: nat, sampledRto: nat)
    requires IsStart(y) && Possible(steps) && |steps| <= U64_SPAN
    requires var z := Run(y, steps); CanArrive(z, d) && d !in z.toA
    ensures Take(Run(y, steps), AtA(Hear(d, heardMs, sampledRto))) == Run(y, steps)
  {
    hide Link, Act, Run, CanArrive, IsStart;
    var n0, n1 := StartLinks(y);
    var m0, m1 := RunLinks(y, n0, n1, 0, steps);
    ForgeriesLeaveNoTrace(Run(y, steps), m0, m1, d, heardMs, sampledRto);
  }
}
