/** One endpoint of one peer's link: two channels, the send schedule and the peer's epoch. */
module Sessions {
  import opened Bytes
  import opened Protocol
  import opened Wrappers
  import opened Packets
  import opened Headers
  import MessageQueues
  import RowGrids
  import opened SspStates
  import opened Channels
  import opened Histories
  import opened Restart
  import opened Delivery
  import Sequence = SequenceNumbers

  const SEND_INTERVAL_MIN: nat := 20
  const SEND_INTERVAL_MAX: nat := 250
  const HEARTBEAT: nat := 3_000
  const TIMESTAMP_MAX_AGE: nat := 1_000
  const RETIRED_EPOCHS: nat := 8

  // ---------- datagrams ----------

  type PairKey = Bytes

  /** An ideal AEAD: what was sealed, under which key, nonce and associated header. */
  datatype Sealed = Sealed(key: PairKey, seq': nat, aad: OuterHeader, plaintext: Bytes)

  datatype Datagram = Datagram(header: OuterHeader, payload: Sealed) {
    function WireSize(): nat { HEADER_LEN + |payload.plaintext| + AEAD_OVERHEAD }
  }

  /** Opening succeeds exactly on what was sealed under this key, sequence and header. */
  function OpenPayload(key: PairKey, d: Datagram): Result<Bytes, TransportError> {
    if d.payload.key == key && d.payload.seq' == d.header.seq' && d.payload.aad == d.header
    then Ok(d.payload.plaintext)
    else Err(CryptoRefused)
  }

  // ---------- the send schedule ----------

  /** When a channel next wants the wire. */
  function ChannelDueAt(c: ChannelState, lastSendMs: Option<nat>, rto: nat): Option<nat> {
    if !c.IsPending() then None
    else if c.HasUnsentChange() then
      Some(if lastSendMs.Some? then lastSendMs.value + SEND_INTERVAL_MIN else 0)
    else
      Some(if c.lastSentMs.Some? then c.lastSentMs.value + rto else 0)
  }

  /** The sequence source's next answer, and those after it. */
  function HeadDraw(draws: seq<Option<nat>>): Option<nat> {
    if draws == [] then None else draws[0]
  }

  function TailDraws(draws: seq<Option<nat>>): seq<Option<nat>> {
    if draws == [] then [] else draws[1..]
  }

  predicate DueBy(at: Option<nat>, nowMs: nat) { at.Some? && nowMs >= at.value }

  datatype Config = Config(nodeId: NodeId, peerNodeId: NodeId, role: Sequence.Role, pairKey: PairKey)

  datatype SessionState = SessionState(
    config: Config,
    messages: ChannelState,
    screen: ChannelState,
    rto: nat,
    lastSendMs: Option<nat>,
    lastHeardMs: Option<nat>,
    peerTimestamp: Option<(nat, nat)>,
    ackMessages: bool,
    ackScreen: bool,
    rotate: bool,
    localEpoch: nat,
    peerEpoch: Option<nat>,
    retired: seq<nat>,
    highestPeerSeq: Option<nat>,
    peerSeqAdvanced: bool)
  {
    predicate FloorElapsed(nowMs: nat) {
      lastSendMs.Some? ==> nowMs >= lastSendMs.value + SEND_INTERVAL_MIN
    }

    predicate HeartbeatDue(nowMs: nat) {
      lastSendMs.Some? ==> nowMs >= lastSendMs.value + HEARTBEAT
    }

    predicate AckPending() { ackMessages || ackScreen }

    function MessagesDueAt(): Option<nat> { ChannelDueAt(messages, lastSendMs, rto) }

    function ScreenDueAt(): Option<nat> { ChannelDueAt(screen, lastSendMs, rto) }

    /** `next_send_ms`. */
    function NextSendMs(nowMs: nat): nat {
      var floor := if lastSendMs.Some? then lastSendMs.value + SEND_INTERVAL_MIN else nowMs;
      var idle := if lastSendMs.Some? then lastSendMs.value + HEARTBEAT else nowMs;
      var acked := if AckPending() then Min(idle, if lastSendMs.Some? then lastSendMs.value + SEND_INTERVAL_MAX else nowMs) else idle;
      var withMessages := if MessagesDueAt().Some? then Min(acked, MessagesDueAt().value) else acked;
      var withScreen := if ScreenDueAt().Some? then Min(withMessages, ScreenDueAt().value) else withMessages;
      Max(withScreen, floor)
    }

    /** The channels due now, in the order they are offered the wire. */
    function DueChannels(nowMs: nat): seq<nat> {
      var first := if DueBy(MessagesDueAt(), nowMs) then [CHANNEL_MESSAGES] else [];
      var second := if DueBy(ScreenDueAt(), nowMs) then [CHANNEL_SCREEN] else [];
      if rotate then second + first else first + second
    }

    /** What goes out now: the due channels, else one bare acknowledgement, else a heartbeat. */
    function Wanted(nowMs: nat): seq<(nat, bool)> {
      if !FloorElapsed(nowMs) then []
      else
        var due := DueChannels(nowMs);
        if due != [] then seq(|due|, k requires 0 <= k < |due| => (due[k], false))
        else if ackMessages then [(CHANNEL_MESSAGES, false)]
        else if ackScreen then [(CHANNEL_SCREEN, false)]
        else if HeartbeatDue(nowMs) then [(CHANNEL_MESSAGES, true)]
        else []
    }

    /** `take_reply_ts`: the echoed clock, advanced by how long it was held; 0 means no sample. */
    function ReplyTs(nowMs: nat): nat {
      match peerTimestamp
      case None => 0
      case Some((ts, at)) =>
        if (if nowMs >= at then nowMs - at else 0) >= TIMESTAMP_MAX_AGE then 0
        else
          var reply := (ts + (nowMs - at) % U16_SPAN) % U16_SPAN;
          if reply == 0 then 1 else reply
    }

    function ChannelOf(id: nat): ChannelState { if id == CHANNEL_SCREEN then screen else messages }

    /** Record that channel `id` sent `i`. */
    function Sent(id: nat, i: Instruction, nowMs: nat): SessionState {
      this.(messages := if id == CHANNEL_SCREEN then messages else messages.NoteSent(i, nowMs),
            screen := if id == CHANNEL_SCREEN then screen.NoteSent(i, nowMs) else screen,
            lastSendMs := Some(nowMs),
            ackMessages := ackMessages && id == CHANNEL_SCREEN,
            ackScreen := ackScreen && id != CHANNEL_SCREEN)
    }

    ghost predicate Typed() {
      && messages.Typed() && messages.id == CHANNEL_MESSAGES
      && screen.Typed() && screen.id == CHANNEL_SCREEN
    }

    /**
     * `build`: pick the Instruction, frame it, draw a sequence, seal. The held timestamp is
     * spent even when no sequence can be had.
     */
    function Build(id: nat, nowMs: nat, drawn: Option<nat>, heartbeat: bool)
      : (SessionState, Result<Datagram, TransportError>)
      requires Typed()
    {
      match ChannelOf(id).NextInstruction()
      case Err(e) => (this, Err(e))
      case Ok(i) =>
        var spent := this.(peerTimestamp := None);
        match EncodePacket(Packet(Timestamp16(nowMs), ReplyTs(nowMs), i))
        case Err(_) => (spent, Err(PacketRefused))
        case Ok(plaintext) =>
          if drawn.None? then (spent, Err(KeyRefused))
          else
            var full := Sequence.FullSeq(config.role, drawn.value);
            var header := OuterHeader(if heartbeat then FLAG_HEARTBEAT else 0, config.nodeId, config.peerNodeId, full, localEpoch);
            (spent.Sent(id, i, nowMs), Ok(Datagram(header, Sealed(config.pairKey, full, header, plaintext))))
    }

    /** Build in turn; the first failure ends the call and loses what was built before it. */
    function BuildAll(wanted: seq<(nat, bool)>, nowMs: nat, draws: seq<Option<nat>>)
      : (SessionState, Result<seq<Datagram>, TransportError>)
      requires Typed()
      decreases wanted
    {
      if wanted == [] then (this, Ok([]))
      else
        var (s, built) := Build(wanted[0].0, nowMs, HeadDraw(draws), wanted[0].1);
        BuildKeepsTyped(wanted[0].0, nowMs, HeadDraw(draws), wanted[0].1);
        match built
        case Err(e) => (s, Err(e))
        case Ok(d) =>
          var (s', rest) := s.BuildAll(wanted[1..], nowMs, TailDraws(draws));
          match rest
          case Err(e) => (s', Err(e))
          case Ok(ds) => (s', Ok([d] + ds))
    }

    lemma BuildKeepsTyped(id: nat, nowMs: nat, drawn: Option<nat>, heartbeat: bool)
      requires Typed()
      ensures Build(id, nowMs, drawn, heartbeat).0.Typed()
    {
      hide ChannelState.NextInstruction, EncodePacket;
    }

    function Turned(): SessionState { this.(rotate := !rotate) }

    /** `outgoing`. Which channel is offered the wire first alternates between calls. */
    function Outgoing(nowMs: nat, draws: seq<Option<nat>>): (SessionState, Result<seq<Datagram>, TransportError>)
      requires Typed()
    {
      if !FloorElapsed(nowMs) then (this, Ok([]))
      else if DueChannels(nowMs) == [] then Turned().BuildAll(Wanted(nowMs), nowMs, draws)
      else
        var (s, built) := BuildAll(Wanted(nowMs), nowMs, draws);
        (if built.Ok? then s.Turned() else s, built)
    }

    /** Everything a datagram passes before its epoch is looked at. */
    function Authentic(d: Datagram): Result<Packet, TransportError> {
      if d.header.dst != config.nodeId || d.header.src != config.peerNodeId then Err(Misaddressed)
      else
        match OpenPayload(config.pairKey, d)
        case Err(e) => Err(e)
        case Ok(plaintext) =>
          match DecodePacket(plaintext)
          case Err(_) => Err(PacketRefused)
          case Ok(packet) => Ok(packet)
    }

    predicate PeerRestarted(d: Datagram) { peerEpoch.Some? && peerEpoch.value != d.header.epoch }

    predicate IsRetired(d: Datagram) { d.header.epoch in retired }

    /** A new epoch retires the old one and rebases both channels. */
    function Rebased(d: Datagram): SessionState
      requires Typed()
    {
      if !PeerRestarted(d) then this
      else
        var all := retired + [peerEpoch.value];
        this.(retired := if |all| > RETIRED_EPOCHS then all[1..] else all,
              messages := messages.ResetPeer(), screen := screen.ResetPeer(),
              ackMessages := false, ackScreen := false)
    }

    /** Note the datagram's epoch, its sequence, its time and its clocks. */
    function Noted(d: Datagram, p: Packet, nowMs: nat, sampledRto: nat): SessionState {
      var fresh' := highestPeerSeq.None? || d.header.seq' > highestPeerSeq.value;
      this.(peerEpoch := Some(d.header.epoch),
            peerSeqAdvanced := fresh',
            highestPeerSeq := if fresh' then Some(d.header.seq') else highestPeerSeq,
            lastHeardMs := Some(nowMs),
            peerTimestamp := Some((p.sendTs, nowMs)),
            rto := if p.replyTs != 0 then sampledRto else rto)
    }

    /** Hand the Instruction to its channel and note whether an acknowledgement is owed. */
    function Applied(i: Instruction): (SessionState, Result<bool, TransportError>) {
      if i.channel == CHANNEL_MESSAGES then
        var (c, r) := messages.Apply(i);
        (this.(messages := c, ackMessages := ackMessages || (r.Ok? && (r.value || i.newNum != i.oldNum))), r)
      else if i.channel == CHANNEL_SCREEN then
        var (c, r) := screen.Apply(i);
        (this.(screen := c, ackScreen := ackScreen || (r.Ok? && (r.value || i.newNum != i.oldNum))), r)
      else (this, Ok(false))
    }

    /** `handle_datagram`; `sampledRto` is what the round-trip estimator would say after a sample. */
    function Handle(d: Datagram, nowMs: nat, sampledRto: nat): (SessionState, Result<bool, TransportError>)
      requires Typed()
    {
      match Authentic(d)
      case Err(e) => (this, Err(e))
      case Ok(p) =>
        if IsRetired(d) then (this, Ok(false))
        else Rebased(d).Noted(d, p, nowMs, sampledRto).Applied(p.instruction)
    }

    /**
     * `handle_datagram` from the wire: octets that do not decode as a header are refused first.
     * `unseal` says what any ciphertext was sealed as.
     */
    function HandleOctets(octets: Bytes, unseal: Bytes -> Sealed, nowMs: nat, sampledRto: nat)
      : (SessionState, Result<bool, TransportError>)
      requires Typed()
    {
      match DecodeHeader(octets)
      case None => (this, Err(HeaderRefused))
      case Some(header) => Handle(Datagram(header, unseal(octets[HEADER_LEN..])), nowMs, sampledRto)
    }

    function QueueMessage(body: Bytes): (SessionState, Result<(), TransportError>)
      requires Typed()
    {
      match Offer(messages, PushMessage(body))
      case Ok(c) => (this.(messages := c), Ok(()))
      case Err(e) => (this, Err(e))
    }

    function ReplaceScreen(rows: seq<Bytes>): (SessionState, Result<(), TransportError>)
      requires Typed()
    {
      match Offer(screen, SetRows(rows))
      case Ok(c) => (this.(screen := c), Ok(()))
      case Err(e) => (this, Err(e))
    }

    /** `take_messages`: consuming something owes the peer an acknowledgement. */
    function TakeMessages(): SessionState
      requires Typed()
    {
      this.(messages := messages.(received := Messages(messages.received.queue.Drain())),
            ackMessages := ackMessages || messages.received.queue.messages != [])
    }
  }

  // ---------- schedule agreement ----------

  /**
   * With no new events, a call at `later` has something to send exactly when the floor has
   * passed and an acknowledgement is owed or the time `next_send_ms` named has come.
   */
  lemma ScheduleAgrees(s: SessionState, nowMs: nat, later: nat)
    requires later >= nowMs
    ensures s.Wanted(later) != [] <==>
            s.FloorElapsed(later) && (s.AckPending() || later >= s.NextSendMs(nowMs))
  {
  }

  /** The time `next_send_ms` names is never too early. */
  lemma SendsWhenNamed(s: SessionState, nowMs: nat)
    ensures s.Wanted(s.NextSendMs(nowMs)) != []
  {
  }

  // ---------- no wedge, over whole sessions ----------

  /** Both channels are in order, each in its own history. */
  ghost predicate SessionOk(s: SessionState, messageHist: History, screenHist: History) {
    && s.Typed()
    && Sends(s.messages, messageHist)
    && s.messages.current.Base() == s.messages.assumed
    && Sends(s.screen, screenHist)
  }

  ghost predicate InOrder(s: SessionState) {
    exists messageHist: History, screenHist: History :: SessionOk(s, messageHist, screenHist)
  }

  lemma WantedIsShort(s: SessionState, nowMs: nat)
    ensures |s.Wanted(nowMs)| <= 2
    ensures s.Wanted(nowMs) != [] ==> s.FloorElapsed(nowMs)
  {
  }

  /** With a sequence in hand, an in-order session builds a datagram inside the size limit. */
  lemma BuildSucceeds(s: SessionState, mh: History, sh: History, id: nat, nowMs: nat, seq': nat, heartbeat: bool)
    requires SessionOk(s, mh, sh)
    ensures var (s', built) := s.Build(id, nowMs, Some(seq'), heartbeat);
            && built.Ok? && built.value.WireSize() <= MAX_DATAGRAM
            && SessionOk(s', mh, sh) && s'.lastSendMs == Some(nowMs)
  {
    NeverWedged(s.messages, mh);
    NeverWedged(s.screen, sh);
    var i := s.ChannelOf(id).NextInstruction().value;
    PacketSize(Packet(Timestamp16(nowMs), s.ReplyTs(nowMs), i));
    hide ChannelState.NextInstruction, EncodePacket;
    NoteSentKeeps(s.messages, mh, i, nowMs);
    NoteSentKeeps(s.screen, sh, i, nowMs);
  }

  lemma PacketSize(p: Packet)
    ensures EncodePacket(p).Ok? <==> |p.instruction.diff| <= MAX_DIFF_LEN
    ensures EncodePacket(p).Ok? ==> |EncodePacket(p).value| <= MAX_PLAINTEXT
  {
  }

  lemma {:induction false} BuildAllSucceeds(s: SessionState, mh: History, sh: History, wanted: seq<(nat, bool)>,
                                            nowMs: nat, draws: seq<Option<nat>>)
    requires SessionOk(s, mh, sh) && |wanted| <= |draws| && forall x | x in draws :: x.Some?
    ensures var (s', built) := s.BuildAll(wanted, nowMs, draws);
            && built.Ok? && |built.value| == |wanted|
            && (forall d | d in built.value :: d.WireSize() <= MAX_DATAGRAM)
            && SessionOk(s', mh, sh)
            && s'.lastSendMs == (if wanted == [] then s.lastSendMs else Some(nowMs))
    decreases wanted
  {
    if wanted != [] {
      hide SessionState.Build, Datagram.WireSize, Sends;
      assert draws[0] in draws;
      BuildSucceeds(s, mh, sh, wanted[0].0, nowMs, draws[0].value, wanted[0].1);
      var s1 := s.Build(wanted[0].0, nowMs, draws[0], wanted[0].1).0;
      BuildAllSucceeds(s1, mh, sh, wanted[1..], nowMs, draws[1..]);
    }
  }

  /**
   * Given a working sequence source, `outgoing` never fails in an in-order session: it sends
   * exactly what the schedule wants, every datagram fits, and emitting calls keep the floor apart.
   */
  lemma OutgoingNeverFails(s: SessionState, mh: History, sh: History, nowMs: nat, draws: seq<Option<nat>>)
    requires SessionOk(s, mh, sh) && |draws| >= 2 && forall x | x in draws :: x.Some?
    ensures var (s', out) := s.Outgoing(nowMs, draws);
            && out.Ok? && |out.value| == |s.Wanted(nowMs)|
            && (forall d | d in out.value :: d.WireSize() <= MAX_DATAGRAM)
            && SessionOk(s', mh, sh)
            && s'.lastSendMs == (if out.value != [] then Some(nowMs) else s.lastSendMs)
            && (out.value != [] && s.lastSendMs.Some? ==> nowMs >= s.lastSendMs.value + SEND_INTERVAL_MIN)
  {
    WantedIsShort(s, nowMs);
    hide SessionState.BuildAll, SessionState.Wanted, Sends;
    BuildAllSucceeds(s, mh, sh, s.Wanted(nowMs), nowMs, draws);
    BuildAllSucceeds(s.Turned(), mh, sh, s.Wanted(nowMs), nowMs, draws);
  }

  // ---------- runs of one session ----------

  datatype Event =
    | Queue(body: Bytes)
    | Show(rows: seq<Bytes>)
    | Drain
    | Tick(nowMs: nat, draws: seq<Option<nat>>)
    | Hear(d: Datagram, heardMs: nat, sampledRto: nat)

  function Happen(s: SessionState, e: Event): SessionState
    requires s.Typed()
  {
    match e
    case Queue(body) => s.QueueMessage(body).0
    case Show(rows) => s.ReplaceScreen(rows).0
    case Drain => s.TakeMessages()
    case Tick(nowMs, draws) => s.Outgoing(nowMs, draws).0
    case Hear(d, heardMs, sampledRto) => s.Handle(d, heardMs, sampledRto).0
  }

  lemma RebasedIsTyped(s: SessionState, d: Datagram)
    requires s.Typed()
    ensures s.Rebased(d).Typed()
  {
    ResetIsTyped(s.messages);
    ResetIsTyped(s.screen);
    hide ChannelState.ResetPeer, ChannelState.Typed;
  }

  lemma AppliedIsTyped(s: SessionState, i: Instruction)
    requires s.Typed()
    ensures s.Applied(i).0.Typed()
  {
    ApplyIsTyped(s.messages, i);
    ApplyIsTyped(s.screen, i);
    AppliedLeaves(s, i);
    hide ChannelState.Apply, ChannelState.Typed, SessionState.Applied;
  }

  lemma HandleKeepsTyped(s: SessionState, d: Datagram, nowMs: nat, sampledRto: nat)
    requires s.Typed()
    ensures s.Handle(d, nowMs, sampledRto).0.Typed()
  {
    if s.Authentic(d).Ok? {
      var p := s.Authentic(d).value;
      RebasedIsTyped(s, d);
      var noted := s.Rebased(d).Noted(d, p, nowMs, sampledRto);
      assert noted.Typed() by { hide SessionState.Rebased, ChannelState.Typed; }
      AppliedIsTyped(noted, p.instruction);
    }
    hide SessionState.Rebased, SessionState.Noted, SessionState.Applied, SessionState.Authentic, SessionState.Typed;
  }

  lemma {:induction false} BuildAllKeepsTyped(s: SessionState, wanted: seq<(nat, bool)>, nowMs: nat, draws: seq<Option<nat>>)
    requires s.Typed()
    ensures s.BuildAll(wanted, nowMs, draws).0.Typed()
    decreases wanted
  {
    hide SessionState.Build, SessionState.BuildAll, SessionState.Typed;
    if wanted == [] {
      BuildNothing(s, nowMs, draws);
    } else {
      BuildAllUnfolds(s, wanted, nowMs, draws);
      s.BuildKeepsTyped(wanted[0].0, nowMs, HeadDraw(draws), wanted[0].1);
      BuildAllKeepsTyped(s.Build(wanted[0].0, nowMs, HeadDraw(draws), wanted[0].1).0, wanted[1..], nowMs, TailDraws(draws));
    }
  }

  lemma OutgoingKeepsTyped(s: SessionState, nowMs: nat, draws: seq<Option<nat>>)
    requires s.Typed()
    ensures s.Outgoing(nowMs, draws).0.Typed()
  {
    BuildAllKeepsTyped(s, s.Wanted(nowMs), nowMs, draws);
    BuildAllKeepsTyped(s.Turned(), s.Wanted(nowMs), nowMs, draws);
    hide SessionState.BuildAll, SessionState.Wanted, ChannelState.Typed;
  }

  /** Whatever happens, and whatever a peer sends, a session stays well formed. */
  lemma HappenKeepsTyped(s: SessionState, e: Event)
    requires s.Typed()
    ensures Happen(s, e).Typed()
  {
    match e
    case Queue(body) =>
      if Offer(s.messages, PushMessage(body)).Ok? { OfferedIsTyped(s.messages, PushMessage(body)); }
      hide Offer;
    case Show(rows) =>
      if Offer(s.screen, SetRows(rows)).Ok? { OfferedIsTyped(s.screen, SetRows(rows)); }
      hide Offer;
    case Drain =>
    case Tick(nowMs, draws) =>
      OutgoingKeepsTyped(s, nowMs, draws);
      hide SessionState.Outgoing, SessionState.Typed;
    case Hear(d, heardMs, sampledRto) =>
      HandleKeepsTyped(s, d, heardMs, sampledRto);
      hide SessionState.Handle, SessionState.Typed;
  }

  /** A peer that runs this protocol releases exactly what it acknowledges. */
  ghost predicate Conforms(s: SessionState, e: Event) {
    && (e.Show? ==> |e.rows| < U32_SPAN)
    && (e.Hear? && s.Authentic(e.d).Ok? ==>
          var i := s.Authentic(e.d).value.instruction; i.throwawayNum == i.ackNum)
  }

  /** A new epoch rebases both channels onto what was still unacknowledged. */
  lemma RebasedInOrder(s: SessionState, mh: History, sh: History, d: Datagram)
    requires SessionOk(s, mh, sh)
    ensures InOrder(s.Rebased(d))
    ensures if s.PeerRestarted(d)
            then SessionOk(s.Rebased(d), RestartHistory(QueueKind, mh, s.messages.assumed),
                           RestartHistory(GridKind, sh, s.screen.assumed))
            else SessionOk(s.Rebased(d), mh, sh)
  {
    if s.PeerRestarted(d) {
      ResetKeepsPending(s.messages, mh);
      ResetKeepsPending(s.screen, sh);
      ResetIsTyped(s.messages);
      ResetIsTyped(s.screen);
      hide Sends, ChannelState.ResetPeer, RestartHistory, ChannelState.Typed;
      var mh', sh' := RestartHistory(QueueKind, mh, s.messages.assumed), RestartHistory(GridKind, sh, s.screen.assumed);
      SendsIsTyped(s.Rebased(d), mh', sh');
      assert SessionOk(s.Rebased(d), mh', sh');
    } else {
      hide Sends;
      assert SessionOk(s.Rebased(d), mh, sh);
    }
  }

  lemma RebasedStaysInOrder(s: SessionState, d: Datagram)
    requires InOrder(s)
    ensures InOrder(s.Rebased(d))
  {
    var mh: History, sh: History :| SessionOk(s, mh, sh);
    RebasedInOrder(s, mh, sh, d);
    hide SessionOk, SessionState.Rebased, InOrder;
  }

  lemma HearStaysInOrder(s: SessionState, d: Datagram, nowMs: nat, sampledRto: nat)
    requires InOrder(s) && Conforms(s, Hear(d, nowMs, sampledRto))
    ensures InOrder(s.Handle(d, nowMs, sampledRto).0)
  {
    if s.Authentic(d).Ok? && !s.IsRetired(d) {
      RebasedStaysInOrder(s, d);
      hide SessionState.Rebased, SessionState.Authentic, Sends;
      var p := s.Authentic(d).value;
      var rebased := s.Rebased(d);
      var mh': History, sh': History :| SessionOk(rebased, mh', sh');
      var noted := rebased.Noted(d, p, nowMs, sampledRto);
      ChannelAppliesInOrder(noted.messages, mh', p.instruction);
      ChannelAppliesInOrder(noted.screen, sh', p.instruction);
      AppliedInOrder(noted, mh', sh', p.instruction);
    }
  }

  /** Only the channel that an Instruction names is touched by it. */
  lemma AppliedLeaves(s: SessionState, i: Instruction)
    ensures var s' := s.Applied(i).0;
            && s'.messages == (if i.channel == CHANNEL_MESSAGES then s.messages.Apply(i).0 else s.messages)
            && s'.screen == (if i.channel == CHANNEL_SCREEN then s.screen.Apply(i).0 else s.screen)
  {
    hide ChannelState.Apply;
  }

  lemma AppliedInOrder(s: SessionState, mh: History, sh: History, i: Instruction)
    requires SessionOk(s, mh, sh) && i.throwawayNum == i.ackNum
    ensures InOrder(s.Applied(i).0)
  {
    ChannelAppliesInOrder(s.messages, mh, i);
    ChannelAppliesInOrder(s.screen, sh, i);
    AppliedLeaves(s, i);
    hide Sends, ChannelState.Apply, SessionState.Applied, ChannelState.Typed;
    SendsIsTyped(s.Applied(i).0, mh, sh);
    assert SessionOk(s.Applied(i).0, mh, sh);
  }

  lemma SendsIsTyped(s: SessionState, mh: History, sh: History)
    requires Sends(s.messages, mh) && Sends(s.screen, sh)
    requires s.messages.id == CHANNEL_MESSAGES && s.screen.id == CHANNEL_SCREEN
    ensures s.Typed()
  {
  }

  lemma BuildStaysOk(s: SessionState, mh: History, sh: History, id: nat, nowMs: nat, drawn: Option<nat>, heartbeat: bool)
    requires SessionOk(s, mh, sh)
    ensures SessionOk(s.Build(id, nowMs, drawn, heartbeat).0, mh, sh)
  {
    if drawn.Some? {
      BuildSucceeds(s, mh, sh, id, nowMs, drawn.value, heartbeat);
    } else {
      hide ChannelState.NextInstruction, EncodePacket, Sends;
    }
  }

  lemma {:induction false} BuildAllStaysOk(s: SessionState, mh: History, sh: History, wanted: seq<(nat, bool)>,
                                           nowMs: nat, draws: seq<Option<nat>>)
    requires SessionOk(s, mh, sh)
    ensures SessionOk(s.BuildAll(wanted, nowMs, draws).0, mh, sh)
    decreases wanted
  {
    hide SessionState.Build, SessionState.BuildAll, SessionOk, SessionState.Typed;
    OkIsTyped(s, mh, sh);
    if wanted == [] {
      BuildNothing(s, nowMs, draws);
    } else {
      var drawn := HeadDraw(draws);
      BuildStaysOk(s, mh, sh, wanted[0].0, nowMs, drawn, wanted[0].1);
      BuildAllStep(s, wanted, 0, nowMs, draws, []);
      assert wanted[0..] == wanted;
      BuildAllStaysOk(s.Build(wanted[0].0, nowMs, drawn, wanted[0].1).0, mh, sh, wanted[1..], nowMs, TailDraws(draws));
    }
  }

  lemma BuildAllUnfolds(s: SessionState, wanted: seq<(nat, bool)>, nowMs: nat, draws: seq<Option<nat>>)
    requires s.Typed() && wanted != []
    ensures var (s1, r) := s.Build(wanted[0].0, nowMs, HeadDraw(draws), wanted[0].1);
            && s1.Typed()
            && s.BuildAll(wanted, nowMs, draws)
               == match r
                  case Err(e) => (s1, Err(e))
                  case Ok(d) =>
                    var (s', out) := s1.BuildAll(wanted[1..], nowMs, TailDraws(draws));
                    (s', if out.Ok? then Ok([d] + out.value) else out)
  {
    hide SessionState.Build, SessionState.Typed, HeadDraw, TailDraws;
    s.BuildKeepsTyped(wanted[0].0, nowMs, HeadDraw(draws), wanted[0].1);
  }

  lemma BuildNothing(s: SessionState, nowMs: nat, draws: seq<Option<nat>>)
    requires s.Typed()
    ensures s.BuildAll([], nowMs, draws) == (s, Ok([]))
  {
  }

  lemma OkIsTyped(s: SessionState, mh: History, sh: History)
    requires SessionOk(s, mh, sh)
    ensures s.Typed()
  {
  }

  lemma OfferStaysInOrder(s: SessionState, e: Event)
    requires InOrder(s) && (e.Queue? || e.Show?) && Conforms(s, e)
    ensures InOrder(Happen(s, e))
  {
    var mh: History, sh: History :| SessionOk(s, mh, sh);
    var change := if e.Queue? then PushMessage(e.body) else SetRows(e.rows);
    var c, hist := if e.Queue? then s.messages else s.screen, if e.Queue? then mh else sh;
    if Offer(c, change).Ok? {
      OfferExtends(c, hist, change);
      var hist': History := hist + [ViewAfter(change, Newest(hist))];
      hide Sends, Offer;
      if e.Queue? {
        assert SessionOk(Happen(s, e), hist', sh) by { SendsIsTyped(Happen(s, e), hist', sh); }
      } else {
        assert SessionOk(Happen(s, e), mh, hist') by { SendsIsTyped(Happen(s, e), mh, hist'); }
      }
    } else {
      assert SessionOk(Happen(s, e), mh, sh);
    }
  }

  lemma DrainStaysInOrder(s: SessionState)
    requires InOrder(s)
    ensures InOrder(Happen(s, Drain))
  {
    var mh: History, sh: History :| SessionOk(s, mh, sh);
    ReceivingKeepsSends(s.messages, mh, Messages(s.messages.received.queue.Drain()), s.messages.receivedNum);
    assert SessionOk(Happen(s, Drain), mh, sh);
  }

  lemma TickStaysInOrder(s: SessionState, nowMs: nat, draws: seq<Option<nat>>)
    requires InOrder(s)
    ensures InOrder(Happen(s, Tick(nowMs, draws)))
  {
    var mh: History, sh: History :| SessionOk(s, mh, sh);
    BuildAllStaysOk(s, mh, sh, s.Wanted(nowMs), nowMs, draws);
    BuildAllStaysOk(s.Turned(), mh, sh, s.Wanted(nowMs), nowMs, draws);
    hide SessionState.BuildAll, SessionState.Wanted, Sends;
    assert SessionOk(Happen(s, Tick(nowMs, draws)), mh, sh);
  }

  lemma HappenStaysInOrder(s: SessionState, e: Event)
    requires InOrder(s) && Conforms(s, e)
    ensures InOrder(Happen(s, e))
  {
    match e
    case Queue(_) => OfferStaysInOrder(s, e);
    case Show(_) => OfferStaysInOrder(s, e);
    case Hear(d, heardMs, sampledRto) => HearStaysInOrder(s, d, heardMs, sampledRto);
    case Drain => DrainStaysInOrder(s);
    case Tick(nowMs, draws) => TickStaysInOrder(s, nowMs, draws);
  }

  lemma InOrderIsTyped(s: SessionState)
    requires InOrder(s)
    ensures s.Typed()
  {
  }

  /** Any run against a conforming peer, which may restart any number of times. */
  ghost predicate ConformingRun(s: SessionState, events: seq<Event>)
    decreases events
  {
    events != [] ==> s.Typed() && Conforms(s, events[0]) && ConformingRun(Happen(s, events[0]), events[1..])
  }

  ghost function Run(s: SessionState, events: seq<Event>): (s': SessionState)
    requires InOrder(s) && ConformingRun(s, events)
    ensures InOrder(s')
    decreases events
  {
    if events == [] then s
    else
      InOrderIsTyped(s);
      HappenStaysInOrder(s, events[0]);
      Run(Happen(s, events[0]), events[1..])
  }

  function NewSession(config: Config, limits: MessageQueues.QueueLimits, maxSent: nat, epoch: nat): SessionState {
    SessionState(config,
                 NewChannel(CHANNEL_MESSAGES, Messages(MessageQueues.EmptyQueue(limits)), maxSent),
                 NewChannel(CHANNEL_SCREEN, Screen(RowGrids.EMPTY_GRID), maxSent),
                 1000, None, None, None, false, false, false, epoch, None, [], None, false)
  }

  lemma NewSessionInOrder(config: Config, limits: MessageQueues.QueueLimits, maxSent: nat, epoch: nat)
    ensures InOrder(NewSession(config, limits, maxSent, epoch))
  {
    var s := NewSession(config, limits, maxSent, epoch);
    NewChannelSends(CHANNEL_MESSAGES, s.messages.initial, maxSent);
    NewChannelSends(CHANNEL_SCREEN, s.screen.initial, maxSent);
    assert SessionOk(s, [[]], [[]]);
  }

  /**
   * No wedge, over whole sessions: after any run, peer restarts included, a call of
   * `outgoing` with a working sequence source succeeds and sends what the schedule wants, in
   * datagrams that fit; and each channel's next Instruction moves on whenever it is behind.
   */
  lemma NoWedge(config: Config, limits: MessageQueues.QueueLimits, maxSent: nat, epoch: nat, events: seq<Event>,
                nowMs: nat, draws: seq<Option<nat>>)
    requires ConformingRun(NewSession(config, limits, maxSent, epoch), events)
    requires |draws| >= 2 && forall x | x in draws :: x.Some?
    ensures InOrder(NewSession(config, limits, maxSent, epoch))
    ensures var s := Run(NewSession(config, limits, maxSent, epoch), events);
            && s.Typed()
            && s.Outgoing(nowMs, draws).1.Ok?
            && |s.Outgoing(nowMs, draws).1.value| == |s.Wanted(nowMs)|
            && (forall d | d in s.Outgoing(nowMs, draws).1.value :: d.WireSize() <= MAX_DATAGRAM)
            && Moves(s.messages) && Moves(s.screen)
  {
    NewSessionInOrder(config, limits, maxSent, epoch);
    var s := Run(NewSession(config, limits, maxSent, epoch), events);
    var mh: History, sh: History :| SessionOk(s, mh, sh);
    OutgoingNeverFails(s, mh, sh, nowMs, draws);
    AlwaysMoves(s.messages, mh);
    AlwaysMoves(s.screen, sh);
  }

  /** History without gaps, and an Instruction that gets past what the peer is believed to hold. */
  ghost predicate Moves(c: ChannelState)
    requires c.Typed()
  {
    && |c.sent| == c.currentNum - c.assumed + 1
    && (forall k | 0 <= k < |c.sent| :: c.sent[k].num == c.assumed + k)
    && c.NextInstruction().Ok?
    && |c.NextInstruction().value.diff| <= MAX_DIFF_LEN
    && c.NextInstruction().value.oldNum == c.assumed
    && (c.IsPending() ==> c.NextInstruction().value.newNum > c.assumed)
  }

  lemma AlwaysMoves(c: ChannelState, hist: History)
    requires Sends(c, hist)
    ensures Moves(c)
  {
    NeverWedged(c, hist);
    hide ChannelState.NextInstruction;
    forall k | 0 <= k < |c.sent|
      ensures c.sent[k].num == c.assumed + k
    {
      assert RetainedAt(c, hist, k);
    }
  }

  // ---------- the session as the program keeps it ----------

  /** A sequence source, as the answers it will give. */
  class SeqSource {
    var answers: seq<Option<nat>>

    constructor (answers: seq<Option<nat>>)
      ensures this.answers == answers
    {
      this.answers := answers;
    }

    method Next() returns (r: Option<nat>)
      modifies this
      ensures r == HeadDraw(old(answers)) && answers == TailDraws(old(answers))
    {
      if answers == [] {
        return None;
      }
      r := answers[0];
      answers := answers[1..];
    }
  }

  class Session {
    const config: Config
    const messages: Channel
    const screen: Channel
    var rto: nat
    var lastSendMs: Option<nat>
    var lastHeardMs: Option<nat>
    var peerTimestamp: Option<(nat, nat)>
    var ackMessages: bool
    var ackScreen: bool
    var rotate: bool
    const localEpoch: nat
    var peerEpoch: Option<nat>
    var retired: seq<nat>
    var highestPeerSeq: Option<nat>
    var peerSeqAdvanced: bool

    ghost predicate Valid()
      reads this, messages, screen
    {
      messages != screen && Value().Typed()
    }

    function Value(): SessionState
      reads this, messages, screen
    {
      SessionState(config, messages.Value(), screen.Value(), rto, lastSendMs, lastHeardMs, peerTimestamp, ackMessages,
                   ackScreen, rotate, localEpoch, peerEpoch, retired, highestPeerSeq, peerSeqAdvanced)
    }

    constructor (config: Config, limits: MessageQueues.QueueLimits, maxSent: nat, epoch: nat)
      ensures Valid() && fresh(messages) && fresh(screen)
      ensures Value() == NewSession(config, limits, maxSent, epoch)
    {
      this.config := config;
      messages := new Channel(CHANNEL_MESSAGES, Messages(MessageQueues.EmptyQueue(limits)), maxSent);
      screen := new Channel(CHANNEL_SCREEN, Screen(RowGrids.EMPTY_GRID), maxSent);
      rto, lastSendMs, lastHeardMs, peerTimestamp := 1000, None, None, None;
      ackMessages, ackScreen, rotate := false, false, false;
      localEpoch, peerEpoch, retired, highestPeerSeq, peerSeqAdvanced := epoch, None, [], None, false;
    }

    method QueueMessage(body: Bytes) returns (r: Result<(), TransportError>)
      requires Valid()
      modifies messages
      ensures Valid()
      ensures (Value(), r) == old(Value()).QueueMessage(body)
    {
      if |body| > MAX_MESSAGE_BYTES {
        return Err(DiffTooLarge(|body|, MAX_MESSAGE_BYTES));
      }
      var advanced := messages.Advance(PushMessage(body));
      r := if advanced.Ok? then Ok(()) else Err(advanced.error);
    }

    method SetScreen(rows: seq<Bytes>) returns (r: Result<(), TransportError>)
      requires Valid()
      modifies screen
      ensures Valid()
      ensures (Value(), r) == old(Value()).ReplaceScreen(rows)
    {
      var offered := OfferGrid(screen, rows);
      r := if offered.Ok? then Ok(()) else Err(offered.error);
    }

    method TakeMessages() returns (taken: seq<Bytes>)
      requires Valid()
      modifies this, messages
      ensures Valid()
      ensures taken == old(messages.received.queue.messages) && Value() == old(Value()).TakeMessages()
    {
      taken := messages.DrainReceived();
      if taken != [] {
        ackMessages := true;
      }
    }

    method NextSendMs(nowMs: nat) returns (due: nat)
      requires Valid()
      ensures due == Value().NextSendMs(nowMs)
    {
      var floor := if lastSendMs.Some? then lastSendMs.value + SEND_INTERVAL_MIN else nowMs;
      due := if lastSendMs.Some? then lastSendMs.value + HEARTBEAT else nowMs;
      if ackMessages || ackScreen {
        due := Min(due, if lastSendMs.Some? then lastSendMs.value + SEND_INTERVAL_MAX else nowMs);
      }
      var at := ChannelDueAt(messages.Value(), lastSendMs, rto);
      if at.Some? {
        due := Min(due, at.value);
      }
      at := ChannelDueAt(screen.Value(), lastSendMs, rto);
      if at.Some? {
        due := Min(due, at.value);
      }
      due := Max(due, floor);
    }

    method TakeReplyTs(nowMs: nat) returns (reply: nat)
      requires Valid()
      modifies this
      ensures Valid()
      ensures reply == old(Value()).ReplyTs(nowMs)
      ensures Value() == old(Value()).(peerTimestamp := None)
    {
      var held := peerTimestamp;
      peerTimestamp := None;
      match held
      case None => reply := 0;
      case Some((ts, at)) =>
        if (if nowMs >= at then nowMs - at else 0) >= TIMESTAMP_MAX_AGE {
          return 0;
        }
        reply := (ts + (nowMs - at) % U16_SPAN) % U16_SPAN;
        if reply == 0 {
          reply := 1;
        }
    }

    /** Record on the session and the channel that `i` went out. */
    method NoteSent(id: nat, i: Instruction, nowMs: nat)
      requires Valid()
      modifies this, messages, screen
      ensures Valid() && Value() == old(Value()).Sent(id, i, nowMs)
    {
      if id == CHANNEL_SCREEN {
        screen.NoteSent(i, nowMs);
        ackScreen := false;
      } else {
        messages.NoteSent(i, nowMs);
        ackMessages := false;
      }
      lastSendMs := Some(nowMs);
    }

    method ChooseInstruction(id: nat) returns (r: Result<Instruction, TransportError>)
      requires Valid()
      ensures r == Value().ChannelOf(id).NextInstruction()
    {
      if id == CHANNEL_SCREEN {
        r := screen.NextInstruction();
      } else {
        r := messages.NextInstruction();
      }
    }

    method BuildOne(id: nat, nowMs: nat, source: SeqSource, heartbeat: bool) returns (r: Result<Datagram, TransportError>)
      requires Valid()
      modifies this, messages, screen, source
      ensures Valid()
      ensures (Value(), r) == old(Value()).Build(id, nowMs, HeadDraw(old(source.answers)), heartbeat)
      ensures r.Ok? ==> source.answers == TailDraws(old(source.answers))
    {
      hide ChannelState.NextInstruction, EncodePacket, SessionState.Typed, SessionState.Sent, SessionState.ReplyTs;
      var chosen := ChooseInstruction(id);
      if chosen.Err? {
        return Err(chosen.error);
      }
      var reply := TakeReplyTs(nowMs);
      var plaintext := EncodePacket(Packet(Timestamp16(nowMs), reply, chosen.value));
      if plaintext.Err? {
        return Err(PacketRefused);
      }
      var drawn := source.Next();
      if drawn.None? {
        return Err(KeyRefused);
      }
      var full := Sequence.FullSeq(config.role, drawn.value);
      var header := OuterHeader(if heartbeat then FLAG_HEARTBEAT else 0, config.nodeId, config.peerNodeId, full, localEpoch);
      NoteSent(id, chosen.value, nowMs);
      r := Ok(Datagram(header, Sealed(config.pairKey, full, header, plaintext.value)));
    }

    /** Offer every due channel the wire, then fall back to an acknowledgement or a heartbeat. */
    method Outgoing(nowMs: nat, source: SeqSource) returns (r: Result<seq<Datagram>, TransportError>)
      requires Valid()
      modifies this, messages, screen, source
      ensures Valid()
      ensures (Value(), r) == old(Value()).Outgoing(nowMs, old(source.answers))
    {
      hide SessionState.BuildAll, SessionState.DueChannels, SessionState.Typed, SessionState.Wanted;
      if !Value().FloorElapsed(nowMs) {
        return Ok([]);
      }
      var wanted := ChooseChannels(nowMs);
      if Value().DueChannels(nowMs) != [] {
        r := BuildMany(wanted, nowMs, source);
        if r.Ok? {
          Turn();
        }
      } else {
        Turn();
        r := BuildMany(wanted, nowMs, source);
      }
    }

    /** The other channel is offered the wire first next time. */
    method Turn()
      requires Valid()
      modifies this`rotate
      ensures Valid() && Value() == old(Value()).Turned()
    {
      rotate := !rotate;
    }

    /** The due channels, or the one channel that owes an acknowledgement or a heartbeat. */
    method ChooseChannels(nowMs: nat) returns (wanted: seq<(nat, bool)>)
      requires Valid() && Value().FloorElapsed(nowMs)
      ensures wanted == Value().Wanted(nowMs)
    {
      hide SessionState.DueChannels, SessionState.Typed;
      var due := Value().DueChannels(nowMs);
      if due != [] {
        wanted := seq(|due|, k requires 0 <= k < |due| => (due[k], false));
      } else if ackMessages {
        wanted := [(CHANNEL_MESSAGES, false)];
      } else if ackScreen {
        wanted := [(CHANNEL_SCREEN, false)];
      } else if Value().HeartbeatDue(nowMs) {
        wanted := [(CHANNEL_MESSAGES, true)];
      } else {
        wanted := [];
      }
    }

    method BuildMany(wanted: seq<(nat, bool)>, nowMs: nat, source: SeqSource)
      returns (r: Result<seq<Datagram>, TransportError>)
      requires Valid()
      modifies this, messages, screen, source
      ensures Valid()
      ensures (Value(), r) == old(Value()).BuildAll(wanted, nowMs, old(source.answers))
    {
      hide SessionState.Build, SessionState.Typed;
      ghost var whole := Value().BuildAll(wanted, nowMs, source.answers);
      var out: seq<Datagram> := [];
      NothingBuilt(whole);
      for k := 0 to |wanted|
        invariant Valid()
        invariant whole == BuiltAfter(out, Value().BuildAll(wanted[k..], nowMs, source.answers))
      {
        BuildAllStep(Value(), wanted, k, nowMs, source.answers, out);
        var built := BuildOne(wanted[k].0, nowMs, source, wanted[k].1);
        if built.Err? {
          return Err(built.error);
        }
        out := out + [built.value];
      }
      assert wanted[|wanted|..] == [] && out + [] == out;
      BuildNothing(Value(), nowMs, source.answers);
      r := Ok(out);
    }

    /** Accept a datagram from the peer, or drop it without a trace. */
    method HandleDatagram(d: Datagram, nowMs: nat, sampledRto: nat) returns (r: Result<bool, TransportError>)
      requires Valid()
      modifies this, messages, screen
      ensures Valid()
      ensures (Value(), r) == old(Value()).Handle(d, nowMs, sampledRto)
    {
      hide SessionState.Typed, SessionState.Rebased, SessionState.Noted, SessionState.Applied, SessionState.Authentic;
      var packet := Authenticate(d);
      if packet.Err? {
        return Err(packet.error);
      }
      if d.header.epoch in retired {
        return Ok(false);
      }
      FollowEpoch(d);
      NoteDatagram(d, packet.value, nowMs, sampledRto);
      r := ApplyInstruction(packet.value.instruction);
    }

    /** The same from the wire: nothing is looked at before the header decodes. */
    method HandleOctets(octets: Bytes, unseal: Bytes -> Sealed, nowMs: nat, sampledRto: nat)
      returns (r: Result<bool, TransportError>)
      requires Valid()
      modifies this, messages, screen
      ensures Valid()
      ensures (Value(), r) == old(Value()).HandleOctets(octets, unseal, nowMs, sampledRto)
      ensures DecodeHeader(octets).None? ==> r == Err(HeaderRefused) && Value() == old(Value())
    {
      hide SessionState.Typed, SessionState.Handle;
      var header := DecodeHeader(octets);
      if header.None? {
        return Err(HeaderRefused);
      }
      r := HandleDatagram(Datagram(header.value, unseal(octets[HEADER_LEN..])), nowMs, sampledRto);
    }

    /** Addresses, the AEAD, then the plaintext's framing. */
    method Authenticate(d: Datagram) returns (r: Result<Packet, TransportError>)
      requires Valid()
      ensures r == Value().Authentic(d)
    {
      if d.header.dst != config.nodeId {
        return Err(Misaddressed);
      }
      if d.header.src != config.peerNodeId {
        return Err(Misaddressed);
      }
      var plaintext := OpenPayload(config.pairKey, d);
      if plaintext.Err? {
        return Err(plaintext.error);
      }
      var decoded := DecodePacket(plaintext.value);
      if decoded.Err? {
        return Err(PacketRefused);
      }
      r := Ok(decoded.value);
    }

    method NoteDatagram(d: Datagram, packet: Packet, nowMs: nat, sampledRto: nat)
      requires Valid()
      modifies this
      ensures Valid() && Value() == old(Value()).Noted(d, packet, nowMs, sampledRto)
    {
      peerEpoch := Some(d.header.epoch);
      peerSeqAdvanced := highestPeerSeq.None? || d.header.seq' > highestPeerSeq.value;
      if peerSeqAdvanced {
        highestPeerSeq := Some(d.header.seq');
      }
      lastHeardMs := Some(nowMs);
      peerTimestamp := Some((packet.sendTs, nowMs));
      if packet.replyTs != 0 {
        rto := sampledRto;
      }
    }

    /** When the peer's epoch changed, retire the old one and rebase both channels. */
    method FollowEpoch(d: Datagram)
      requires Valid()
      modifies this, messages, screen
      ensures Valid() && Value() == old(Value()).Rebased(d)
    {
      hide ChannelState.ResetPeer;
      if peerEpoch.Some? && peerEpoch.value != d.header.epoch {
        ResetIsTyped(messages.Value());
        ResetIsTyped(screen.Value());
        retired := retired + [peerEpoch.value];
        if |retired| > RETIRED_EPOCHS {
          retired := retired[1..];
        }
        messages.ResetPeer();
        screen.ResetPeer();
        ackMessages, ackScreen := false, false;
      }
    }

    method ApplyInstruction(i: Instruction) returns (r: Result<bool, TransportError>)
      requires Valid()
      modifies this, messages, screen
      ensures Valid()
      ensures (Value(), r) == old(Value()).Applied(i)
    {
      hide ChannelState.Apply;
      if i.channel == CHANNEL_MESSAGES {
        ApplyIsTyped(messages.Value(), i);
        r := messages.Apply(i);
      } else if i.channel == CHANNEL_SCREEN {
        ApplyIsTyped(screen.Value(), i);
        r := screen.Apply(i);
      } else {
        return Ok(false);
      }
      if r.Ok? && (r.value || i.newNum != i.oldNum) {
        if i.channel == CHANNEL_MESSAGES {
          ackMessages := true;
        } else {
          ackScreen := true;
        }
      }
    }
  }

  ghost function BuiltAfter(out: seq<Datagram>, rest: (SessionState, Result<seq<Datagram>, TransportError>))
    : (SessionState, Result<seq<Datagram>, TransportError>)
  {
    (rest.0, if rest.1.Ok? then Ok(out + rest.1.value) else rest.1)
  }

  lemma NothingBuilt(rest: (SessionState, Result<seq<Datagram>, TransportError>))
    ensures BuiltAfter([], rest) == rest
  {
    if rest.1.Ok? {
      assert [] + rest.1.value == rest.1.value;
    }
  }

  lemma BuildAllStep(s: SessionState, wanted: seq<(nat, bool)>, k: nat, nowMs: nat, draws: seq<Option<nat>>,
                     out: seq<Datagram>)
    requires s.Typed() && k < |wanted|
    ensures var (s', built) := s.Build(wanted[k].0, nowMs, HeadDraw(draws), wanted[k].1);
            && s'.Typed()
            && BuiltAfter(out, s.BuildAll(wanted[k..], nowMs, draws))
               == match built
                  case Err(e) => (s', Err(e))
                  case Ok(d) => BuiltAfter(out + [d], s'.BuildAll(wanted[k + 1..], nowMs, TailDraws(draws)))
  {
    hide SessionState.Build, SessionState.Typed;
    s.BuildKeepsTyped(wanted[k].0, nowMs, HeadDraw(draws), wanted[k].1);
    var (s', built) := s.Build(wanted[k].0, nowMs, HeadDraw(draws), wanted[k].1);
    assert wanted[k..][1..] == wanted[k + 1..];
    if built.Ok? {
      var rest := s'.BuildAll(wanted[k + 1..], nowMs, TailDraws(draws)).1;
      if rest.Ok? {
        assert out + ([built.value] + rest.value) == out + [built.value] + rest.value;
      }
    }
  }
}
