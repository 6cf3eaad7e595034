/** Where a link without a forwarder sends, and which datagrams may move it. */
module DirectRoute {
  import opened Channels
  import Headers
  import opened Packets
  import opened Protocol
  import opened Sessions
  import opened Wrappers

  datatype Route = Forwarded(address: Address) | Direct(address: Address) {
    function Accepts(from: Address): bool { Direct? || from == address }
  }

  /** `learn`: a direct route adopts the source of a datagram that advanced the sequence. */
  function Learn(route: Route, s: SessionState, from: Address): Route {
    if route.Direct? && route.address != from && s.peerSeqAdvanced then Direct(from) else route
  }

  method LearnInPlace(route: Route, s: SessionState, from: Address) returns (r: Route)
    ensures r == Learn(route, s, from)
    ensures r.Direct? == route.Direct?
    ensures r.address == from || r == route
  {
    r := route;
    if !route.Direct? {
      return;
    }
    if route.address == from || !s.peerSeqAdvanced {
      return;
    }
    r := Direct(from);
  }

  /** A link's session and route, and the sequences of every datagram its session took note of. */
  datatype Link = Link(session: SessionState, route: Route, noted: set<nat>)

  datatype Arrival = Arrival(d: Datagram, from: Address, nowMs: nat, sampledRto: nat)

  /** A datagram that authenticates and is not of a retired epoch. */
  ghost predicate PassesEpochCheck(s: SessionState, d: Datagram) {
    s.Authentic(d).Ok? && !s.IsRetired(d)
  }

  /**
   * The driver: a datagram from a source the route does not accept is skipped; any other goes
   * to the session first, then moves the route when it was accepted.
   */
  ghost function Receive(l: Link, a: Arrival): Link
    requires l.session.Typed()
  {
    if !l.route.Accepts(a.from) then l
    else
      var (s, r) := l.session.Handle(a.d, a.nowMs, a.sampledRto);
      Link(s,
           if r.Ok? then Learn(l.route, s, a.from) else l.route,
           if PassesEpochCheck(l.session, a.d) then l.noted + {a.d.header.seq'} else l.noted)
  }

  /** The session's watermark is the highest sequence it took note of. */
  ghost predicate Watermarked(l: Link) {
    match l.session.highestPeerSeq
    case None => l.noted == {}
    case Some(high) => high in l.noted && forall n | n in l.noted :: n <= high
  }

  /** What one handled datagram does to the sequence watermark. */
  lemma HandleWatermark(s: SessionState, d: Datagram, nowMs: nat, sampledRto: nat)
    requires s.Typed()
    ensures var s' := s.Handle(d, nowMs, sampledRto).0;
            if !PassesEpochCheck(s, d) then s' == s
            else
              && s'.peerSeqAdvanced == (s.highestPeerSeq.None? || d.header.seq' > s.highestPeerSeq.value)
              && s'.highestPeerSeq == if s'.peerSeqAdvanced then Some(d.header.seq') else s.highestPeerSeq
  {
    hide ChannelState.Apply, ChannelState.ResetPeer, SessionState.Authentic, ChannelState.Typed;
  }

  /**
   * A datagram that passes the epoch check moves a direct route exactly when it comes from
   * elsewhere, is accepted, and its sequence exceeds every one taken note of before.
   */
  lemma MovesOnlyWhenFresh(l: Link, a: Arrival)
    requires l.session.Typed() && Watermarked(l) && l.route.Direct? && PassesEpochCheck(l.session, a.d)
    ensures var l' := Receive(l, a);
            && Watermarked(l')
            && (l'.route != l.route <==>
                  && a.from != l.route.address
                  && l.session.Handle(a.d, a.nowMs, a.sampledRto).1.Ok?
                  && forall n | n in l.noted :: n < a.d.header.seq')
            && (l'.route != l.route ==> l'.route == Direct(a.from))
  {
    HandleWatermark(l.session, a.d, a.nowMs, a.sampledRto);
  }

  /** Delivered again from any address, a datagram never moves the route. */
  lemma RedeliveryNeverMoves(l: Link, a: Arrival)
    requires l.session.Typed() && Watermarked(l) && PassesEpochCheck(l.session, a.d)
    requires a.d.header.seq' in l.noted
    ensures Receive(l, a).route == l.route
  {
    if l.route.Direct? {
      MovesOnlyWhenFresh(l, a);
    }
  }

  /**
   * A datagram of a retired epoch is accepted without refreshing the flag, so there the
   * flag left by the datagram before it decides, whatever its own sequence is.
   */
  lemma RetiredFollowsOldFlag(l: Link, a: Arrival)
    requires l.session.Typed() && l.route.Direct? && l.session.Authentic(a.d).Ok? && l.session.IsRetired(a.d)
    ensures Receive(l, a) == l.(route := Receive(l, a).route)
    ensures Receive(l, a).route != l.route <==> a.from != l.route.address && l.session.peerSeqAdvanced
  {
  }

  // ---------- a replay that moves the route ----------

  /**
   * Heard in one epoch, then outdated by a fresher datagram of the next: delivered again from
   * elsewhere, the first datagram moves a direct route to wherever that is.
   */
  lemma ReplayMovesRoute(l: Link, first: Arrival, fresher: Arrival, again: Arrival)
    requires l.session.Typed() && l.route.Direct?
    requires l.session.peerEpoch.None? && l.session.highestPeerSeq.None? && l.session.retired == []
    requires l.session.Authentic(first.d).Ok? && l.session.Authentic(fresher.d).Ok?
    requires first.d.header.epoch != fresher.d.header.epoch && first.d.header.seq' < fresher.d.header.seq'
    requires again.d == first.d
    ensures Receive(l, first).session.Typed() && Receive(Receive(l, first), fresher).session.Typed()
    ensures var m := Receive(Receive(l, first), fresher);
            && PassesEpochCheck(l.session, first.d) && !PassesEpochCheck(m.session, again.d)
            && first.d.header.seq' in m.noted
            && Receive(m, again).route == Direct(again.from)
  {
    hide SessionState.Handle, SessionState.Authentic, SessionState.Typed;
    var l1 := Receive(l, first);
    HandleEpochs(l.session, first.d, first.nowMs, first.sampledRto);
    HandleWatermark(l.session, first.d, first.nowMs, first.sampledRto);
    HandleKeepsTyped(l.session, first.d, first.nowMs, first.sampledRto);
    AuthenticByConfig(l.session, l1.session, fresher.d);
    var m := Receive(l1, fresher);
    HandleEpochs(l1.session, fresher.d, fresher.nowMs, fresher.sampledRto);
    HandleWatermark(l1.session, fresher.d, fresher.nowMs, fresher.sampledRto);
    HandleKeepsTyped(l1.session, fresher.d, fresher.nowMs, fresher.sampledRto);
    AuthenticByConfig(l1.session, m.session, again.d);
    AuthenticByConfig(l.session, l1.session, again.d);
    HandleEpochs(m.session, again.d, again.nowMs, again.sampledRto);
  }

  /** What handling a datagram does to the epochs, and what a retired one does at all. */
  lemma HandleEpochs(s: SessionState, d: Datagram, nowMs: nat, sampledRto: nat)
    requires s.Typed()
    ensures var (s', r) := s.Handle(d, nowMs, sampledRto);
            && s'.config == s.config
            && (PassesEpochCheck(s, d) ==>
                  && s'.peerEpoch == Some(d.header.epoch)
                  && (s.peerEpoch.None? ==> s'.retired == s.retired)
                  && (s.PeerRestarted(d) && |s.retired| < RETIRED_EPOCHS ==> s'.retired == s.retired + [s.peerEpoch.value]))
            && (s.Authentic(d).Ok? && s.IsRetired(d) ==> s' == s && r == Ok(false))
  {
    hide ChannelState.Apply, ChannelState.ResetPeer, SessionState.Authentic, ChannelState.Typed;
  }

  lemma AuthenticByConfig(s: SessionState, t: SessionState, d: Datagram)
    requires s.config == t.config
    ensures s.Authentic(d) == t.Authentic(d)
  {
  }

  /** A bare acknowledgement from this session's peer. */
  function Greeting(config: Config, epoch: nat, seq': nat): Datagram {
    var header := Headers.OuterHeader(0, config.peerNodeId, config.nodeId, seq', epoch);
    var packet := Packet(0, 0, Instruction(CHANNEL_MESSAGES, 0, 0, 0, 0, MessageQueues.EncodeMessages([])));
    Datagram(header, Sealed(config.pairKey, seq', header, if EncodePacket(packet).Ok? then EncodePacket(packet).value else []))
  }

  lemma GreetingIsAuthentic(s: SessionState, epoch: nat, seq': nat)
    ensures s.Authentic(Greeting(s.config, epoch, seq')).Ok?
  {
    var i := Instruction(CHANNEL_MESSAGES, 0, 0, 0, 0, MessageQueues.EncodeMessages([]));
    assert |i.diff| == 4;
    PacketRoundTrip(Packet(0, 0, i));
    hide EncodePacket, DecodePacket;
  }

  /** Such a run exists from every fresh session, for any two epochs, and ends at any address. */
  lemma ReplayIsReachable(s: SessionState, home: Address, epoch: nat, later: nat, elsewhere: Address)
    requires s.Typed() && s.peerEpoch.None? && s.highestPeerSeq.None? && s.retired == [] && epoch != later
    ensures var l := Link(s, Direct(home), {});
            var first := Arrival(Greeting(s.config, epoch, 1), home, 0, 0);
            var fresher := Arrival(Greeting(s.config, later, 2), home, 0, 0);
            && Receive(l, first).session.Typed() && Receive(Receive(l, first), fresher).session.Typed()
            && Receive(Receive(Receive(l, first), fresher), first.(from := elsewhere)).route == Direct(elsewhere)
  {
    GreetingIsAuthentic(s, epoch, 1);
    GreetingIsAuthentic(s, later, 2);
    var first := Arrival(Greeting(s.config, epoch, 1), home, 0, 0);
    var fresher := Arrival(Greeting(s.config, later, 2), home, 0, 0);
    hide SessionState.Handle, SessionState.Authentic, SessionState.Typed;
    ReplayMovesRoute(Link(s, Direct(home), {}), first, fresher, first.(from := elsewhere));
  }

  // ---------- runs ----------

  ghost function ReceiveAll(l: Link, arrivals: seq<Arrival>): (l': Link)
    requires l.session.Typed()
    ensures l'.session.Typed()
    decreases arrivals
  {
    if arrivals == [] then l
    else
      HandleKeepsTyped(l.session, arrivals[0].d, arrivals[0].nowMs, arrivals[0].sampledRto);
      ReceiveAll(Receive(l, arrivals[0]), arrivals[1..])
  }

  lemma ReceiveStaysWatermarked(l: Link, a: Arrival)
    requires l.session.Typed() && Watermarked(l)
    ensures Receive(l, a).session.Typed() && Watermarked(Receive(l, a)) && l.noted <= Receive(l, a).noted
  {
    HandleKeepsTyped(l.session, a.d, a.nowMs, a.sampledRto);
    HandleWatermark(l.session, a.d, a.nowMs, a.sampledRto);
    hide SessionState.Handle, SessionState.Typed, PassesEpochCheck;
  }

  /** Over any run whatever the watermark stays exact, so the results on one datagram apply after it. */
  lemma {:induction false} RunStaysWatermarked(l: Link, arrivals: seq<Arrival>)
    requires l.session.Typed() && Watermarked(l)
    ensures Watermarked(ReceiveAll(l, arrivals))
    ensures l.noted <= ReceiveAll(l, arrivals).noted
    decreases arrivals
  {
    if arrivals != [] {
      hide Receive, Watermarked, SessionState.Typed;
      ReceiveStaysWatermarked(l, arrivals[0]);
      RunStaysWatermarked(Receive(l, arrivals[0]), arrivals[1..]);
    }
  }

  /**
   * The route follows freshness: after any run of any datagrams, retired ones included, taking
   * in an accepted datagram again, from anywhere, leaves the route where it is, as long as its
   * epoch was not retired since.
   */
  lemma RouteFollowsFreshness(l: Link, first: Arrival, arrivals: seq<Arrival>, again: Arrival)
    requires l.session.Typed() && Watermarked(l)
    requires l.route.Accepts(first.from) && PassesEpochCheck(l.session, first.d)
    requires again.d == first.d
    ensures var m := ReceiveAll(l, [first] + arrivals);
            PassesEpochCheck(m.session, again.d) ==> Receive(m, again).route == m.route
  {
    var all := [first] + arrivals;
    assert all[1..] == arrivals;
    ReceiveStaysWatermarked(l, first);
    assert first.d.header.seq' in Receive(l, first).noted;
    RunStaysWatermarked(Receive(l, first), arrivals);
    var m := ReceiveAll(l, all);
    hide Receive, SessionState.Typed, Watermarked, PassesEpochCheck;
    assert m == ReceiveAll(Receive(l, first), arrivals);
    if PassesEpochCheck(m.session, again.d) {
      RedeliveryNeverMoves(m, again);
    }
  }
}
