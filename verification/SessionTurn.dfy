/**
 * What one tick of a session does to the two networks its channels run over, when everything it
 * emits is heard: exactly the channels that speak are relayed, once each.
 */
module SessionTurns {
  import opened Bytes
  import opened Channels
  import opened Convergence
  import opened EndToEnd
  import opened Packets
  import opened Protocol
  import opened Sessions
  import opened Wrappers
  import D = Delivery

  // ---------- which channels speak ----------

  ghost predicate Said(wanted: seq<(nat, bool)>, id: nat) {
    exists k | 0 <= k < |wanted| :: wanted[k].0 == id
  }

  /** A tick past the floor sends something on this channel. */
  ghost predicate Speaks(s: SessionState, id: nat, nowMs: nat) { Said(s.Wanted(nowMs), id) }

  /** No channel is due. */
  predicate Silent(s: SessionState, nowMs: nat) {
    !DueBy(s.MessagesDueAt(), nowMs) && !DueBy(s.ScreenDueAt(), nowMs)
  }

  /**
   * A tick sends on a channel exactly when the floor has passed and the channel is due, or none
   * is and its acknowledgement is the first one owed, or the heartbeat is all there is to send.
   */
  lemma SpeaksExactly(s: SessionState, nowMs: nat)
    ensures Speaks(s, CHANNEL_MESSAGES, nowMs) <==>
            && s.FloorElapsed(nowMs)
            && (|| DueBy(s.MessagesDueAt(), nowMs)
                || (Silent(s, nowMs) && (s.ackMessages || (!s.ackScreen && s.HeartbeatDue(nowMs)))))
    ensures Speaks(s, CHANNEL_SCREEN, nowMs) <==>
            && s.FloorElapsed(nowMs)
            && (DueBy(s.ScreenDueAt(), nowMs) || (Silent(s, nowMs) && !s.ackMessages && s.ackScreen))
  {
    hide SessionState.MessagesDueAt, SessionState.ScreenDueAt;
    if s.FloorElapsed(nowMs) && !Silent(s, nowMs) {
      if DueBy(s.MessagesDueAt(), nowMs) {
        var k := if s.rotate && DueBy(s.ScreenDueAt(), nowMs) then 1 else 0;
        assert s.Wanted(nowMs)[k].0 == CHANNEL_MESSAGES;
      }
      if DueBy(s.ScreenDueAt(), nowMs) {
        var k := if !s.rotate && DueBy(s.MessagesDueAt(), nowMs) then 1 else 0;
        assert s.Wanted(nowMs)[k].0 == CHANNEL_SCREEN;
      }
    } else if s.FloorElapsed(nowMs) && s.Wanted(nowMs) != [] {
      assert s.Wanted(nowMs)[0].0 == CHANNEL_MESSAGES || s.Wanted(nowMs)[0].0 == CHANNEL_SCREEN;
    }
  }

  /** Each channel is named at most once. */
  ghost predicate Distinct(wanted: seq<(nat, bool)>) {
    && Channels01(wanted)
    && forall j, k | 0 <= j < k < |wanted| :: wanted[j].0 != wanted[k].0
  }

  lemma WantedDistinct(s: SessionState, nowMs: nat)
    ensures Distinct(s.Wanted(nowMs)) && |s.Wanted(nowMs)| <= 2
  {
    hide ChannelDueAt;
  }

  lemma SomeSaid(wanted: seq<(nat, bool)>)
    requires wanted != [] && Distinct(wanted)
    ensures Said(wanted, CHANNEL_MESSAGES) || Said(wanted, CHANNEL_SCREEN)
  {
    var first := wanted[0];
    assert first.0 == CHANNEL_MESSAGES || first.0 == CHANNEL_SCREEN;
  }

  lemma SaidFirst(wanted: seq<(nat, bool)>, id: nat)
    requires wanted != [] && Distinct(wanted)
    ensures Distinct(wanted[1..])
    ensures Said(wanted, id) <==> wanted[0].0 == id || Said(wanted[1..], id)
    ensures !Said(wanted[1..], wanted[0].0)
  {
    var rest := wanted[1..];
    forall k | 0 <= k < |rest|
      ensures rest[k].0 == wanted[k + 1].0 != wanted[0].0
    {
    }
    if k :| 0 < k < |wanted| && wanted[k].0 == id {
      assert rest[k - 1].0 == id;
    }
  }

  // ---------- sending ----------

  /** `a` sends, or not. */
  ghost function Sending(n: D.Net, said: bool, t: nat): (n': D.Net)
    requires D.Inv(n)
    ensures D.Inv(n')
  {
    if said then TakeInOrder(n, D.AtA(D.Sending(t))) else n
  }

  lemma LinkIsOk(y: System, n0: D.Net, n1: D.Net)
    requires Link(y, n0, n1)
    ensures SessionOk(y.a.session, n0.a.hist, n1.a.hist)
  {
    LinkKinds(y, n0, n1);
    hide Link, BuiltBy;
  }

  lemma SendingIs(n: D.Net, t: nat, m: D.Net)
    requires D.Inv(n) && n.a.chan.Typed() && n.a.chan.NextInstruction().Ok?
    requires var i := n.a.chan.NextInstruction().value;
             m == n.(a := n.a.(chan := n.a.chan.NoteSent(i, t)), toB := n.toB + {i})
    ensures TakeInOrder(n, D.AtA(D.Sending(t))) == m
  {
    hide D.Half, ChannelState.NextInstruction, ChannelState.Typed;
  }

  lemma BuildAcks(s: SessionState, id: nat, nowMs: nat, drawn: Option<nat>, heartbeat: bool)
    requires s.Typed() && (id == CHANNEL_MESSAGES || id == CHANNEL_SCREEN)
    ensures var (s', r) := s.Build(id, nowMs, drawn, heartbeat);
            r.Ok? ==> && s'.ackMessages == (s.ackMessages && id != CHANNEL_MESSAGES)
                      && s'.ackScreen == (s.ackScreen && id != CHANNEL_SCREEN)
  {
    hide ChannelState.NextInstruction, EncodePacket, SessionState.Typed, SessionState.ReplyTs;
  }

  /** The next Instruction of one of the two channels. */
  ghost predicate Bears(d: Datagram, i: Instruction) {
    DecodePacket(d.payload.plaintext).Ok? && DecodePacket(d.payload.plaintext).value.instruction == i
  }

  ghost predicate NextAre(n0: D.Net, n1: D.Net, i0: Instruction, i1: Instruction) {
    && n0.a.chan.Typed() && n1.a.chan.Typed()
    && n0.a.chan.NextInstruction() == Ok(i0) && n1.a.chan.NextInstruction() == Ok(i1)
    && i0.channel == CHANNEL_MESSAGES && i1.channel == CHANNEL_SCREEN
  }

  /** One build with a number in hand is one sending on its channel and nothing on the other. */
  lemma BuildSends(y: System, n0: D.Net, n1: D.Net, k: nat, i0: Instruction, i1: Instruction, id: nat, t: nat,
                   drawn: Option<nat>, heartbeat: bool)
    requires Link(y, n0, n1) && Short(n0, k) && Short(n1, k) && k < U64_SPAN && NextAre(n0, n1, i0, i1)
    requires (id == CHANNEL_MESSAGES || id == CHANNEL_SCREEN) && drawn.Some?
    ensures y.a.session.Typed() && D.Inv(n0) && D.Inv(n1)
    ensures var (s', r) := y.a.session.Build(id, t, drawn, heartbeat);
            && r.Ok? && Bears(r.value, if id == CHANNEL_MESSAGES then i0 else i1)
            && Link(Built(y, s', r), Sending(n0, id == CHANNEL_MESSAGES, t), Sending(n1, id == CHANNEL_SCREEN, t))
            && s'.ackMessages == (y.a.session.ackMessages && id != CHANNEL_MESSAGES)
            && s'.ackScreen == (y.a.session.ackScreen && id != CHANNEL_SCREEN)
  {
    hide Link, SessionState.Build, ChannelState.NextInstruction, D.Inv, EndLinks, SessionOk, SessionState.Typed,
      ChannelState.Typed, Short, TakeInOrder;
    var s := y.a.session;
    LinkKinds(y, n0, n1);
    LinkIsOk(y, n0, n1);
    BuildSucceeds(s, n0.a.hist, n1.a.hist, id, t, drawn.value, heartbeat);
    InstructionFits(n0, k);
    InstructionFits(n1, k);
    BuildCarries(s, id, t, drawn, heartbeat);
    BuildLeaves(s, id, t, drawn, heartbeat);
    BuildAcks(s, id, t, drawn, heartbeat);
    var (s', r) := s.Build(id, t, drawn, heartbeat);
    if id == CHANNEL_MESSAGES {
      var m0 := SendingLeaves(n0, t);
      SendingIs(n0, t, m0);
      MessagesSent(y, n0, n1, s', r, i0, t, m0);
    } else {
      var m1 := SendingLeaves(n1, t);
      SendingIs(n1, t, m1);
      ScreenSent(y, n0, n1, s', r, i1, t, m1);
    }
  }

  ghost predicate AllBear(ds: seq<Datagram>, wanted: seq<(nat, bool)>, i0: Instruction, i1: Instruction) {
    && |ds| == |wanted|
    && forall k | 0 <= k < |ds| :: Bears(ds[k], if wanted[k].0 == CHANNEL_MESSAGES then i0 else i1)
  }

  /** What sending on one channel leaves of what is sent next on either. */
  lemma SendingKeepsNext(n0: D.Net, n1: D.Net, i0: Instruction, i1: Instruction, said0: bool, said1: bool, t: nat, k: nat)
    requires D.Inv(n0) && D.Inv(n1) && NextAre(n0, n1, i0, i1) && Short(n0, k) && Short(n1, k)
    ensures NextAre(Sending(n0, said0, t), Sending(n1, said1, t), i0, i1)
    ensures Short(Sending(n0, said0, t), k) && Short(Sending(n1, said1, t), k)
  {
    SentNext(n0, said0, t, k);
    SentNext(n1, said1, t, k);
    hide Sending, D.Inv, ChannelState.NextInstruction, ChannelState.Typed, Short;
  }

  lemma SentNext(n: D.Net, said: bool, t: nat, k: nat)
    requires D.Inv(n) && Short(n, k)
    ensures n.a.chan.Typed() && Sending(n, said, t).a.chan.Typed() && Short(Sending(n, said, t), k)
    ensures Sending(n, said, t).a.chan.NextInstruction() == n.a.chan.NextInstruction()
  {
    var m := SendingLeaves(n, t);
    SendingIs(n, t, m);
    SameNext(n.a.chan, m.a.chan.sentNum, m.a.chan.lastSentMs);
    hide D.Half, ChannelState.NextInstruction;
  }

  /** Building all that is wanted sends once on every channel named, and owes those no acknowledgement. */
  lemma {:induction false} BuildAllSends(y: System, n0: D.Net, n1: D.Net, k: nat, i0: Instruction, i1: Instruction,
                                         wanted: seq<(nat, bool)>, t: nat, draws: seq<Option<nat>>)
    requires Link(y, n0, n1) && Short(n0, k) && Short(n1, k) && k < U64_SPAN && NextAre(n0, n1, i0, i1)
    requires Distinct(wanted) && |wanted| <= |draws| && forall x | x in draws :: x.Some?
    ensures y.a.session.Typed() && D.Inv(n0) && D.Inv(n1)
    ensures var (s', out) := y.a.session.BuildAll(wanted, t, draws);
            && out.Ok? && AllBear(out.value, wanted, i0, i1)
            && Link(AllBuilt(y, s', out), Sending(n0, Said(wanted, CHANNEL_MESSAGES), t),
                    Sending(n1, Said(wanted, CHANNEL_SCREEN), t))
            && s'.ackMessages == (y.a.session.ackMessages && !Said(wanted, CHANNEL_MESSAGES))
            && s'.ackScreen == (y.a.session.ackScreen && !Said(wanted, CHANNEL_SCREEN))
    decreases wanted
  {
    hide Link, SessionState.Build, SessionState.BuildAll, ChannelState.NextInstruction, D.Inv, EndLinks, SessionState.Typed,
      ChannelState.Typed, Short, Sending, Bears, AllBuilt, NextAre, Said, Distinct, Knows, AllBear;
    LinkKinds(y, n0, n1);
    if wanted == [] {
      BuildNothing(y.a.session, t, draws);
      BuiltNothing(y);
      SaidNothing(wanted, n0, n1, t);
      NothingBears(wanted, i0, i1);
    } else {
      SaidFirst(wanted, CHANNEL_MESSAGES);
      SaidFirst(wanted, CHANNEL_SCREEN);
      FirstIsChannel(wanted);
      assert draws[0] in draws;
      BuildAllUnfolds(y.a.session, wanted, t, draws);
      BuildSends(y, n0, n1, k, i0, i1, wanted[0].0, t, draws[0], wanted[0].1);
      var (s1, r) := y.a.session.Build(wanted[0].0, t, draws[0], wanted[0].1);
      var y1 := Built(y, s1, r);
      var m0, m1 := Sending(n0, wanted[0].0 == CHANNEL_MESSAGES, t), Sending(n1, wanted[0].0 == CHANNEL_SCREEN, t);
      SendingKeepsNext(n0, n1, i0, i1, wanted[0].0 == CHANNEL_MESSAGES, wanted[0].0 == CHANNEL_SCREEN, t, k);
      BuiltSession(y, s1, r);
      BuildAllSends(y1, m0, m1, k, i0, i1, wanted[1..], t, draws[1..]);
      var (s', out) := s1.BuildAll(wanted[1..], t, draws[1..]);
      SendsOnce(n0, wanted, CHANNEL_MESSAGES, t);
      SendsOnce(n1, wanted, CHANNEL_SCREEN, t);
      BuiltOneMore(y, s1, r.value, s', out, Sending(m0, Said(wanted[1..], CHANNEL_MESSAGES), t),
                   Sending(m1, Said(wanted[1..], CHANNEL_SCREEN), t));
      OneMoreBears(r.value, out.value, wanted, i0, i1);
    }
  }

  lemma FirstIsChannel(wanted: seq<(nat, bool)>)
    requires wanted != [] && Distinct(wanted)
    ensures wanted[0].0 == CHANNEL_MESSAGES || wanted[0].0 == CHANNEL_SCREEN
  {
  }

  lemma SaidNothing(wanted: seq<(nat, bool)>, n0: D.Net, n1: D.Net, t: nat)
    requires wanted == [] && D.Inv(n0) && D.Inv(n1)
    ensures forall id :: !Said(wanted, id)
    ensures Sending(n0, false, t) == n0 && Sending(n1, false, t) == n1
  {
  }

  lemma NothingBears(wanted: seq<(nat, bool)>, i0: Instruction, i1: Instruction)
    requires wanted == []
    ensures AllBear([], wanted, i0, i1)
  {
  }

  lemma OneMoreBears(d: Datagram, rest: seq<Datagram>, wanted: seq<(nat, bool)>, i0: Instruction, i1: Instruction)
    requires wanted != [] && AllBear(rest, wanted[1..], i0, i1)
    requires Bears(d, if wanted[0].0 == CHANNEL_MESSAGES then i0 else i1)
    ensures AllBear([d] + rest, wanted, i0, i1)
  {
    hide Bears;
  }

  lemma SendsOnce(n: D.Net, wanted: seq<(nat, bool)>, id: nat, t: nat)
    requires D.Inv(n) && wanted != [] && Distinct(wanted)
    ensures Sending(Sending(n, wanted[0].0 == id, t), Said(wanted[1..], id), t) == Sending(n, Said(wanted, id), t)
  {
    SaidFirst(wanted, id);
    hide D.Inv, Said, Distinct, TakeInOrder;
  }

  // ---------- a tick, and everything it emits heard ----------

  /** When a session is ticked, what its sequence source says, and when the other hears it. */
  datatype Pace = Pace(at: nat, draws: seq<Option<nat>>, heardMs: nat, sampledRto: nat)

  ghost predicate Working(p: Pace) { |p.draws| >= 2 && forall x | x in p.draws :: x.Some? }

  /** `b` hears these datagrams, one after the other. */
  ghost function HearAll(y: System, ds: seq<Datagram>, p: Pace): System
    decreases ds
  {
    if ds == [] then y else HearAll(Take(y, AtB(Hear(ds[0], p.heardMs, p.sampledRto))), ds[1..], p)
  }

  ghost function EmittedSeq(out: Result<seq<Datagram>, TransportError>): seq<Datagram> {
    if out.Ok? then out.value else []
  }

  /** `a` is ticked, and all it emits is heard. */
  ghost function Relayed(y: System, p: Pace): System {
    var s := y.a.session;
    if !s.Typed() then y
    else HearAll(Take(y, AtA(Tick(p.at, p.draws))), EmittedSeq(s.Outgoing(p.at, p.draws).1), p)
  }

  lemma ActTicks(y: System, t: nat, draws: seq<Option<nat>>)
    requires y.a.session.Typed()
    ensures var (s', out) := y.a.session.Outgoing(t, draws);
            Act(y, Tick(t, draws)) == AllBuilt(y, s', out)
  {
    hide SessionState.Outgoing, SessionState.Typed;
  }

  lemma OutgoingIs(s: SessionState, t: nat, draws: seq<Option<nat>>)
    requires s.Typed()
    ensures s.Wanted(t) == [] ==> s.BuildAll(s.Wanted(t), t, draws) == (s, Ok([]))
    ensures s.Turned().Typed()
    ensures var before := if s.FloorElapsed(t) && s.DueChannels(t) == [] then s.Turned() else s;
            var (s', out) := before.BuildAll(s.Wanted(t), t, draws);
            s.Outgoing(t, draws)
            == (if out.Ok? && s.FloorElapsed(t) && s.DueChannels(t) != [] then s'.Turned() else s', out)
  {
    BuildNothing(s, t, draws);
    hide SessionState.BuildAll, ChannelState.Typed, SessionState.DueChannels;
  }

  lemma BuiltFromTurned(y: System, s': SessionState, out: Result<seq<Datagram>, TransportError>)
    ensures var z := y.(a := y.a.(session := y.a.session.Turned())); AllBuilt(z, s', out) == AllBuilt(y, s', out)
  {
  }

  lemma EmittedIn(y: System, s': SessionState, ds: seq<Datagram>)
    ensures forall d | d in ds :: d in AllBuilt(y, s', Ok(ds)).toB
    ensures var y' := AllBuilt(y, s', Ok(ds)); y' == y.(a := y.a.(session := s'), toB := y'.toB)
  {
  }

  /** A tick is one sending on each channel that speaks, and nothing on the others. */
  lemma TickSends(y: System, n0: D.Net, n1: D.Net, k: nat, i0: Instruction, i1: Instruction, p: Pace)
    returns (ds: seq<Datagram>)
    requires Link(y, n0, n1) && Short(n0, k) && Short(n1, k) && k < U64_SPAN && NextAre(n0, n1, i0, i1) && Working(p)
    ensures y.a.session.Typed() && D.Inv(n0) && D.Inv(n1)
    ensures y.a.session.Outgoing(p.at, p.draws).1 == Ok(ds) && AllBear(ds, y.a.session.Wanted(p.at), i0, i1)
    ensures var s, y' := y.a.session, Act(y, Tick(p.at, p.draws));
            && Link(y', Sending(n0, Speaks(s, CHANNEL_MESSAGES, p.at), p.at), Sending(n1, Speaks(s, CHANNEL_SCREEN, p.at), p.at))
            && y' == y.(a := y.a.(session := y'.a.session), toB := y'.toB) && (forall d | d in ds :: d in y'.toB)
            && y'.a.session.ackMessages == (s.ackMessages && !Speaks(s, CHANNEL_MESSAGES, p.at))
            && y'.a.session.ackScreen == (s.ackScreen && !Speaks(s, CHANNEL_SCREEN, p.at))
  {
    hide Link, SessionState.Outgoing, SessionState.BuildAll, SessionState.Wanted, SessionState.Typed, D.Inv, EndLinks, Said,
      Sending, AllBear, AllBuilt, NextAre, Short, SessionState.DueChannels, SessionState.FloorElapsed, ChannelState.Typed, Knows;
    var s, t := y.a.session, p.at;
    LinkKinds(y, n0, n1);
    WantedDistinct(s, t);
    OutgoingIs(s, t, p.draws);
    ActTicks(y, t, p.draws);
    var turned := y.(a := y.a.(session := s.Turned()));
    TurnLinks(y, n0, n1);
    var z := if s.FloorElapsed(t) && s.DueChannels(t) == [] then turned else y;
    BuildAllSends(z, n0, n1, k, i0, i1, s.Wanted(t), t, p.draws);
    var (s', out) := z.a.session.BuildAll(s.Wanted(t), t, p.draws);
    BuiltFromTurned(y, s', out);
    ds := out.value;
    EmittedIn(y, s', ds);
    EmittedIn(y, s'.Turned(), ds);
    if s.FloorElapsed(t) && s.DueChannels(t) != [] {
      var m0, m1 := Sending(n0, Said(s.Wanted(t), CHANNEL_MESSAGES), t), Sending(n1, Said(s.Wanted(t), CHANNEL_SCREEN), t);
      TurnLinks(AllBuilt(y, s', out), m0, m1);
      TurnedAfter(y, s', out);
    }
  }

  lemma TurnedAfter(y: System, s': SessionState, out: Result<seq<Datagram>, TransportError>)
    ensures var z := AllBuilt(y, s', out); z.a.session == s' && z.(a := z.a.(session := s'.Turned())) == AllBuilt(y, s'.Turned(), out)
  {
  }

  // ---------- hearing ----------

  /** Whether taking this in makes a session owe an acknowledgement. */
  ghost predicate Owes(c: ChannelState, i: Instruction) {
    var r := c.Apply(i).1;
    r.Ok? && (r.value || i.newNum != i.oldNum)
  }

  /** `b` receives, or not. */
  ghost function Hearing(n: D.Net, said: bool, i: Instruction): (n': D.Net)
    requires D.Inv(n)
    ensures D.Inv(n')
  {
    if said then TakeInOrder(n, D.AtB(D.Receiving(i))) else n
  }

  /** What hearing leaves of what is owed. */
  lemma HearingOwes(s: SessionState, d: Datagram, p: Packet, heardMs: nat, sampledRto: nat)
    requires s.Typed() && p.instruction.channel <= CHANNEL_SCREEN
    ensures var s', i := s.Noted(d, p, heardMs, sampledRto).Applied(p.instruction).0, p.instruction;
            && s'.ackMessages == (s.ackMessages || (i.channel == CHANNEL_MESSAGES && Owes(s.messages, i)))
            && s'.ackScreen == (s.ackScreen || (i.channel == CHANNEL_SCREEN && Owes(s.screen, i)))
            && s'.lastSendMs == s.lastSendMs
  {
    hide ChannelState.Apply;
  }

  /** Hearing one datagram in flight is one receiving on its channel and nothing on the other. */
  lemma HearReceives(y: System, n0: D.Net, n1: D.Net, d: Datagram, i: Instruction, p: Pace)
    requires Link(y, n0, n1) && d in y.toB && Bears(d, i)
    requires i.channel == CHANNEL_MESSAGES || i.channel == CHANNEL_SCREEN
    ensures D.Inv(n0) && D.Inv(n1)
    ensures var y' := Take(y, AtB(Hear(d, p.heardMs, p.sampledRto)));
            && Link(y', Hearing(n0, i.channel == CHANNEL_MESSAGES, i), Hearing(n1, i.channel == CHANNEL_SCREEN, i))
            && y' == y.(b := y.b.(session := y'.b.session))
            && y'.b.session.ackMessages == (y.b.session.ackMessages || (i.channel == CHANNEL_MESSAGES && Owes(n0.b.chan, i)))
            && y'.b.session.ackScreen == (y.b.session.ackScreen || (i.channel == CHANNEL_SCREEN && Owes(n1.b.chan, i)))
            && y'.b.session.lastSendMs == y.b.session.lastSendMs
  {
    hide Act, Link, Knows, EndLinks, D.Inv, D.Act, CanArrive, SessionState.Handle, ChannelState.Apply, SessionState.Typed,
      ChannelState.Typed, DecodePacket, Owes, SessionState.Authentic, SessionState.Noted, SessionState.Applied;
    LinkKinds(y, n0, n1);
    FlipKeepsLink(y, n0, n1);
    var z, l0, l1 := Flip(y), D.Flip(n0), D.Flip(n1);
    LinkKinds(z, l0, l1);
    ActHears(z, d, p.heardMs, p.sampledRto);
    EmittedCanArrive(z, d);
    HeardIsApplied(z, l0, l1, d, p.heardMs, p.sampledRto);
    HearingOwes(z.a.session, d, z.a.session.Authentic(d).value, p.heardMs, p.sampledRto);
    var j := HeardSession(z, l0, l1, d, p.heardMs, p.sampledRto);
    var s' := z.a.session.Handle(d, p.heardMs, p.sampledRto).0;
    if i.channel == CHANNEL_MESSAGES {
      var m0 := HearMessages(z, l0, l1, s', i);
      FlipKeepsLink(z.(a := z.a.(session := s')), m0, l1);
    } else {
      var m1 := HearScreen(z, l0, l1, s', i);
      FlipKeepsLink(z.(a := z.a.(session := s')), l0, m1);
    }
    assert D.Flip(D.Flip(n0)) == n0 && D.Flip(D.Flip(n1)) == n1;
  }

  lemma HearsOnce(n: D.Net, wanted: seq<(nat, bool)>, id: nat, i: Instruction)
    requires D.Inv(n) && wanted != [] && Distinct(wanted)
    ensures Hearing(Hearing(n, wanted[0].0 == id, i), Said(wanted[1..], id), i) == Hearing(n, Said(wanted, id), i)
    ensures Said(wanted[1..], id) ==> Hearing(n, wanted[0].0 == id, i) == n
    ensures Said(wanted, id) <==> wanted[0].0 == id || Said(wanted[1..], id)
  {
    SaidFirst(wanted, id);
    hide D.Inv, Said, Distinct, TakeInOrder;
  }

  lemma RestBears(ds: seq<Datagram>, wanted: seq<(nat, bool)>, i0: Instruction, i1: Instruction)
    requires AllBear(ds, wanted, i0, i1) && ds != []
    ensures Bears(ds[0], if wanted[0].0 == CHANNEL_MESSAGES then i0 else i1) && AllBear(ds[1..], wanted[1..], i0, i1)
  {
    hide Bears;
  }

  /** What `b` owes after hearing, on each channel. */
  ghost predicate OwesAfter(before: SessionState, after: SessionState, said0: bool, said1: bool, i0: Instruction,
                            i1: Instruction) {
    && after.ackMessages == (before.ackMessages || (said0 && Owes(before.messages, i0)))
    && after.ackScreen == (before.ackScreen || (said1 && Owes(before.screen, i1)))
    && after.lastSendMs == before.lastSendMs
  }

  /** Hearing all that was emitted is one receiving on each channel that spoke. */
  lemma {:induction false} HearAllReceives(y: System, n0: D.Net, n1: D.Net, ds: seq<Datagram>, wanted: seq<(nat, bool)>,
                                           i0: Instruction, i1: Instruction, p: Pace)
    requires Link(y, n0, n1) && AllBear(ds, wanted, i0, i1) && Distinct(wanted) && forall d | d in ds :: d in y.toB
    requires i0.channel == CHANNEL_MESSAGES && i1.channel == CHANNEL_SCREEN
    ensures D.Inv(n0) && D.Inv(n1)
    ensures var y' := HearAll(y, ds, p);
            && Link(y', Hearing(n0, Said(wanted, CHANNEL_MESSAGES), i0), Hearing(n1, Said(wanted, CHANNEL_SCREEN), i1))
            && y' == y.(b := y.b.(session := y'.b.session))
            && OwesAfter(y.b.session, y'.b.session, Said(wanted, CHANNEL_MESSAGES), Said(wanted, CHANNEL_SCREEN), i0, i1)
    decreases ds
  {
    hide Link, D.Inv, Bears, AllBear, Said, Distinct, Hearing, Owes, Take, EndLinks, Knows, SessionState.Typed,
      ChannelState.Typed;
    LinkKinds(y, n0, n1);
    PeerKinds(y, n0, n1);
    if ds == [] {
      BearsNothing(wanted, i0, i1);
      HearsNothing(wanted, n0, n1, i0, i1);
    } else {
      BearsSome(ds, wanted, i0, i1);
      RestBears(ds, wanted, i0, i1);
      HearsOnce(n0, wanted, CHANNEL_MESSAGES, i0);
      HearsOnce(n1, wanted, CHANNEL_SCREEN, i1);
      SaidFirst(wanted, CHANNEL_MESSAGES);
      SaidFirst(wanted, CHANNEL_SCREEN);
      FirstIsChannel(wanted);
      var id := wanted[0].0;
      var i := if id == CHANNEL_MESSAGES then i0 else i1;
      HearReceives(y, n0, n1, ds[0], i, p);
      HearsOther(n0, n1, i, i0, i1);
      var y1 := Take(y, AtB(Hear(ds[0], p.heardMs, p.sampledRto)));
      var m0, m1 := Hearing(n0, id == CHANNEL_MESSAGES, i0), Hearing(n1, id == CHANNEL_SCREEN, i1);
      HearAllReceives(y1, m0, m1, ds[1..], wanted[1..], i0, i1, p);
      PeerKinds(y1, m0, m1);
    }
  }

  lemma HearsOther(n0: D.Net, n1: D.Net, i: Instruction, i0: Instruction, i1: Instruction)
    requires D.Inv(n0) && D.Inv(n1) && i0.channel == CHANNEL_MESSAGES && i1.channel == CHANNEL_SCREEN
    requires i == i0 || i == i1
    ensures Hearing(n0, i.channel == CHANNEL_MESSAGES, i) == Hearing(n0, i.channel == CHANNEL_MESSAGES, i0)
    ensures Hearing(n1, i.channel == CHANNEL_SCREEN, i) == Hearing(n1, i.channel == CHANNEL_SCREEN, i1)
  {
    hide D.Inv, TakeInOrder;
  }

  lemma PeerKinds(y: System, n0: D.Net, n1: D.Net)
    requires Link(y, n0, n1)
    ensures n0.b.chan == y.b.session.messages && n1.b.chan == y.b.session.screen && y.b.session.Typed()
    ensures n0.b.chan.initial.Messages? && n1.b.chan.initial.Screen?
  {
    FlipKeepsLink(y, n0, n1);
    LinkKinds(Flip(y), D.Flip(n0), D.Flip(n1));
    hide Link, D.Inv, Knows;
  }

  lemma BearsNothing(wanted: seq<(nat, bool)>, i0: Instruction, i1: Instruction)
    requires AllBear([], wanted, i0, i1)
    ensures wanted == []
  {
  }

  lemma BearsSome(ds: seq<Datagram>, wanted: seq<(nat, bool)>, i0: Instruction, i1: Instruction)
    requires AllBear(ds, wanted, i0, i1) && ds != []
    ensures wanted != []
  {
  }

  lemma HearsNothing(wanted: seq<(nat, bool)>, n0: D.Net, n1: D.Net, i0: Instruction, i1: Instruction)
    requires wanted == [] && D.Inv(n0) && D.Inv(n1)
    ensures forall id :: !Said(wanted, id)
    ensures Hearing(n0, false, i0) == n0 && Hearing(n1, false, i1) == n1
  {
  }

  // ---------- a relayed tick ----------

  /** `a`'s next Instruction reaches `b`, or nothing happens. */
  ghost function Relaying(n: D.Net, said: bool, t: nat): (n': D.Net)
    requires D.Inv(n)
    ensures D.Inv(n')
  {
    if said then Relay(n, t) else n
  }

  lemma RelayingIs(n: D.Net, said: bool, i: Instruction, t: nat)
    requires D.Inv(n) && n.a.chan.Typed() && n.a.chan.NextInstruction() == Ok(i)
    ensures Hearing(Sending(n, said, t), said, i) == Relaying(n, said, t)
    ensures Sending(n, said, t).b == n.b
  {
    hide D.Half, ChannelState.NextInstruction, ChannelState.Apply;
  }

  /** What a relayed tick leaves at both ends, beside the channels. */
  ghost predicate RelayLeft(y: System, y': System, n0: D.Net, n1: D.Net, said0: bool, said1: bool)
    requires n0.a.chan.Typed() && n1.a.chan.Typed()
    requires n0.a.chan.NextInstruction().Ok? && n1.a.chan.NextInstruction().Ok?
  {
    && y'.a == y.a.(session := y'.a.session) && y'.b == y.b.(session := y'.b.session) && y'.toA == y.toA
    && y'.a.session.ackMessages == (y.a.session.ackMessages && !said0)
    && y'.a.session.ackScreen == (y.a.session.ackScreen && !said1)
    && OwesAfter(y.b.session, y'.b.session, said0, said1, n0.a.chan.NextInstruction().value, n1.a.chan.NextInstruction().value)
  }

  lemma NextExist(y: System, n0: D.Net, n1: D.Net, k: nat) returns (i0: Instruction, i1: Instruction)
    requires Link(y, n0, n1) && Short(n0, k) && Short(n1, k) && k < U64_SPAN
    ensures NextAre(n0, n1, i0, i1)
  {
    LinkKinds(y, n0, n1);
    InstructionFits(n0, k);
    InstructionFits(n1, k);
    i0, i1 := n0.a.chan.NextInstruction().value, n1.a.chan.NextInstruction().value;
    hide Link, D.Inv, EndLinks, ChannelState.NextInstruction, Short, Knows;
  }

  /**
   * A tick of `a` at any time, with a working sequence source and all of it heard: exactly the
   * channels that speak are relayed, once each.
   */
  lemma RelayedExactly(y: System, n0: D.Net, n1: D.Net, k: nat, p: Pace)
    requires Link(y, n0, n1) && Short(n0, k) && Short(n1, k) && k < U64_SPAN && Working(p)
    ensures D.Inv(n0) && D.Inv(n1)
    ensures n0.a.chan.Typed() && n1.a.chan.Typed()
    ensures n0.a.chan.NextInstruction().Ok? && n1.a.chan.NextInstruction().Ok?
    ensures var s, y' := y.a.session, Relayed(y, p);
            && Link(y', Relaying(n0, Speaks(s, CHANNEL_MESSAGES, p.at), p.at), Relaying(n1, Speaks(s, CHANNEL_SCREEN, p.at), p.at))
            && RelayLeft(y, y', n0, n1, Speaks(s, CHANNEL_MESSAGES, p.at), Speaks(s, CHANNEL_SCREEN, p.at))
  {
    hide Link, SessionState.Outgoing, SessionState.Wanted, SessionState.Typed, D.Inv, EndLinks, Said, Sending, Hearing,
      Relaying, AllBear, Short, Act, Owes, ChannelState.NextInstruction, ChannelState.Typed, Knows, Distinct, HearAll;
    LinkKinds(y, n0, n1);
    var s := y.a.session;
    var said0, said1 := Speaks(s, CHANNEL_MESSAGES, p.at), Speaks(s, CHANNEL_SCREEN, p.at);
    var i0, i1 := NextExist(y, n0, n1, k);
    var ds := TickSends(y, n0, n1, k, i0, i1, p);
    WantedDistinct(s, p.at);
    RelayingIs(n0, said0, i0, p.at);
    RelayingIs(n1, said1, i1, p.at);
    var y1 := Act(y, Tick(p.at, p.draws));
    HearAllReceives(y1, Sending(n0, said0, p.at), Sending(n1, said1, p.at), ds, s.Wanted(p.at), i0, i1, p);
    PeerKinds(y, n0, n1);
  }

  /** `b`'s application takes what arrived. */
  lemma PeerDrains(y: System, n0: D.Net, n1: D.Net)
    requires Link(y, n0, n1)
    ensures D.Inv(n0)
    ensures var y' := Take(y, AtB(Drain));
            && Link(y', TakeInOrder(n0, D.AtB(D.Draining)), n1)
            && y'.a == y.a && y'.b.queued == y.b.queued && y'.b.shown == y.b.shown
  {
    hide Link, EndLinks, D.Inv, D.Act, SessionState.Typed, ChannelState.Typed, Knows;
    LinkKinds(y, n0, n1);
    FlipKeepsLink(y, n0, n1);
    LinkKinds(Flip(y), D.Flip(n0), D.Flip(n1));
    var d0 := DrainLinks(Flip(y), D.Flip(n0), D.Flip(n1));
    FlipKeepsLink(Act(Flip(y), Drain), d0, D.Flip(n1));
    assert D.Flip(D.Flip(n1)) == n1;
  }
}
