/**
 * Two paired sessions that nothing more is asked of, over a network that loses nothing: what was
 * queued and shown arrives, ticked at the times they name.
 */
module SessionConvergences {
  import opened Bytes
  import Channels
  import opened Convergence
  import opened EndToEnd
  import opened Histories
  import MessageQueues
  import opened Protocol
  import opened Sessions
  import opened SessionTurns
  import SspStates
  import D = Delivery

  // ---------- one channel, both ways ----------

  /** A session with nothing to say on channel 1. */
  ghost predicate OnlyMessages(s: SessionState) { !s.screen.IsPending() && !s.ackScreen }

  /** Neither side has anything to say on channel 1. */
  ghost predicate Quiet(y: System) { OnlyMessages(y.a.session) && OnlyMessages(y.b.session) }

  /** `a` is ticked at the time it names, and all it emits is heard. */
  ghost function RelayedWhenNamed(y: System, p: Pace): System {
    Relayed(y, p.(at := y.a.session.NextSendMs(p.at)))
  }

  /** Ticked at the time it names, such a session speaks on channel 0 alone. */
  lemma SpeaksMessages(s: SessionState, nowMs: nat)
    requires OnlyMessages(s)
    ensures Speaks(s, CHANNEL_MESSAGES, s.NextSendMs(nowMs)) && !Speaks(s, CHANNEL_SCREEN, s.NextSendMs(nowMs))
  {
    var t := s.NextSendMs(nowMs);
    SendsWhenNamed(s, nowMs);
    SpeaksExactly(s, t);
    WantedDistinct(s, t);
    SomeSaid(s.Wanted(t));
    hide SessionState.Wanted, SessionState.NextSendMs, SessionState.MessagesDueAt;
  }

  /** A relayed tick is one relay of channel 0, and channel 1 is not touched. */
  lemma RelayedIsRelay(y: System, n0: D.Net, n1: D.Net, k: nat, p: Pace)
    requires Link(y, n0, n1) && Short(n0, k) && Short(n1, k) && k < U64_SPAN && Quiet(y) && Working(p)
    ensures var y' := RelayedWhenNamed(y, p);
            && Link(y', Relay(n0, y.a.session.NextSendMs(p.at)), n1) && Quiet(y')
            && y'.a.queued == y.a.queued && y'.a.taken == y.a.taken && y'.b.queued == y.b.queued && y'.b.taken == y.b.taken
  {
    hide Link, EndLinks, D.Inv, SessionState.NextSendMs, SessionState.Wanted, SessionState.Typed, Channels.ChannelState.NextInstruction,
      Channels.ChannelState.Typed, Relay, Relayed, Owes, Short, Knows, Speaks;
    var t := y.a.session.NextSendMs(p.at);
    SpeaksMessages(y.a.session, p.at);
    RelayedExactly(y, n0, n1, k, p.(at := t));
    LinkKinds(y, n0, n1);
    PeerKinds(y, n0, n1);
    var y' := RelayedWhenNamed(y, p);
    LinkKinds(y', Relay(n0, t), n1);
    PeerKinds(y', Relay(n0, t), n1);
  }

  /**
   * One round: `b`'s application takes what arrived, `b` is ticked at the time it names and
   * heard, and so is `a`.
   */
  ghost function Round(y: System, paces: (Pace, Pace)): System {
    RelayedWhenNamed(Flip(RelayedWhenNamed(Flip(Take(y, AtB(Drain))), paces.0)), paces.1)
  }

  ghost function Rounds(y: System, paces: seq<(Pace, Pace)>): System
    decreases paces
  {
    if paces == [] then y else Rounds(Round(y, paces[0]), paces[1..])
  }

  ghost predicate AllWorking(paces: seq<(Pace, Pace)>) {
    forall p | p in paces :: Working(p.0) && Working(p.1)
  }

  lemma RelayStaysShort(n: D.Net, k: nat, t: nat)
    requires D.Inv(n) && Short(n, k)
    ensures Short(Relay(n, t), k)
  {
    RelayLeaves(n, t);
    hide D.Half, Relay, TakeInOrder;
  }

  lemma DrainStaysQuiet(y: System)
    requires y.a.session.Typed() && Quiet(y)
    ensures var y' := Act(y, Drain);
            && Quiet(y') && y'.b == y.b && y'.a.queued == y.a.queued
            && y'.a.taken == y.a.taken + y.a.session.messages.received.queue.messages
  {
    hide SessionState.Typed;
  }

  /** A round of sessions is one exchange of channel 0, at the times the two sessions named. */
  lemma RoundIsExchange(y: System, n0: D.Net, n1: D.Net, k: nat, paces: (Pace, Pace)) returns (t: nat, u: nat)
    requires Link(y, n0, n1) && Short(n0, k) && Short(n1, k) && k < U64_SPAN && Quiet(y) && Working(paces.0) && Working(paces.1)
    ensures var y' := Round(y, paces);
            Link(y', Exchange(n0, t, u), n1) && Short(Exchange(n0, t, u), k) && Quiet(y') && y'.a.queued == y.a.queued
  {
    hide Act, Link, EndLinks, D.Inv, D.Act, OnlyMessages, SessionState.NextSendMs, SessionState.Typed, Channels.ChannelState.Typed,
      RelayedWhenNamed, Relay;
    LinkKinds(y, n0, n1);
    FlipKeepsLink(y, n0, n1);
    LinkKinds(Flip(y), D.Flip(n0), D.Flip(n1));
    var d0 := DrainLinks(Flip(y), D.Flip(n0), D.Flip(n1));
    DrainStaysQuiet(Flip(y));
    var y1 := Act(Flip(y), Drain);
    assert Flip(Take(y, AtB(Drain))) == y1 && D.Flip(TakeInOrder(n0, D.AtB(D.Draining))) == d0;
    t := y1.a.session.NextSendMs(paces.0.at);
    LinkKinds(y1, d0, D.Flip(n1));
    RelayedIsRelay(y1, d0, D.Flip(n1), k, paces.0);
    RelayStaysShort(d0, k, t);
    var y2, e0 := RelayedWhenNamed(y1, paces.0), Relay(d0, t);
    FlipKeepsLink(y2, e0, D.Flip(n1));
    assert D.Flip(D.Flip(n1)) == n1;
    u := y2.b.session.NextSendMs(paces.1.at);
    RelayedIsRelay(Flip(y2), D.Flip(e0), n1, k, paces.1);
    LinkKinds(Flip(y2), D.Flip(e0), n1);
    RelayStaysShort(D.Flip(e0), k, u);
  }

  /** Where any number of rounds leaves the receiver. */
  lemma {:induction false} RoundsExactly(y: System, n0: D.Net, n1: D.Net, k: nat, paces: seq<(Pace, Pace)>)
    returns (m0: D.Net)
    requires Link(y, n0, n1) && Short(n0, k) && Short(n1, k) && k < U64_SPAN && Quiet(y) && AllWorking(paces)
    ensures D.Inv(n0) && D.Inv(m0) && Link(Rounds(y, paces), m0, n1)
    ensures m0.a.hist == n0.a.hist && m0.a.chan.initial == n0.a.chan.initial && m0.b.chan.initial == n0.b.chan.initial
    ensures n0.b.chan.receivedNum < |n0.a.hist| && Chain(n0.b.chan.initial.Kind(), n0.a.hist)
    ensures m0.b.chan.receivedNum == Reached(n0.b.chan.initial, n0.a.hist, n0.b.chan.receivedNum, |paces|)
    ensures Rounds(y, paces).a.queued == y.a.queued
    decreases paces
  {
    hide Link, D.Half, Round, Exchange, Passes, Chosen, Reached, Working, Quiet;
    LinkKinds(y, n0, n1);
    HalfIsChained(n0);
    ReachedStep(n0.b.chan.initial, n0.a.hist, n0.b.chan.receivedNum, |paces|);
    m0 := n0;
    if paces != [] {
      assert paces[0] in paces;
      var t, u := RoundIsExchange(y, n0, n1, k, paces[0]);
      ExchangeExactly(n0, t, u);
      m0 := RoundsExactly(Round(y, paces[0]), Exchange(n0, t, u), n1, k, paces[1..]);
    }
  }

  // ---------- what arrives ----------

  lemma HistoryIsQueued(y: System, n0: D.Net, n1: D.Net)
    requires Link(y, n0, n1)
    ensures n0.a.hist == Prefixes(y.a.queued)
    ensures n0.b.chan == y.b.session.messages && n0.b.chan.initial.Messages?
    ensures n0.b.chan.receivedNum <= |y.a.queued|
  {
    LinkKinds(y, n0, n1);
    FlipKeepsLink(y, n0, n1);
    LinkKinds(Flip(y), D.Flip(n0), D.Flip(n1));
    HalfIsChained(n0);
    hide Link, D.Inv, D.Half, Knows, Channels.ChannelState.Typed, SessionState.Typed;
    forall k | 0 <= k < |n0.a.hist|
      ensures n0.a.hist[k] == Prefixes(y.a.queued)[k]
    {
      assert Linked(SspStates.QueueKind, n0.a.hist, k) && Linked(SspStates.QueueKind, Prefixes(y.a.queued), k);
    }
  }

  /** `b`'s application took, or its session holds, everything that was queued at `a`. */
  ghost predicate AllArrived(y: System) {
    && y.b.session.messages.received.Messages?
    && y.b.taken + y.b.session.messages.received.queue.messages == y.a.queued
  }

  lemma ArrivedExactly(y: System, n0: D.Net, n1: D.Net)
    requires Link(y, n0, n1)
    ensures AllArrived(y) <==> n0.b.chan.receivedNum == |n0.a.hist| - 1
  {
    LinkIsFaithful(y, n0, n1);
    HistoryIsQueued(y, n0, n1);
    hide Link, Prefixes;
  }

  /** With as many rounds as `b` is behind, everything arrives if and only if every state passes. */
  lemma RoundsArrive(y: System, n0: D.Net, n1: D.Net, k: nat, paces: seq<(Pace, Pace)>)
    requires Link(y, n0, n1) && Short(n0, k) && Short(n1, k) && k < U64_SPAN && Quiet(y) && AllWorking(paces)
    requires |paces| >= |y.a.queued| - y.b.session.messages.receivedNum
    ensures var initial, r := y.b.session.messages.initial, y.b.session.messages.receivedNum;
            && initial.Messages? && r <= |y.a.queued| && Rounds(y, paces).a.queued == y.a.queued
            && (AllArrived(Rounds(y, paces)) <==> AllPass(initial, Prefixes(y.a.queued), r))
            && (MessageQueues.Suffices(initial.queue.limits) ==> AllArrived(Rounds(y, paces)))
  {
    hide Link, D.Half, Rounds, Quiet, AllWorking, Reached, AllPass, AllArrived, Prefixes, Chosen, Short, MessageQueues.Suffices;
    LinkKinds(y, n0, n1);
    HistoryIsQueued(y, n0, n1);
    var m0 := RoundsExactly(y, n0, n1, k, paces);
    ArrivedExactly(Rounds(y, paces), m0, n1);
    var r := n0.b.chan.receivedNum;
    AllAhead(n0);
    ReachedExactly(n0.b.chan.initial, n0.a.hist, r, |paces|);
    if MessageQueues.Suffices(n0.b.chan.initial.queue.limits) {
      ReceptivePasses(n0, r);
    }
  }

  /**
   * After any run of two paired sessions over a hostile network, in which nothing is left to say
   * on channel 1: over a network that loses nothing, and without new events, ticking both at the
   * times they name brings everything queued across in as many rounds as the receiver is behind,
   * if and only if every state on the way passes; limits that suffice let all of them pass.
   */
  lemma QueuedArrives(y: System, steps: seq<Step>, paces: seq<(Pace, Pace)>)
    requires IsStart(y) && Possible(steps) && |steps| < U64_SPAN && Quiet(EndToEnd.Run(y, steps)) && AllWorking(paces)
    requires var z := EndToEnd.Run(y, steps); |paces| >= |z.a.queued| - z.b.session.messages.receivedNum
    ensures var z := EndToEnd.Run(y, steps);
            var initial, r, done := z.b.session.messages.initial, z.b.session.messages.receivedNum, Rounds(z, paces);
            && initial.Messages? && r <= |z.a.queued| && done.a.queued == z.a.queued
            && (AllArrived(done) <==> AllPass(initial, Prefixes(z.a.queued), r))
            && (MessageQueues.Suffices(initial.queue.limits) ==> AllArrived(done))
  {
    hide Link, Act, EndToEnd.Run, IsStart, Rounds, AllPass, AllArrived, Prefixes, Quiet, AllWorking, MessageQueues.Suffices;
    var n0, n1 := StartLinks(y);
    var m0, m1 := RunLinks(y, n0, n1, 0, steps);
    RoundsArrive(EndToEnd.Run(y, steps), m0, m1, |steps|, paces);
  }
}
