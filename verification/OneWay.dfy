/**
 * Two paired sessions of which one has everything to say, on both channels, and the other only
 * acknowledges: over a network that loses nothing, all of it arrives.
 */
module OneWays {
  import opened Bytes
  import opened Channels
  import opened Convergence
  import opened EndToEnd
  import opened Histories
  import Packets
  import opened Protocol
  import RowGrids
  import opened SessionConvergences
  import opened Sessions
  import opened SessionTurns
  import opened SspStates
  import opened Wrappers
  import D = Delivery

  // ---------- a round on one channel ----------

  /** `a` knows what `b` holds. */
  ghost predicate Known(n: D.Net) { n.a.chan.assumed == n.b.chan.receivedNum }

  ghost predicate Drained(n: D.Net) { n.b.chan.received.Messages? ==> n.b.chan.received.queue.messages == [] }

  /** What one round leaves on a channel: `a` knows where `b` is, which moved on if `a` knew before. */
  ghost predicate Progresses(n: D.Net, m: D.Net)
    requires D.Inv(n)
  {
    NumbersOf(n);
    var r := n.b.chan.receivedNum;
    && D.Inv(m) && Known(m)
    && m.a.hist == n.a.hist && m.b.hist == n.b.hist && m.a.chan.initial == n.a.chan.initial && m.b.chan.initial == n.b.chan.initial
    && (m.b.chan.IsPending() ==> n.b.chan.IsPending())
    && m.b.chan.receivedNum == (if Known(n) && Passes(n.b.chan.initial, n.a.hist, r) then Chosen(n.b.chan.initial.Kind(), n.a.hist, r) else r)
  }

  /** `b` reports up to twice, when it has nothing to send. */
  ghost function Reporting(n: D.Net, said1: bool, u1: nat, said2: bool, u2: nat): (n': D.Net)
    requires D.Inv(n)
    ensures D.Inv(n')
  {
    D.Flip(Relaying(Relaying(D.Flip(n), said1, u1), said2, u2))
  }

  lemma ReportLeaves(n: D.Net, said: bool, u: nat)
    requires D.Inv(n)
    ensures var m := Relaying(n, said, u);
            && m.b.chan.assumed == (if said then n.a.chan.receivedNum else n.b.chan.assumed)
            && m.a.hist == n.a.hist && m.b.hist == n.b.hist
            && m.a.chan.initial == n.a.chan.initial && m.b.chan.initial == n.b.chan.initial
            && m.a.chan.receivedNum == n.a.chan.receivedNum && m.a.chan.IsPending() == n.a.chan.IsPending()
  {
    ReportIsHeard(n, u);
    RelayLeaves(n, u);
    hide D.Half, Relay, ChannelState.NextInstruction, ChannelState.Apply;
  }

  lemma ReportingLeaves(n: D.Net, said1: bool, u1: nat, said2: bool, u2: nat)
    requires D.Inv(n)
    ensures var m := Reporting(n, said1, u1, said2, u2);
            && m.a.chan.assumed == (if said1 || said2 then n.b.chan.receivedNum else n.a.chan.assumed)
            && m.a.hist == n.a.hist && m.b.hist == n.b.hist
            && m.a.chan.initial == n.a.chan.initial && m.b.chan.initial == n.b.chan.initial
            && m.b.chan.receivedNum == n.b.chan.receivedNum && m.b.chan.IsPending() == n.b.chan.IsPending()
  {
    ReportLeaves(D.Flip(n), said1, u1);
    ReportLeaves(Relaying(D.Flip(n), said1, u1), said2, u2);
    hide D.Half, Relaying;
  }

  /** What `a`'s sending leaves: where `b` is, and whether it owes an acknowledgement that tells. */
  lemma SayingLeaves(n: D.Net, said: bool, t: nat, i: Packets.Instruction)
    requires D.Inv(n) && Drained(n) && n.a.chan.Typed() && n.a.chan.NextInstruction() == Ok(i)
    requires n.a.chan.IsPending() ==> said
    ensures n.b.chan.receivedNum < |n.a.hist| && Chain(n.b.chan.initial.Kind(), n.a.hist)
    ensures var m, r := Relaying(n, said, t), n.b.chan.receivedNum;
            && m.a.hist == n.a.hist && m.b.hist == n.b.hist
            && m.a.chan.initial == n.a.chan.initial && m.b.chan.initial == n.b.chan.initial
            && m.b.chan.receivedNum == (if Known(n) && Passes(n.b.chan.initial, n.a.hist, r) then Chosen(n.b.chan.initial.Kind(), n.a.hist, r) else r)
            && (Known(m) || (said && Owes(n.b.chan, i)))
            && (m.b.chan.IsPending() ==> n.b.chan.IsPending())
  {
    hide D.Half, Relay, ChannelState.NextInstruction, ChannelState.Apply, Passes, Chosen, ChannelState.Typed, Owes, TakeInOrder;
    NumbersOf(n);
    RelayLeaves(n, t);
    NextMoves(n, i);
    AssumedBelow(n);
    IdleStays(n, i);
    if Known(n) {
      if said {
        AnswerLands(n, t);
      }
      ChosenFromNewest(n.b.chan.initial.Kind(), n.a.hist);
    }
    TakingOwes(n.b.chan, i);
  }

  lemma NextMoves(n: D.Net, i: Packets.Instruction)
    requires D.Inv(n) && n.a.chan.Typed() && n.a.chan.NextInstruction() == Ok(i)
    ensures i.oldNum == n.a.chan.assumed && (n.a.chan.IsPending() ==> i.newNum > i.oldNum)
  {
    NeverWedged(n.a.chan, n.a.hist);
    hide ChannelState.NextInstruction;
  }

  lemma AssumedBelow(n: D.Net)
    requires D.Inv(n)
    ensures n.a.chan.assumed <= n.b.chan.receivedNum <= n.a.chan.currentNum
  {
  }

  /** A channel with nothing to send has nothing to send after hearing. */
  lemma IdleStays(n: D.Net, i: Packets.Instruction)
    requires D.Inv(n)
    ensures n.b.chan.Apply(i).0.IsPending() ==> n.b.chan.IsPending()
    ensures n.b.chan.Apply(i).0.initial == n.b.chan.initial
  {
    HeardKeeps(n.b.chan, n.b.hist, i.ackNum, i.throwawayNum);
    hide ChannelState.Heard, Sends;
  }

  lemma ChosenFromNewest(kind: Kind, hist: History)
    requires Chain(kind, hist)
    ensures Chosen(kind, hist, |hist| - 1) == |hist| - 1
  {
  }

  /** Missing an Instruction that moves on, or taking it, owes an acknowledgement. */
  lemma TakingOwes(c: ChannelState, i: Packets.Instruction)
    ensures i.oldNum != c.receivedNum ==> c.Apply(i).0.receivedNum == c.receivedNum
    ensures i.oldNum != c.receivedNum && i.newNum > i.oldNum ==> Owes(c, i)
    ensures c.Apply(i).0.receivedNum > c.receivedNum ==> Owes(c, i)
  {
    HeardIsLocal(c, i.ackNum, i.throwawayNum);
    hide ChannelState.Heard;
  }

  /** A round on one channel, after `b` drained: `a` says what is pending, and `b` acknowledges what it owes. */
  lemma RoundProgresses(n: D.Net, said: bool, t: nat, i: Packets.Instruction, said1: bool, u1: nat, said2: bool, u2: nat)
    requires D.Inv(n) && Drained(n) && n.a.chan.Typed() && n.a.chan.NextInstruction() == Ok(i)
    requires n.a.chan.IsPending() ==> said
    requires said && Owes(n.b.chan, i) ==> said1 || said2
    ensures Progresses(n, Reporting(Relaying(n, said, t), said1, u1, said2, u2))
  {
    hide D.Inv, Relaying, Reporting, ChannelState.NextInstruction, Passes, Chosen, ChannelState.Typed, Owes, ChannelState.IsPending;
    SayingLeaves(n, said, t, i);
    ReportingLeaves(Relaying(n, said, t), said1, u1, said2, u2);
  }

  lemma DrainProgresses(n: D.Net, m: D.Net)
    requires D.Inv(n)
    ensures var d := TakeInOrder(n, D.AtB(D.Draining));
            && Drained(d) && d.a == n.a && (Progresses(d, m) ==> Progresses(n, m))
            && d.b.hist == n.b.hist && d.b.chan.IsPending() == n.b.chan.IsPending()
  {
    Convergence.DrainLeaves(n);
    hide D.Half, Passes, Chosen;
  }

  // ---------- a round of two sessions ----------

  /** A session that has nothing to send but acknowledgements. */
  ghost predicate Listening(s: SessionState) { !s.messages.IsPending() && !s.screen.IsPending() }

  /** The first moment from `nowMs` on at which everything pending is due. */
  function AllDueMs(s: SessionState, nowMs: nat): nat {
    var t := s.NextSendMs(nowMs);
    var u := if s.MessagesDueAt().Some? then Max(t, s.MessagesDueAt().value) else t;
    if s.ScreenDueAt().Some? then Max(u, s.ScreenDueAt().value) else u
  }

  lemma AllDueSpeaks(s: SessionState, nowMs: nat)
    ensures s.messages.IsPending() ==> Speaks(s, CHANNEL_MESSAGES, AllDueMs(s, nowMs))
    ensures s.screen.IsPending() ==> Speaks(s, CHANNEL_SCREEN, AllDueMs(s, nowMs))
  {
    SpeaksExactly(s, AllDueMs(s, nowMs));
    hide Speaks;
  }

  /** Ticked at the time it names, a listening session acknowledges channel 0 first, then channel 1. */
  lemma ListeningSpeaks(s: SessionState, nowMs: nat)
    requires Listening(s)
    ensures s.ackMessages ==> Speaks(s, CHANNEL_MESSAGES, s.NextSendMs(nowMs)) && !Speaks(s, CHANNEL_SCREEN, s.NextSendMs(nowMs))
    ensures !s.ackMessages && s.ackScreen ==> Speaks(s, CHANNEL_SCREEN, s.NextSendMs(nowMs))
  {
    SpeaksExactly(s, s.NextSendMs(nowMs));
    hide Speaks;
  }

  /** When `a` says what it has, and when `b` acknowledges it. */
  datatype Exchanged = Exchanged(said: Pace, first: Pace, second: Pace)

  ghost predicate AllWork(r: Exchanged) { Working(r.said) && Working(r.first) && Working(r.second) }

  /** `b`'s application takes what arrived; `a` is ticked once everything pending is due; `b` twice, when it names. */
  ghost function OneWayRound(y: System, r: Exchanged): System {
    var drained := Take(y, AtB(Drain));
    var told := Relayed(drained, r.said.(at := AllDueMs(drained.a.session, r.said.at)));
    Flip(RelayedWhenNamed(RelayedWhenNamed(Flip(told), r.first), r.second))
  }

  /** The two acknowledging ticks reach every channel that is owed one. */
  lemma AcksReach(y: System, n0: D.Net, n1: D.Net, k: nat, first: Pace, second: Pace)
    returns (s01: bool, s02: bool, s11: bool, s12: bool, u1: nat, u2: nat)
    requires Link(y, n0, n1) && Short(n0, k) && Short(n1, k) && k < U64_SPAN
    requires Working(first) && Working(second) && Listening(y.a.session)
    ensures D.Inv(n0) && D.Inv(n1)
    ensures var y' := RelayedWhenNamed(RelayedWhenNamed(y, first), second);
            && Link(y', Relaying(Relaying(n0, s01, u1), s02, u2), Relaying(Relaying(n1, s11, u1), s12, u2))
            && y'.a.queued == y.a.queued && y'.b.queued == y.b.queued && y'.a.shown == y.a.shown && y'.b.shown == y.b.shown
    ensures y.a.session.ackMessages ==> s01
    ensures y.a.session.ackScreen ==> s11 || s12
  {
    hide Link, EndLinks, D.Inv, SessionState.NextSendMs, SessionState.Wanted, SessionState.Typed, ChannelState.NextInstruction,
      ChannelState.Typed, Relaying, Relayed, Owes, Short, Knows, Speaks, Listening;
    var s := y.a.session;
    u1 := s.NextSendMs(first.at);
    ListeningSpeaks(s, first.at);
    s01, s11 := Speaks(s, CHANNEL_MESSAGES, u1), Speaks(s, CHANNEL_SCREEN, u1);
    RelayedExactly(y, n0, n1, k, first.(at := u1));
    var y1, m0, m1 := RelayedWhenNamed(y, first), Relaying(n0, s01, u1), Relaying(n1, s11, u1);
    StaysListening(y, n0, n1, y1, s01, s11, u1);
    RelayingStaysShort(n0, s01, u1, k);
    RelayingStaysShort(n1, s11, u1, k);
    var s' := y1.a.session;
    u2 := s'.NextSendMs(second.at);
    ListeningSpeaks(s', second.at);
    s02, s12 := Speaks(s', CHANNEL_MESSAGES, u2), Speaks(s', CHANNEL_SCREEN, u2);
    RelayedExactly(y1, m0, m1, k, second.(at := u2));
  }

  lemma StaysListening(y: System, n0: D.Net, n1: D.Net, y': System, said0: bool, said1: bool, t: nat)
    requires Link(y, n0, n1) && Listening(y.a.session)
    ensures D.Inv(n0) && D.Inv(n1)
    ensures Link(y', Relaying(n0, said0, t), Relaying(n1, said1, t)) ==> Listening(y'.a.session)
  {
    LinkKinds(y, n0, n1);
    ReportLeaves(n0, said0, t);
    ReportLeaves(n1, said1, t);
    if Link(y', Relaying(n0, said0, t), Relaying(n1, said1, t)) {
      LinkKinds(y', Relaying(n0, said0, t), Relaying(n1, said1, t));
    }
    hide Link, D.Inv, Relaying, Knows, ChannelState.Typed, SessionState.Typed;
  }

  lemma RelayingStaysShort(n: D.Net, said: bool, t: nat, k: nat)
    requires D.Inv(n) && Short(n, k)
    ensures Short(Relaying(n, said, t), k)
  {
    ReportLeaves(n, said, t);
    hide D.Inv, Relaying;
  }

  lemma DrainStaysListening(y: System, n0: D.Net, n1: D.Net)
    requires Link(y, n0, n1) && Listening(y.b.session)
    ensures D.Inv(n0) && Drained(TakeInOrder(n0, D.AtB(D.Draining))) && Drained(n1)
    ensures !TakeInOrder(n0, D.AtB(D.Draining)).b.chan.IsPending() && !n1.b.chan.IsPending()
  {
    LinkKinds(y, n0, n1);
    PeerKinds(y, n0, n1);
    DrainProgresses(n0, n0);
    hide Link, D.Inv, TakeInOrder, Progresses, Knows, ChannelState.IsPending;
  }

  /** A round of two sessions is a round on each of their channels. */
  lemma BothProgress(y: System, n0: D.Net, n1: D.Net, k: nat, r: Exchanged) returns (m0: D.Net, m1: D.Net)
    requires Link(y, n0, n1) && Short(n0, k) && Short(n1, k) && k < U64_SPAN && AllWork(r) && Listening(y.b.session)
    ensures D.Inv(n0) && D.Inv(n1) && Progresses(n0, m0) && Progresses(n1, m1)
    ensures var y' := OneWayRound(y, r);
            Link(y', m0, m1) && Listening(y'.b.session) && y'.a.queued == y.a.queued && y'.a.shown == y.a.shown
    ensures Short(m0, k) && Short(m1, k)
  {
    hide Link, EndLinks, D.Inv, SessionState.Typed, ChannelState.NextInstruction, ChannelState.Typed, Relaying, Relayed, Owes,
      Short, Knows, Speaks, Listening, Progresses, Drained, TakeInOrder, AllDueMs, RelayedWhenNamed, Working, Reporting;
    PeerDrains(y, n0, n1);
    DrainStaysListening(y, n0, n1);
    var y1, d0 := Take(y, AtB(Drain)), TakeInOrder(n0, D.AtB(D.Draining));
    LinkKinds(y1, d0, n1);
    PeerKinds(y1, d0, n1);
    DrainStaysShort(n0, k);
    var t := AllDueMs(y1.a.session, r.said.at);
    AllDueSpeaks(y1.a.session, r.said.at);
    var said0, said1 := Speaks(y1.a.session, CHANNEL_MESSAGES, t), Speaks(y1.a.session, CHANNEL_SCREEN, t);
    WorksAnytime(r.said, t);
    RelayedExactly(y1, d0, n1, k, r.said.(at := t));
    var i0, i1 := NextExist(y1, d0, n1, k);
    var y2, e0, e1 := Relayed(y1, r.said.(at := t)), Relaying(d0, said0, t), Relaying(n1, said1, t);
    RelayingStaysShort(d0, said0, t, k);
    RelayingStaysShort(n1, said1, t, k);
    SayingLeaves(d0, said0, t, i0);
    SayingLeaves(n1, said1, t, i1);
    PeerListens(y2, e0, e1);
    FlipKeepsLink(y2, e0, e1);
    FlipStaysShort(e0, k);
    FlipStaysShort(e1, k);
    var s01, s02, s11, s12, u1, u2 := AcksReach(Flip(y2), D.Flip(e0), D.Flip(e1), k, r.first, r.second);
    var z := RelayedWhenNamed(RelayedWhenNamed(Flip(y2), r.first), r.second);
    FlipKeepsLink(z, Relaying(Relaying(D.Flip(e0), s01, u1), s02, u2), Relaying(Relaying(D.Flip(e1), s11, u1), s12, u2));
    m0, m1 := Reporting(e0, s01, u1, s02, u2), Reporting(e1, s11, u1, s12, u2);
    RoundProgresses(d0, said0, t, i0, s01, u1, s02, u2);
    RoundProgresses(n1, said1, t, i1, s11, u1, s12, u2);
    DrainProgresses(n0, m0);
    RoundLeaves(n0, m0, k);
    RoundLeaves(n1, m1, k);
    assert Link(Flip(z), m0, m1) by { ReportingIs(e0, s01, u1, s02, u2); ReportingIs(e1, s11, u1, s12, u2); }
    PeerListens(Flip(z), m0, m1);
  }

  lemma ReportingIs(n: D.Net, said1: bool, u1: nat, said2: bool, u2: nat)
    requires D.Inv(n)
    ensures D.Inv(D.Flip(n)) && Reporting(n, said1, u1, said2, u2) == D.Flip(Relaying(Relaying(D.Flip(n), said1, u1), said2, u2))
  {
    hide D.Half, Relaying;
  }

  lemma WorksAnytime(p: Pace, t: nat)
    requires Working(p)
    ensures Working(p.(at := t))
  {
  }

  lemma DrainStaysShort(n: D.Net, k: nat)
    requires D.Inv(n) && Short(n, k)
    ensures Short(TakeInOrder(n, D.AtB(D.Draining)), k)
  {
    DrainProgresses(n, n);
    hide D.Inv, TakeInOrder, Progresses, Drained;
  }

  lemma FlipStaysShort(n: D.Net, k: nat)
    requires Short(n, k)
    ensures Short(D.Flip(n), k)
  {
  }

  lemma RoundLeaves(n: D.Net, m: D.Net, k: nat)
    requires D.Inv(n) && Progresses(n, m) && Short(n, k)
    ensures Short(m, k) && D.Inv(m)
    ensures m.b.chan.IsPending() ==> n.b.chan.IsPending()
  {
    hide D.Half, Passes, Chosen;
  }

  lemma PeerListens(y: System, n0: D.Net, n1: D.Net)
    requires Link(y, n0, n1) && !n0.b.chan.IsPending() && !n1.b.chan.IsPending()
    ensures Listening(y.b.session)
  {
    PeerKinds(y, n0, n1);
    hide Link;
  }

  // ---------- rounds ----------

  ghost function OneWayRounds(y: System, rounds: seq<Exchanged>): System
    decreases rounds
  {
    if rounds == [] then y else OneWayRounds(OneWayRound(y, rounds[0]), rounds[1..])
  }

  ghost predicate AllRoundsWork(rounds: seq<Exchanged>) { forall r | r in rounds :: AllWork(r) }

  /** Where `count` rounds leave a channel whose sender knows where its receiver is. */
  ghost predicate Reaches(n: D.Net, m: D.Net, count: nat)
    requires D.Inv(n)
  {
    NumbersOf(n);
    && D.Inv(m) && m.a.hist == n.a.hist && m.a.chan.initial == n.a.chan.initial && m.b.chan.initial == n.b.chan.initial
    && m.b.chan.receivedNum == Reached(n.b.chan.initial, n.a.hist, n.b.chan.receivedNum, count)
  }

  lemma ReachesMore(n: D.Net, m: D.Net, l: D.Net, count: nat)
    requires D.Inv(n) && Known(n) && Progresses(n, m) && D.Inv(m) && Reaches(m, l, count)
    ensures Reaches(n, l, count + 1)
  {
    NumbersOf(n);
    ReachedStep(n.b.chan.initial, n.a.hist, n.b.chan.receivedNum, count + 1);
    hide D.Half, Passes, Chosen, Reached;
  }

  lemma ReachesHere(n: D.Net)
    requires D.Inv(n)
    ensures Reaches(n, n, 0)
  {
    NumbersOf(n);
    hide D.Half, Passes, Chosen;
  }

  lemma {:induction false} RoundsReach(y: System, n0: D.Net, n1: D.Net, k: nat, rounds: seq<Exchanged>)
    returns (m0: D.Net, m1: D.Net)
    requires Link(y, n0, n1) && Short(n0, k) && Short(n1, k) && k < U64_SPAN && AllRoundsWork(rounds)
    requires Listening(y.b.session) && Known(n0) && Known(n1)
    ensures D.Inv(n0) && D.Inv(n1) && Reaches(n0, m0, |rounds|) && Reaches(n1, m1, |rounds|)
    ensures var y' := OneWayRounds(y, rounds); Link(y', m0, m1) && y'.a.queued == y.a.queued && y'.a.shown == y.a.shown
    decreases rounds
  {
    hide Link, D.Inv, Listening, OneWayRound, AllWork, Progresses, Reaches, Short, EndLinks, Knows, ChannelState.Typed,
      SessionState.Typed;
    LinkKinds(y, n0, n1);
    if rounds == [] {
      m0, m1 := n0, n1;
      ReachesHere(n0);
      ReachesHere(n1);
    } else {
      assert rounds[0] in rounds;
      var l0, l1 := BothProgress(y, n0, n1, k, rounds[0]);
      ProgressKnows(n0, l0);
      ProgressKnows(n1, l1);
      m0, m1 := RoundsReach(OneWayRound(y, rounds[0]), l0, l1, k, rounds[1..]);
      ReachesMore(n0, l0, m0, |rounds| - 1);
      ReachesMore(n1, l1, m1, |rounds| - 1);
    }
  }

  lemma ProgressKnows(n: D.Net, m: D.Net)
    requires D.Inv(n) && Progresses(n, m)
    ensures Known(m) && D.Inv(m)
    ensures m.a.hist == n.a.hist && m.a.chan.initial == n.a.chan.initial && m.b.chan.initial == n.b.chan.initial
  {
    hide D.Half, Passes, Chosen;
  }

  /** The receiver is at the newest state. */
  ghost predicate Newer(n: D.Net) { n.b.chan.receivedNum == |n.a.hist| - 1 }

  /** A first round, known or not, and then as many as the receiver is behind. */
  lemma ReachesAll(n: D.Net, l: D.Net, m: D.Net, count: nat)
    requires D.Inv(n) && Progresses(n, l) && D.Inv(l) && Reaches(l, m, count) && count >= |n.a.hist| - 1 - n.b.chan.receivedNum
    ensures Newer(m) <==> Passable(n)
  {
    ProgressKnows(n, l);
    NumbersOf(n);
    NumbersOf(l);
    AllAhead(n);
    var initial, hist, r := n.b.chan.initial, n.a.hist, n.b.chan.receivedNum;
    PassesOn(initial, hist, r);
    ReachedExactly(initial, hist, l.b.chan.receivedNum, count);
    hide D.Half, Passes, Chosen, Reached, AllPass;
  }

  lemma PassesOn(initial: SspState, hist: History, r: nat)
    requires Chain(initial.Kind(), hist) && r < |hist|
    requires forall k | 0 <= k < |hist| - 1 :: Chosen(initial.Kind(), hist, k) > k
    ensures Passes(initial, hist, r) ==> (AllPass(initial, hist, Chosen(initial.Kind(), hist, r)) <==> AllPass(initial, hist, r))
  {
    hide Passes, Chosen;
    if r == |hist| - 1 {
      ChosenFromNewest(initial.Kind(), hist);
    }
  }

  /** What both ends' applications see of the two channels when the receiver is at the newest states. */
  lemma NewestSeen(y: System, n0: D.Net, n1: D.Net)
    requires Link(y, n0, n1)
    ensures AllArrived(y) <==> Newer(n0)
    ensures NewestShown(y) <==> Newer(n1)
    ensures NewestShown(y) ==> y.b.session.screen.received == Screen(RowGrids.Grid(Newest(y.a.shown)))
  {
    ArrivedExactly(y, n0, n1);
    LinkIsFaithful(y, n0, n1);
    LinkKinds(y, n0, n1);
    PeerKinds(y, n0, n1);
    hide Link, D.Inv, AllArrived, Knows;
  }

  /** `b` has the newest grid that was put on `a`'s screen. */
  ghost predicate NewestShown(y: System) { y.b.session.screen.receivedNum == |y.a.shown| - 1 }

  lemma RoundsBring(y: System, n0: D.Net, n1: D.Net, k: nat, rounds: seq<Exchanged>)
    requires Link(y, n0, n1) && Short(n0, k) && Short(n1, k) && k < U64_SPAN && AllRoundsWork(rounds)
    requires Listening(y.b.session) && |rounds| > |n0.a.hist| - 1 - n0.b.chan.receivedNum
    requires |rounds| > |n1.a.hist| - 1 - n1.b.chan.receivedNum
    ensures D.Inv(n0) && D.Inv(n1)
    ensures var done := OneWayRounds(y, rounds);
            && done.a.queued == y.a.queued && done.a.shown == y.a.shown
            && (AllArrived(done) <==> Passable(n0)) && (NewestShown(done) <==> Passable(n1))
            && (NewestShown(done) ==> done.b.session.screen.received == Screen(RowGrids.Grid(Newest(y.a.shown))))
  {
    hide Link, D.Inv, Listening, OneWayRound, AllWork, Progresses, Reaches, Short, EndLinks, Knows, ChannelState.Typed,
      SessionState.Typed, AllArrived, NewestShown, Newer, Passable;
    LinkKinds(y, n0, n1);
    NumbersOf(n0);
    NumbersOf(n1);
    assert rounds[0] in rounds;
    var l0, l1 := BothProgress(y, n0, n1, k, rounds[0]);
    ProgressKnows(n0, l0);
    ProgressKnows(n1, l1);
    var m0, m1 := RoundsReach(OneWayRound(y, rounds[0]), l0, l1, k, rounds[1..]);
    ReachesAll(n0, l0, m0, |rounds| - 1);
    ReachesAll(n1, l1, m1, |rounds| - 1);
    NewestSeen(OneWayRounds(y, rounds), m0, m1);
  }

  lemma HistoriesAre(y: System, n0: D.Net, n1: D.Net)
    requires Link(y, n0, n1)
    ensures n0.a.hist == Prefixes(y.a.queued) && n1.a.hist == y.a.shown && Chain(GridKind, y.a.shown)
    ensures n0.b.chan == y.b.session.messages && n1.b.chan == y.b.session.screen
    ensures n0.b.chan.initial.Messages? && n1.b.chan.initial.Screen?
    ensures n0.b.chan.receivedNum <= |y.a.queued| && n1.b.chan.receivedNum < |y.a.shown|
  {
    LinkKinds(y, n0, n1);
    PeerKinds(y, n0, n1);
    HistoryIsQueued(y, n0, n1);
    NumbersOf(n1);
    hide Link, D.Inv, Knows, Prefixes, ChannelState.Typed, SessionState.Typed;
  }

  /** Every state sent on the way to the newest is one `b` takes: of the messages, and of the grids. */
  ghost predicate MessagesPass(y: System) {
    var c := y.b.session.messages;
    c.initial.Messages? && c.receivedNum <= |y.a.queued| && AllPass(c.initial, Prefixes(y.a.queued), c.receivedNum)
  }

  ghost predicate GridsPass(y: System) {
    var c := y.b.session.screen;
    && c.initial.Screen? && Chain(GridKind, y.a.shown) && c.receivedNum < |y.a.shown|
    && AllPass(c.initial, y.a.shown, c.receivedNum)
  }

  /**
   * After any run of two paired sessions over a hostile network, with anything at all pending at
   * one of them and nothing but acknowledgements at the other: over a network that loses nothing,
   * and without new events, rounds in which the one is ticked once all it has is due, and the
   * other twice at the times it names, bring across every message, and the newest grid, each if
   * and only if every state on the way is one the receiver takes.
   */
  lemma BothArrive(y: System, steps: seq<Step>, rounds: seq<Exchanged>)
    requires IsStart(y) && EndToEnd.Possible(steps) && |steps| < U64_SPAN && AllRoundsWork(rounds)
    requires var z := EndToEnd.Run(y, steps);
             && Listening(z.b.session)
             && |rounds| > |z.a.queued| - z.b.session.messages.receivedNum
             && |rounds| > |z.a.shown| - 1 - z.b.session.screen.receivedNum
    ensures var z, done := EndToEnd.Run(y, steps), OneWayRounds(EndToEnd.Run(y, steps), rounds);
            && done.a.queued == z.a.queued && done.a.shown == z.a.shown
            && (AllArrived(done) <==> MessagesPass(z)) && (NewestShown(done) <==> GridsPass(z))
            && (NewestShown(done) ==> done.b.session.screen.received == Screen(RowGrids.Grid(Newest(z.a.shown))))
  {
    hide Link, D.Inv, Act, EndToEnd.Run, IsStart, OneWayRounds, AllPass, AllArrived, NewestShown, Prefixes, Listening, AllRoundsWork;
    var n0, n1 := StartLinks(y);
    var m0, m1 := RunLinks(y, n0, n1, 0, steps);
    var z := EndToEnd.Run(y, steps);
    HistoriesAre(z, m0, m1);
    assert |Prefixes(z.a.queued)| == |z.a.queued| + 1;
    RoundsBring(z, m0, m1, |steps|, rounds);
  }
}
