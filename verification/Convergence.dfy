/** A loss-free exchange always brings the receiver closer, and enough of them bring it all the way. */
module Convergence {
  import opened Protocol
  import Packets
  import MessageQueues
  import RowGrids
  import opened SspStates
  import opened Channels
  import opened Histories
  import opened Delivery

  /** How many states the receiver is behind. */
  ghost function Gap(n: Net): nat
    requires Inv(n)
  {
    n.a.chan.currentNum - n.b.chan.receivedNum
  }

  /** How far a sender that knows `m` is held can walk before a diff is too large. */
  ghost function Stop(kind: Kind, hist: History, m: nat, k: nat): (n: nat)
    requires Chain(kind, hist) && m + k < |hist|
    ensures m + k <= n < |hist|
    decreases |hist| - k
  {
    if m + k + 1 < |hist| && |Between(kind, hist, m, m + k + 1)| <= MAX_DIFF_LEN then Stop(kind, hist, m, k + 1) else m + k
  }

  /** The state that is sent next to a receiver that holds `m`: it depends on the history alone. */
  ghost function Chosen(kind: Kind, hist: History, m: nat): (n: nat)
    requires Chain(kind, hist) && m < |hist|
    ensures m <= n < |hist|
  {
    if |Between(kind, hist, m, |hist| - 1)| <= MAX_DIFF_LEN then |hist| - 1 else Stop(kind, hist, m, 0)
  }

  lemma {:induction false} ReachIsStop(c: ChannelState, hist: History, k: nat)
    requires Sends(c, hist) && k < |c.sent|
    ensures c.assumed + c.Reach(k) == Stop(c.initial.Kind(), hist, c.assumed, k)
    decreases |c.sent| - k
  {
    if k + 1 < |c.sent| {
      StepDiffMeans(c, hist, k + 1);
      ReachIsStop(c, hist, k + 1);
    }
    hide ChannelState.StepDiff, RetainedAt, Between;
  }

  lemma NextIsChosen(c: ChannelState, hist: History)
    requires Sends(c, hist)
    ensures c.NextInstruction().Ok?
    ensures c.NextInstruction().value.newNum == Chosen(c.initial.Kind(), hist, c.assumed)
    ensures c.IsPending() ==> Chosen(c.initial.Kind(), hist, c.assumed) > c.assumed
  {
    NeverWedged(c, hist);
    FullDiffMeans(c, hist);
    c.InstructionNumber();
    ReachIsStop(c, hist, 0);
    assert RetainedAt(c, hist, c.Reach(0));
    hide ChannelState.NextInstruction, ChannelState.Reach, Stop, Between;
  }

  /**
   * What a drained receiver made from `initial` takes on: a queue's limits have to leave room
   * for the messages that are new, and a grid may not have more rows than the decoder allows.
   */
  ghost predicate Takes(initial: SspState, prev: View, next: View)
    requires Extends(initial.Kind(), prev, next)
  {
    match initial
    case Messages(q) => |next| - |prev| <= q.limits.maxMessages && MessageQueues.Total(next[|prev|..]) <= q.limits.maxBytes
    case Screen(_) => |next| <= RowGrids.MAX_GRID_ROWS
  }

  /** The next state sent to a drained receiver that holds `m` is one it takes. */
  ghost predicate Passes(initial: SspState, hist: History, m: nat)
    requires Chain(initial.Kind(), hist) && m < |hist|
  {
    var k := Chosen(initial.Kind(), hist, m);
    ChainExtends(initial.Kind(), hist, m, k);
    Takes(initial, hist[m], hist[k])
  }

  /** Where a receiver that holds `m` gets in `count` exchanges. */
  ghost function Reached(initial: SspState, hist: History, m: nat, count: nat): (k: nat)
    requires Chain(initial.Kind(), hist) && m < |hist|
    ensures m <= k < |hist|
    decreases count
  {
    if count == 0 || !Passes(initial, hist, m) then m
    else Reached(initial, hist, Chosen(initial.Kind(), hist, m), count - 1)
  }

  /** Every state on the way from the one held to the newest is one the receiver takes. */
  ghost predicate Passable(n: Net)
    requires Inv(n)
  {
    AllPass(n.b.chan.initial, n.a.hist, n.b.chan.receivedNum)
  }

  ghost predicate AllPass(initial: SspState, hist: History, m: nat)
    requires Chain(initial.Kind(), hist) && m < |hist|
    decreases |hist| - m
  {
    || m == |hist| - 1
    || (&& Passes(initial, hist, m)
        && Chosen(initial.Kind(), hist, m) > m
        && AllPass(initial, hist, Chosen(initial.Kind(), hist, m)))
  }

  /** Bounds under which every state passes: exact for a queue, and met by its default limits. */
  ghost predicate Receptive(n: Net)
    requires Inv(n)
  {
    if n.a.chan.initial.Messages? then MessageQueues.Suffices(n.b.chan.initial.queue.limits)
    else forall k | n.b.chan.receivedNum < k < |n.a.hist| :: |n.a.hist[k]| <= RowGrids.MAX_GRID_ROWS
  }

  lemma DefaultsAreReceptive(n: Net)
    requires Inv(n) && n.a.chan.initial.Messages? && n.b.chan.initial == Messages(MessageQueues.EmptyQueue(MessageQueues.DEFAULT_LIMITS))
    ensures Receptive(n)
  {
  }

  ghost function TakeInOrder(n: Net, step: Step): (n': Net)
    requires Inv(n) && !step.action.Offering?
    ensures Inv(n')
  {
    TakeKeeps(n, step);
    Take(n, step)
  }

  /** `a` sends, and the Instruction it builds reaches `b`. */
  ghost function Relay(n: Net, t: nat): (n': Net)
    requires Inv(n)
    ensures Inv(n')
  {
    NeverWedged(n.a.chan, n.a.hist);
    TakeInOrder(TakeInOrder(n, AtA(Sending(t))), AtB(Receiving(n.a.chan.NextInstruction().value)))
  }

  /** One loss-free exchange: the receiver drains and reports at `t`, the sender answers at `u`. */
  ghost function Exchange(n: Net, t: nat, u: nat): (n': Net)
    requires Inv(n)
    ensures Inv(n')
  {
    Relay(Flip(Relay(Flip(TakeInOrder(n, AtB(Draining))), t)), u)
  }

  ghost function Exchanges(n: Net, count: nat, t: nat): (n': Net)
    requires Inv(n)
    ensures Inv(n')
    decreases count
  {
    if count == 0 then n else Exchanges(Exchange(n, t, t), count - 1, t)
  }

  /** What a relay leaves behind, in terms of the two channels alone. */
  lemma RelayLeaves(n: Net, t: nat)
    requires Inv(n)
    ensures n.a.chan.NextInstruction().Ok?
    ensures var i := n.a.chan.NextInstruction().value;
            && var sent := TakeInOrder(n, AtA(Sending(t)));
            && i in sent.toB
            && sent.b == n.b && sent.a.hist == n.a.hist
            && sent.a.chan == n.a.chan.NoteSent(i, t)
            && Relay(n, t).a == sent.a
            && Relay(n, t).b == n.b.(chan := n.b.chan.Apply(i).0)
  {
    hide Half;
    assert Half(n);
    NeverWedgedIn(n);
  }

  lemma NeverWedgedIn(n: Net)
    requires Half(n)
    ensures n.a.chan.Typed() && n.a.chan.NextInstruction().Ok?
  {
    NeverWedged(n.a.chan, n.a.hist);
  }

  /** Relayed to its peer, an endpoint's report makes the peer assume exactly what is held. */
  lemma ReportIsHeard(n: Net, t: nat)
    requires Inv(n)
    ensures var m := Relay(n, t);
            && m.b.chan.assumed == n.a.chan.receivedNum
            && m.b.chan.currentNum == n.b.chan.currentNum && m.b.chan.initial == n.b.chan.initial && m.b.hist == n.b.hist
            && m.a.chan.received == n.a.chan.received && m.a.chan.receivedNum == n.a.chan.receivedNum
            && m.a.chan.initial == n.a.chan.initial && m.a.delivered == n.a.delivered
  {
    RelayLeaves(n, t);
    var i := n.a.chan.NextInstruction().value;
    NeverWedged(n.a.chan, n.a.hist);
    hide n.a.chan.NextInstruction;
    HeardKeeps(n.b.chan, n.b.hist, i.ackNum, i.throwawayNum);
  }

  /** A drained receiver takes what a sender that knows its state sends, exactly when it passes. */
  lemma AnswerLands(n: Net, t: nat)
    requires Inv(n) && n.a.chan.assumed == n.b.chan.receivedNum
    requires n.b.chan.received.Messages? ==> n.b.chan.received.queue.messages == []
    ensures var m := Relay(n, t);
            var k := Chosen(n.a.chan.initial.Kind(), n.a.hist, n.b.chan.receivedNum);
            && m.b.chan.receivedNum
               == (if Passes(n.b.chan.initial, n.a.hist, n.b.chan.receivedNum) then k else n.b.chan.receivedNum)
            && m.a.chan.currentNum == n.a.chan.currentNum && m.a.hist == n.a.hist
            && m.a.chan.initial == n.a.chan.initial && m.b.chan.initial == n.b.chan.initial
  {
    RelayLeaves(n, t);
    var i := n.a.chan.NextInstruction().value;
    var sent := TakeInOrder(n, AtA(Sending(t)));
    NextStartsAtAssumed(n);
    RoomIsPassing(sent, i);
    HeldMoves(sent, i);
    HeardIsLocal(n.b.chan, i.ackNum, i.throwawayNum);
    hide ChannelState.NextInstruction, Chosen, Passes, Relay, TakeInOrder, ChannelState.Heard;
  }

  lemma NextStartsAtAssumed(n: Net)
    requires Half(n)
    ensures n.a.chan.NextInstruction().Ok?
    ensures var i := n.a.chan.NextInstruction().value;
            i.oldNum == n.a.chan.assumed && i.newNum == Chosen(n.a.chan.initial.Kind(), n.a.hist, n.a.chan.assumed)
  {
    NeverWedged(n.a.chan, n.a.hist);
    NextIsChosen(n.a.chan, n.a.hist);
  }

  lemma RoomIsPassing(n: Net, i: Packets.Instruction)
    requires Inv(n) && i in n.toB && i.oldNum == n.b.chan.receivedNum
    requires i.newNum == Chosen(n.a.chan.initial.Kind(), n.a.hist, n.b.chan.receivedNum)
    requires n.b.chan.received.Messages? ==> n.b.chan.received.queue.messages == []
    ensures CanTake(n, i) <==> Passes(n.b.chan.initial, n.a.hist, n.b.chan.receivedNum)
  {
    assert Genuine(n, i);
    ChainExtends(n.a.chan.initial.Kind(), n.a.hist, i.oldNum, i.newNum);
    hide Chosen;
  }

  lemma DrainLeaves(n: Net)
    requires Inv(n)
    ensures var d := TakeInOrder(n, AtB(Draining));
            && d.a == n.a && d.b.hist == n.b.hist
            && d.b.chan.receivedNum == n.b.chan.receivedNum && d.b.chan.initial == n.b.chan.initial
            && (d.b.chan.received.Messages? ==> d.b.chan.received.queue.messages == [])
  {
  }

  /**
   * From any reachable state, one loss-free exchange takes the receiver to the next state the
   * sender has for it exactly when that state passes, and leaves it where it is otherwise.
   */
  lemma ExchangeExactly(n: Net, t: nat, u: nat)
    requires Inv(n)
    ensures var m := Exchange(n, t, u);
            var r, k := n.b.chan.receivedNum, Chosen(n.a.chan.initial.Kind(), n.a.hist, n.b.chan.receivedNum);
            && m.b.chan.receivedNum == (if Passes(n.b.chan.initial, n.a.hist, r) then k else r)
            && m.a.chan.currentNum == n.a.chan.currentNum && m.a.hist == n.a.hist
            && m.a.chan.initial == n.a.chan.initial && m.b.chan.initial == n.b.chan.initial
            && (Gap(n) > 0 ==> k > r)
  {
    var drained := TakeInOrder(n, AtB(Draining));
    DrainLeaves(n);
    ReportIsHeard(Flip(drained), t);
    var heard := Flip(Relay(Flip(drained), t));
    AnswerLands(heard, u);
    NextIsChosen(heard.a.chan, heard.a.hist);
    hide Half, Relay, TakeInOrder, Chosen, Passes, ChannelState.NextInstruction;
  }

  /**
   * An exchange brings a receiver that is behind strictly closer if and only if the state it is
   * sent passes, and all the way when moreover the whole difference fits one datagram.
   */
  lemma ExchangeConverges(n: Net, t: nat, u: nat)
    requires Inv(n)
    ensures n.b.chan.receivedNum <= n.a.chan.currentNum < |n.a.hist|
    ensures Gap(n) > 0 ==>
              (Gap(Exchange(n, t, u)) < Gap(n) <==> Passes(n.b.chan.initial, n.a.hist, n.b.chan.receivedNum))
    ensures Gap(n) == 0 ==> Gap(Exchange(n, t, u)) == 0
    ensures (&& |Between(n.a.chan.initial.Kind(), n.a.hist, n.b.chan.receivedNum, n.a.chan.currentNum)| <= MAX_DIFF_LEN
             && Passes(n.b.chan.initial, n.a.hist, n.b.chan.receivedNum))
            ==> Gap(Exchange(n, t, u)) == 0
  {
    hide Half, Exchange, Passes, Chosen, Between;
    ExchangeExactly(n, t, u);
    NumbersOf(n);
    NumbersOf(Exchange(n, t, u));
    FullIsChosen(n.a.chan.initial.Kind(), n.a.hist, n.b.chan.receivedNum);
  }

  lemma FullIsChosen(kind: Kind, hist: History, m: nat)
    requires Chain(kind, hist) && m < |hist|
    ensures |Between(kind, hist, m, |hist| - 1)| <= MAX_DIFF_LEN ==> Chosen(kind, hist, m) == |hist| - 1
  {
    hide Between;
  }

  lemma NumbersOf(n: Net)
    requires Inv(n)
    ensures n.a.chan.currentNum == |n.a.hist| - 1 && n.b.chan.receivedNum < |n.a.hist|
    ensures n.a.chan.initial.Kind() == n.b.chan.initial.Kind() && Chain(n.b.chan.initial.Kind(), n.a.hist)
  {
  }

  /** Where any number of exchanges leaves the receiver, whatever passes and whatever does not. */
  lemma {:induction false} ExchangesExactly(n: Net, count: nat, t: nat)
    requires Inv(n)
    ensures var m := Exchanges(n, count, t);
            && m.a.hist == n.a.hist && m.a.chan.currentNum == n.a.chan.currentNum
            && m.a.chan.initial == n.a.chan.initial && m.b.chan.initial == n.b.chan.initial
            && m.b.chan.receivedNum == Reached(n.b.chan.initial, n.a.hist, n.b.chan.receivedNum, count)
    decreases count
  {
    hide Exchange, Passes, Chosen, Half, Reached, Gap;
    HalfIsChained(n);
    ReachedStep(n.b.chan.initial, n.a.hist, n.b.chan.receivedNum, count);
    if count > 0 {
      ExchangeExactly(n, t, t);
      ExchangesExactly(Exchange(n, t, t), count - 1, t);
    }
  }

  lemma HalfIsChained(n: Net)
    requires Half(n)
    ensures Chain(n.a.chan.initial.Kind(), n.a.hist) && n.b.chan.receivedNum < |n.a.hist|
    ensures n.a.chan.initial.Kind() == n.b.chan.initial.Kind()
  {
  }

  lemma ReachedStep(initial: SspState, hist: History, m: nat, count: nat)
    requires Chain(initial.Kind(), hist) && m < |hist|
    ensures Reached(initial, hist, m, count)
         == if count == 0 then m
            else Reached(initial, hist, if Passes(initial, hist, m) then Chosen(initial.Kind(), hist, m) else m, count - 1)
  {
    hide Passes, Chosen;
  }

  lemma {:induction false} ReachedExactly(initial: SspState, hist: History, m: nat, count: nat)
    requires Chain(initial.Kind(), hist) && m < |hist| && count >= |hist| - 1 - m
    requires forall k | m <= k < |hist| - 1 :: Chosen(initial.Kind(), hist, k) > k
    ensures Reached(initial, hist, m, count) == |hist| - 1 <==> AllPass(initial, hist, m)
    decreases count
  {
    if m < |hist| - 1 && Passes(initial, hist, m) {
      ReachedExactly(initial, hist, Chosen(initial.Kind(), hist, m), count - 1);
    }
    hide Chosen, Passes;
  }

  lemma AlwaysAhead(c: ChannelState, hist: History, k: nat)
    requires Sends(c, hist) && k < |hist| - 1
    ensures Chosen(c.initial.Kind(), hist, k) > k
  {
    assert StepFits(c.initial.Kind(), hist, k);
    hide Between;
  }

  lemma AllAhead(n: Net)
    requires Half(n)
    ensures Chain(n.b.chan.initial.Kind(), n.a.hist)
    ensures forall k | 0 <= k < |n.a.hist| - 1 :: Chosen(n.b.chan.initial.Kind(), n.a.hist, k) > k
  {
    HalfIsChained(n);
    forall k | 0 <= k < |n.a.hist| - 1
      ensures Chosen(n.b.chan.initial.Kind(), n.a.hist, k) > k
    {
      AlwaysAhead(n.a.chan, n.a.hist, k);
    }
    hide Chosen;
  }

  /**
   * From any reachable state, as many exchanges as the receiver is behind bring it level if and
   * only if every state on the way passes; and then it has every accepted message, or the
   * newest grid.
   */
  lemma ConvergesExactly(n: Net, count: nat, t: nat)
    requires Inv(n) && count >= Gap(n)
    ensures var m := Exchanges(n, count, t);
            && (Gap(m) == 0 <==> Passable(n))
            && (Gap(m) == 0 ==> Level(n, m))
  {
    hide Half, Reached, AllPass, Chosen, Level, Exchanges;
    NumbersOf(n);
    ExchangesExactly(n, count, t);
    AllAhead(n);
    ReachedExactly(n.b.chan.initial, n.a.hist, n.b.chan.receivedNum, count);
    var m := Exchanges(n, count, t);
    NumbersOf(m);
    if Gap(m) == 0 {
      AllDelivered(n, m);
    }
  }

  /** `m`'s receiver has everything that `n`'s sender has made. */
  ghost predicate Level(n: Net, m: Net) {
    if n.a.chan.initial.Messages?
    then m.b.chan.received.Messages? && m.b.delivered + m.b.chan.received.queue.messages == Newest(n.a.hist)
    else m.b.chan.received == Screen(RowGrids.Grid(Newest(n.a.hist)))
  }

  lemma {:induction false} ReceptivePasses(n: Net, m: nat)
    requires Inv(n) && Receptive(n) && n.b.chan.receivedNum <= m < |n.a.hist|
    ensures AllPass(n.b.chan.initial, n.a.hist, m)
    decreases |n.a.hist| - m
  {
    if m < |n.a.hist| - 1 {
      AheadAndPasses(n, m);
      ReceptivePasses(n, Chosen(n.a.chan.initial.Kind(), n.a.hist, m));
      hide Passes, Chosen, Receptive;
    }
  }

  lemma AheadAndPasses(n: Net, m: nat)
    requires Inv(n) && Receptive(n) && n.b.chan.receivedNum <= m < |n.a.hist| - 1
    ensures Chosen(n.a.chan.initial.Kind(), n.a.hist, m) > m
    ensures Passes(n.b.chan.initial, n.a.hist, m)
  {
    var kind := n.a.chan.initial.Kind();
    AlwaysAhead(n.a.chan, n.a.hist, m);
    var k := Chosen(kind, n.a.hist, m);
    ChainExtends(kind, n.a.hist, m, k);
    if kind == QueueKind {
      ChosenFits(n.a.chan, n.a.hist, m);
      MessageQueues.SmallDiffFramable(n.a.hist[k][m..]);
    }
    hide Chosen, Stop;
  }

  lemma {:induction false} StopFits(kind: Kind, hist: History, m: nat, k: nat)
    requires Chain(kind, hist) && m + k < |hist| && |Between(kind, hist, m, m + k)| <= MAX_DIFF_LEN
    ensures |Between(kind, hist, m, Stop(kind, hist, m, k))| <= MAX_DIFF_LEN
    decreases |hist| - k
  {
    hide Between;
    if m + k + 1 < |hist| && |Between(kind, hist, m, m + k + 1)| <= MAX_DIFF_LEN {
      StopFits(kind, hist, m, k + 1);
    }
  }

  lemma ChosenFits(c: ChannelState, hist: History, m: nat)
    requires Sends(c, hist) && m < |hist|
    ensures |Between(c.initial.Kind(), hist, m, Chosen(c.initial.Kind(), hist, m))| <= MAX_DIFF_LEN
  {
    NothingPendingFits(c.initial.Kind(), hist, m);
    StopFits(c.initial.Kind(), hist, m, 0);
    hide Between, Stop;
  }

  /** Under bounds that let everything pass, enough exchanges deliver everything. */
  lemma Converges(n: Net, count: nat, t: nat)
    requires Inv(n) && Receptive(n) && count >= Gap(n)
    ensures Gap(Exchanges(n, count, t)) == 0 && Level(n, Exchanges(n, count, t))
  {
    ReceptivePasses(n, n.b.chan.receivedNum);
    ConvergesExactly(n, count, t);
    hide Half, Receptive;
  }

  lemma AllDelivered(n: Net, m: Net)
    requires Inv(n) && Inv(m) && m.a.hist == n.a.hist && m.a.chan.initial == n.a.chan.initial
    requires m.a.chan.currentNum == m.b.chan.receivedNum
    ensures Level(n, m)
  {
    if n.a.chan.initial.Messages? {
      DeliveredPrefix(m);
      assert Linked(QueueKind, m.a.hist, |m.a.hist| - 1);
    }
  }
}
