/**
 * Two endpoints of one channel over a network that loses, repeats and reorders.
 *
 * The network is a set of Instructions in flight. Receiving one leaves it in flight, so
 * it can be delivered again, at any later time and in any order; losing one removes it.
 */
module Delivery {
  import opened Bytes
  import opened Protocol
  import opened Packets
  import RowGrids
  import opened SspStates
  import opened Channels
  import opened Histories

  /** A channel with its ghosts: the states it ever made, and the messages its application drained. */
  datatype Endpoint = Endpoint(chan: ChannelState, hist: History, delivered: seq<Bytes>)

  datatype Net = Net(a: Endpoint, b: Endpoint, toA: set<Instruction>, toB: set<Instruction>)

  datatype Action =
    | Offering(change: Change)
    | Sending(nowMs: nat)
    | Receiving(i: Instruction)
    | Losing(i: Instruction)
    | Draining

  datatype Step = AtA(action: Action) | AtB(action: Action)

  function Flip(n: Net): Net { Net(n.b, n.a, n.toB, n.toA) }

  /** Endpoint `a` takes one action. */
  ghost function Act(n: Net, action: Action): Net
    requires n.a.chan.Typed() && Suits(n.a.chan.initial.Kind(), action)
  {
    var c := n.a.chan;
    match action
    case Offering(change) =>
      (match Offer(c, change)
       case Ok(c') => n.(a := n.a.(chan := c', hist := n.a.hist + [ViewAfter(change, Newest(n.a.hist))]))
       case Err(_) => n)
    case Sending(nowMs) =>
      (match c.NextInstruction()
       case Ok(i) => n.(a := n.a.(chan := c.NoteSent(i, nowMs)), toB := n.toB + {i})
       case Err(_) => n)
    case Receiving(i) =>
      if i in n.toA then n.(a := n.a.(chan := c.Apply(i).0)) else n
    case Losing(i) => n.(toA := n.toA - {i})
    case Draining =>
      if c.received.Messages? then
        n.(a := n.a.(chan := c.(received := Messages(c.received.queue.Drain())),
                     delivered := n.a.delivered + c.received.queue.messages))
      else n
  }

  /** A change has the channel's type, and a grid's row count fits the wire's 32-bit field. */
  ghost predicate Suits(kind: Kind, action: Action) {
    action.Offering? ==> action.change.Kind() == kind && WireSized(action.change)
  }

  // ---------- the invariant ----------

  /** Two well formed channels of one kind. */
  ghost predicate Formed(n: Net) {
    n.a.chan.Typed() && n.b.chan.Typed() && n.a.chan.initial.Kind() == n.b.chan.initial.Kind()
  }

  /** An Instruction in flight to `b`: built by `a`, at or behind what `b` now holds. */
  ghost predicate Genuine(n: Net, i: Instruction) {
    && i.channel == n.a.chan.id
    && Carries(i, n.a.chan.initial.Kind(), n.a.hist)
    && i.oldNum <= n.b.chan.receivedNum
  }

  /** A report in flight to `a`: it acknowledges nothing that `b` has not received. */
  ghost predicate Honest(n: Net, i: Instruction) {
    i.ackNum == i.throwawayNum <= n.b.chan.receivedNum
  }

  /** `b` holds one of the states `a` made, and what it drained is the part it no longer holds. */
  ghost predicate Held(n: Net) {
    var r := n.b.chan.received;
    && r.Kind() == n.a.chan.initial.Kind() == n.b.chan.initial.Kind()
    && (r.Messages? ==> r.queue.limits == n.b.chan.initial.queue.limits)
    && n.a.chan.assumed <= n.b.chan.receivedNum < |n.a.hist|
    && Shows(r, n.a.hist[n.b.chan.receivedNum])
    && r.Base() <= |n.a.hist[n.b.chan.receivedNum]|
    && n.b.delivered == n.a.hist[n.b.chan.receivedNum][..r.Base()]
  }

  /** The direction from `a` to `b`: what is sent one way, and what is reported the other. */
  ghost predicate Half(n: Net) {
    && n.a.chan.id == n.b.chan.id
    && Sends(n.a.chan, n.a.hist)
    && (n.a.chan.current.Messages? ==> n.a.chan.current.Base() == n.a.chan.assumed)
    && Held(n)
    && (forall i | i in n.toB :: Genuine(n, i))
    && (forall i | i in n.toA :: Honest(n, i))
  }

  ghost predicate Inv(n: Net) { Formed(n) && Half(n) && Half(Flip(n)) }

  // ---------- every action keeps it, one direction at a time ----------

  lemma CarriesGrows(i: Instruction, kind: Kind, hist: History, hist': History)
    requires Carries(i, kind, hist) && Chain(kind, hist') && |hist| <= |hist'| && hist'[..|hist|] == hist
    ensures Carries(i, kind, hist')
  {
    assert hist'[i.oldNum] == hist'[..|hist|][i.oldNum];
    assert hist'[i.newNum] == hist'[..|hist|][i.newNum];
  }

  lemma OfferKeeps(n: Net, change: Change)
    requires Formed(n) && Half(n) && Suits(n.a.chan.initial.Kind(), Offering(change))
    ensures Half(Act(n, Offering(change)))
  {
    var n' := Act(n, Offering(change));
    if Offer(n.a.chan, change).Ok? {
      OfferExtends(n.a.chan, n.a.hist, change);
      assert n'.a.hist[..|n.a.hist|] == n.a.hist;
      assert n'.a.hist[n.b.chan.receivedNum] == n.a.hist[n.b.chan.receivedNum];
      forall i | i in n'.toB
        ensures Genuine(n', i)
      {
        assert Genuine(n, i);
        CarriesGrows(i, n.a.chan.initial.Kind(), n.a.hist, n'.a.hist);
      }
      forall i | i in n'.toA
        ensures Honest(n', i)
      {
        assert Honest(n, i);
      }
    }
  }

  lemma SendKeeps(n: Net, nowMs: nat)
    requires Formed(n) && Half(n)
    ensures Half(Act(n, Sending(nowMs)))
  {
    var n' := Act(n, Sending(nowMs));
    NeverWedged(n.a.chan, n.a.hist);
    NoteSentKeeps(n.a.chan, n.a.hist, n.a.chan.NextInstruction().value, nowMs);
    forall i | i in n'.toB
      ensures Genuine(n', i)
    {
      if i in n.toB {
        assert Genuine(n, i);
      }
    }
    forall i | i in n'.toA
      ensures Honest(n', i)
    {
      assert Honest(n, i);
    }
  }

  lemma NoteSentKeeps(c: ChannelState, hist: History, i: Instruction, nowMs: nat)
    requires Sends(c, hist)
    ensures Sends(c.NoteSent(i, nowMs), hist)
  {
    var c' := c.NoteSent(i, nowMs);
    forall k | 0 <= k < |c'.sent|
      ensures RetainedAt(c', hist, k)
    {
      assert RetainedAt(c, hist, k);
    }
  }

  /** Only the receiving fields differ, so the sending half is unmoved. */
  lemma ReceivingKeepsSends(c: ChannelState, hist: History, received: SspState, num: nat)
    requires Sends(c, hist) && received.Kind() == c.initial.Kind()
    ensures Sends(c.(received := received, receivedNum := num), hist)
  {
    var c' := c.(received := received, receivedNum := num);
    forall k | 0 <= k < |c'.sent|
      ensures RetainedAt(c', hist, k)
    {
      assert RetainedAt(c, hist, k);
    }
  }

  /** Taking in anything a conforming peer sends keeps the sending half in order. */
  lemma ChannelAppliesInOrder(c: ChannelState, hist: History, i: Instruction)
    requires Sends(c, hist) && (c.current.Messages? ==> c.current.Base() == c.assumed) && i.throwawayNum == i.ackNum
    ensures var c' := c.Apply(i).0;
            Sends(c', hist) && c'.id == c.id && (c'.current.Messages? ==> c'.current.Base() == c'.assumed)
  {
    HeardKeeps(c, hist, i.ackNum, i.throwawayNum);
    var heard := c.Heard(i.ackNum, i.throwawayNum);
    if i.oldNum == c.receivedNum && c.received.ApplyDiff(i.diff).Ok? {
      ReceivingKeepsSends(heard, hist, c.received.ApplyDiff(i.diff).value, i.newNum);
    }
  }

  /** A genuine diff that starts at the held state moves it to the state it was made for. */
  lemma HeldMoves(n: Net, i: Instruction)
    requires Half(n) && i in n.toB && i.oldNum == n.b.chan.receivedNum
    ensures var r := n.b.chan.received.ApplyDiff(i.diff);
            && (r.Ok? <==> CanTake(n, i))
            && (r.Ok? ==> Held(n.(b := n.b.(chan := n.b.chan.(received := r.value, receivedNum := i.newNum)))))
  {
    assert Genuine(n, i);
    var kind := n.a.chan.initial.Kind();
    ChainExtends(kind, n.a.hist, i.oldNum, i.newNum);
    ChainExtends(kind, n.a.hist, i.newNum, i.newNum);
    ApplyShows(n.b.chan.received, n.a.hist[i.oldNum], n.a.hist[i.newNum]);
  }

  /** `b` has room for what `i` brings. */
  ghost predicate CanTake(n: Net, i: Instruction)
    requires Half(n) && i in n.toB && i.oldNum == n.b.chan.receivedNum
  {
    assert Genuine(n, i);
    ChainExtends(n.a.chan.initial.Kind(), n.a.hist, i.oldNum, i.newNum);
    CanHold(n.b.chan.received, n.a.hist[i.oldNum], n.a.hist[i.newNum])
  }

  /** A report is heard, whatever else comes with it. */
  lemma ReportKeeps(n: Net, i: Instruction)
    requires Formed(n) && Half(n) && i in n.toA
    ensures Half(Act(n, Receiving(i)))
  {
    var c, n' := n.a.chan, Act(n, Receiving(i));
    assert Honest(n, i);
    HeardKeeps(c, n.a.hist, i.ackNum, i.throwawayNum);
    var heard := c.Heard(i.ackNum, i.throwawayNum);
    if i.oldNum == c.receivedNum && c.received.ApplyDiff(i.diff).Ok? {
      ReceivingKeepsSends(heard, n.a.hist, c.received.ApplyDiff(i.diff).value, i.newNum);
    }
    assert Held(n');
    SameSender(n, n');
  }

  /** Nothing of `a` that `b` or the network depends on has changed. */
  lemma SameSender(n: Net, m: Net)
    requires Half(n) && m.b == n.b && m.toB <= n.toB && m.toA <= n.toA
    requires m.a.hist == n.a.hist && m.a.chan.id == n.a.chan.id && m.a.chan.initial == n.a.chan.initial
    requires Sends(m.a.chan, m.a.hist) && (m.a.chan.current.Messages? ==> m.a.chan.current.Base() == m.a.chan.assumed)
    requires m.a.chan.assumed <= m.b.chan.receivedNum
    ensures Half(m)
  {
    forall j | j in m.toB
      ensures Genuine(m, j)
    {
      assert Genuine(n, j);
    }
    forall j | j in m.toA
      ensures Honest(m, j)
    {
      assert Honest(n, j);
    }
    hide Sends, Shows;
  }

  lemma DrainKeepsSender(n: Net)
    requires Formed(n) && Half(n)
    ensures Half(Act(n, Draining))
  {
    var c, n' := n.a.chan, Act(n, Draining);
    if c.received.Messages? {
      ReceivingKeepsSends(c, n.a.hist, Messages(c.received.queue.Drain()), c.receivedNum);
      SameSender(n, n');
    }
  }

  /** Every action of the sender keeps its direction, whatever the other direction is like. */
  lemma SenderActs(n: Net, action: Action)
    requires Formed(n) && Half(n) && Suits(n.a.chan.initial.Kind(), action)
    ensures Half(Act(n, action))
  {
    match action
    case Offering(change) => OfferKeeps(n, change); hide Half;
    case Sending(nowMs) => SendKeeps(n, nowMs); hide Half;
    case Receiving(i) => if i in n.toA { ReportKeeps(n, i); } hide Half;
    case Losing(i) => SameSender(n, Act(n, Losing(i))); hide Sends, Held;
    case Draining => DrainKeepsSender(n); hide Half;
  }

  lemma ReceiveKeeps(n: Net, i: Instruction)
    requires Formed(n) && Half(n) && i in n.toB
    ensures Half(Flip(Act(Flip(n), Receiving(i))))
  {
    var c, n' := n.b.chan, Flip(Act(Flip(n), Receiving(i)));
    assert Genuine(n, i);
    HeardIsLocal(c, i.ackNum, i.throwawayNum);
    if i.oldNum == c.receivedNum {
      HeldMoves(n, i);
    }
    assert Held(n') && n'.b.chan.receivedNum >= c.receivedNum;
    hide ChannelState.Heard, ChannelState.Apply;
    SameReceiver(n, n');
  }

  /** `b` holds what it did or more, and has reported no more than that. */
  lemma SameReceiver(n: Net, m: Net)
    requires Half(n) && Held(m) && m.a == n.a && m.toB <= n.toB && m.toA <= n.toA
    requires m.b.chan.id == n.b.chan.id && m.b.chan.receivedNum >= n.b.chan.receivedNum
    ensures Half(m)
  {
    forall j | j in m.toB
      ensures Genuine(m, j)
    {
      assert Genuine(n, j);
    }
    forall j | j in m.toA
      ensures Honest(m, j)
    {
      assert Honest(n, j);
    }
    hide Sends, Held;
  }

  lemma DrainKeeps(n: Net)
    requires Formed(n) && Half(n)
    ensures Half(Flip(Act(Flip(n), Draining)))
  {
    var c, n' := n.b.chan, Flip(Act(Flip(n), Draining));
    if c.received.Messages? {
      var view, base := n.a.hist[c.receivedNum], c.received.Base();
      assert view == view[..base] + view[base..];
      assert Held(n');
      SameReceiver(n, n');
    }
  }

  lemma ReportsKeep(n: Net, nowMs: nat)
    requires Formed(n) && Half(n)
    ensures Half(Flip(Act(Flip(n), Sending(nowMs))))
  {
    var n' := Flip(Act(Flip(n), Sending(nowMs)));
    forall j | j in n'.toB
      ensures Genuine(n', j)
    {
      assert Genuine(n, j);
    }
    forall j | j in n'.toA
      ensures Honest(n', j)
    {
      if j in n.toA {
        assert Honest(n, j);
      }
    }
    hide Sends, Shows, ChannelState.Reach, ChannelState.StepDiff;
  }

  /** Every action of the receiver keeps the direction towards it, whatever the other one is like. */
  lemma ReceiverActs(n: Net, action: Action)
    requires Formed(n) && Half(n) && Suits(n.a.chan.initial.Kind(), action)
    ensures Half(Flip(Act(Flip(n), action)))
  {
    match action
    case Offering(change) =>
      if Offer(n.b.chan, change).Ok? {
        OfferedIsTyped(n.b.chan, change);
      }
      SameReceiver(n, Flip(Act(Flip(n), action)));
      hide Sends, Shows, Offer;
    case Sending(nowMs) => ReportsKeep(n, nowMs); hide Half;
    case Receiving(i) => if i in n.toB { ReceiveKeeps(n, i); } else { assert Flip(Flip(n)) == n; } hide Half;
    case Losing(i) => SameReceiver(n, Flip(Act(Flip(n), Losing(i)))); hide Sends, Shows;
    case Draining => DrainKeeps(n); hide Half;
  }

  /** Every action at an endpoint keeps both channels well formed. */
  lemma ActStaysFormed(n: Net, action: Action)
    requires Formed(n) && Suits(n.a.chan.initial.Kind(), action)
    ensures Formed(Act(n, action))
    ensures Act(n, action).a.chan.initial == n.a.chan.initial && Act(n, action).b == n.b
  {
    match action
    case Offering(change) =>
      if Offer(n.a.chan, change).Ok? {
        OfferedIsTyped(n.a.chan, change);
      }
      hide Offer;
    case Sending(nowMs) => hide ChannelState.NextInstruction;
    case Receiving(i) => ApplyIsTyped(n.a.chan, i); HeardIsLocal(n.a.chan, i.ackNum, i.throwawayNum); hide ChannelState.Heard;
    case Losing(i) =>
    case Draining =>
  }

  /** Every action at an endpoint keeps the whole invariant. */
  lemma ActKeeps(n: Net, action: Action)
    requires Inv(n) && Suits(n.a.chan.initial.Kind(), action)
    ensures Inv(Act(n, action))
  {
    hide Half, Act;
    ActStaysFormed(n, action);
    SenderActs(n, action);
    ReceiverActs(Flip(n), action);
    assert Flip(Flip(n)) == n;
  }

  // ---------- runs ----------

  /** Every change in the run has the channel's type and fits the wire's fields. */
  ghost predicate Possible(kind: Kind, steps: seq<Step>) {
    forall s | s in steps :: Suits(kind, s.action)
  }

  ghost function Take(n: Net, step: Step): Net
    requires Formed(n) && Suits(n.a.chan.initial.Kind(), step.action)
  {
    match step
    case AtA(action) => Act(n, action)
    case AtB(action) => Flip(Act(Flip(n), action))
  }

  lemma TakeStaysFormed(n: Net, step: Step)
    requires Formed(n) && Suits(n.a.chan.initial.Kind(), step.action)
    ensures Formed(Take(n, step))
    ensures Take(n, step).a.chan.initial == n.a.chan.initial && Take(n, step).b.chan.initial == n.b.chan.initial
  {
    hide Act;
    match step
    case AtA(action) => ActStaysFormed(n, action);
    case AtB(action) => ActStaysFormed(Flip(n), action);
  }

  /** One direction is kept by every step at either end, whatever the other direction is like. */
  lemma TakeKeepsHalf(n: Net, step: Step)
    requires Formed(n) && Half(n) && Suits(n.a.chan.initial.Kind(), step.action)
    ensures Half(Take(n, step))
  {
    hide Act, Half;
    match step
    case AtA(action) => SenderActs(n, action);
    case AtB(action) => ReceiverActs(n, action);
  }

  lemma TakeKeeps(n: Net, step: Step)
    requires Inv(n) && Suits(n.a.chan.initial.Kind(), step.action)
    ensures Inv(Take(n, step))
    ensures Take(n, step).a.chan.initial == n.a.chan.initial && Take(n, step).b.chan.initial == n.b.chan.initial
  {
    hide Act, Half;
    TakeStaysFormed(n, step);
    TakeKeepsHalf(n, step);
    match step
    case AtA(action) => ReceiverActs(Flip(n), action); assert Flip(Flip(n)) == n;
    case AtB(action) => SenderActs(Flip(n), action);
  }

  /** Any interleaving of actions at both endpoints. */
  ghost function Run(n: Net, steps: seq<Step>): (n': Net)
    requires Formed(n) && Possible(n.a.chan.initial.Kind(), steps)
    ensures Formed(n')
    ensures n'.a.chan.initial == n.a.chan.initial && n'.b.chan.initial == n.b.chan.initial
    ensures Half(n) ==> Half(n')
    ensures Inv(n) ==> Inv(n')
    decreases steps
  {
    if steps == [] then n
    else
      assert steps[0] in steps;
      TakeStaysFormed(n, steps[0]);
      assert Half(n) ==> Half(Take(n, steps[0])) by { if Half(n) { TakeKeepsHalf(n, steps[0]); } hide Half; }
      assert Inv(n) ==> Inv(Take(n, steps[0])) by { if Inv(n) { TakeKeeps(n, steps[0]); } hide Half; }
      hide Half, Take;
      Run(Take(n, steps[0]), steps[1..])
  }

  lemma {:induction false} RunAppends(n: Net, steps: seq<Step>, step: Step)
    requires Formed(n) && Possible(n.a.chan.initial.Kind(), steps) && Suits(n.a.chan.initial.Kind(), step.action)
    ensures Possible(n.a.chan.initial.Kind(), steps + [step])
    ensures Run(n, steps + [step]) == Take(Run(n, steps), step)
    decreases steps
  {
    hide Half, Act, Suits, Take;
    if steps == [] {
      TakeStaysFormed(n, step);
      assert steps + [step] == [step] && [step][1..] == [];
      assert Run(Take(n, step), []) == Take(n, step);
    } else {
      assert steps[0] in steps;
      TakeStaysFormed(n, steps[0]);
      RunAppends(Take(n, steps[0]), steps[1..], step);
      assert (steps + [step])[1..] == steps[1..] + [step];
    }
  }

  ghost function Start(id: nat, initialA: SspState, initialB: SspState, maxA: nat, maxB: nat): Net {
    Net(Endpoint(NewChannel(id, initialA, maxA), [[]], []), Endpoint(NewChannel(id, initialB, maxB), [[]], []), {}, {})
  }

  ghost predicate CanStart(id: nat, initialA: SspState, initialB: SspState) {
    && Histories.Fresh(initialA) && Histories.Fresh(initialB) && initialA.Kind() == initialB.Kind()
    && (id == CHANNEL_MESSAGES <==> initialA.Messages?)
  }

  lemma StartsInOrder(id: nat, initialA: SspState, initialB: SspState, maxA: nat, maxB: nat)
    requires CanStart(id, initialA, initialB)
    ensures Inv(Start(id, initialA, initialB, maxA, maxB))
  {
    NewChannelSends(id, initialA, maxA);
    NewChannelSends(id, initialB, maxB);
  }

  /** The messages `a`'s session accepted along a run, oldest first. */
  ghost function Accepted(n: Net, steps: seq<Step>): seq<Bytes>
    requires Formed(n) && Possible(n.a.chan.initial.Kind(), steps)
    decreases steps
  {
    if steps == [] then []
    else
      assert steps[0] in steps;
      TakeStaysFormed(n, steps[0]);
      AcceptedAt(n, steps[0]) + Accepted(Take(n, steps[0]), steps[1..])
  }

  ghost function AcceptedAt(n: Net, step: Step): seq<Bytes>
    requires Formed(n) && Suits(n.a.chan.initial.Kind(), step.action)
  {
    match step
    case AtA(Offering(PushMessage(m))) => if Offer(n.a.chan, PushMessage(m)).Ok? then [m] else []
    case _ => []
  }

  lemma {:induction false} AcceptedIsNewest(n: Net, steps: seq<Step>)
    requires Formed(n) && Possible(n.a.chan.initial.Kind(), steps) && n.a.chan.initial.Messages?
    ensures Newest(Run(n, steps).a.hist) == Newest(n.a.hist) + Accepted(n, steps)
    decreases steps
  {
    hide Half, Act;
    if steps != [] {
      assert steps[0] in steps;
      TakeStaysFormed(n, steps[0]);
      var next := Take(n, steps[0]);
      AcceptedIsNewest(next, steps[1..]);
      TakeAppends(n, steps[0]);
      var rest := Accepted(next, steps[1..]);
      assert Newest(n.a.hist) + AcceptedAt(n, steps[0]) + rest == Newest(n.a.hist) + (AcceptedAt(n, steps[0]) + rest);
    }
  }

  lemma TakeAppends(n: Net, step: Step)
    requires Formed(n) && Suits(QueueKind, step.action) && n.a.chan.initial.Messages?
    ensures Newest(Take(n, step).a.hist) == Newest(n.a.hist) + AcceptedAt(n, step)
  {
  }

  /**
   * Exactly once and in order: over every run, what the receiver has drained followed by
   * what it still holds is exactly the first `receivedNum` messages the sender accepted.
   */
  lemma ExactlyOnceInOrder(initialA: SspState, initialB: SspState, maxA: nat, maxB: nat, steps: seq<Step>)
    requires CanStart(CHANNEL_MESSAGES, initialA, initialB)
    requires Possible(QueueKind, steps)
    ensures var start := Start(CHANNEL_MESSAGES, initialA, initialB, maxA, maxB);
            && Inv(start)
            && var n := Run(start, steps);
            && n.b.chan.received.Messages?
            && n.b.chan.receivedNum <= |Accepted(start, steps)|
            && n.b.delivered + n.b.chan.received.queue.messages == Accepted(start, steps)[..n.b.chan.receivedNum]
  {
    hide Half, Accepted, Chain;
    var start := Start(CHANNEL_MESSAGES, initialA, initialB, maxA, maxB);
    StartsInOrder(CHANNEL_MESSAGES, initialA, initialB, maxA, maxB);
    AcceptedIsNewest(start, steps);
    DeliveredPrefix(Run(start, steps));
  }

  lemma DeliveredPrefix(n: Net)
    requires Half(n) && n.a.chan.initial.Messages?
    ensures n.b.chan.received.Messages? && n.b.chan.receivedNum <= |Newest(n.a.hist)|
    ensures n.b.delivered + n.b.chan.received.queue.messages == Newest(n.a.hist)[..n.b.chan.receivedNum]
  {
    assert Linked(QueueKind, n.a.hist, n.b.chan.receivedNum);
    var view, base := n.a.hist[n.b.chan.receivedNum], n.b.chan.received.Base();
    assert view == view[..base] + view[base..];
  }

  /** The ack window, and no genuine acknowledgement is ever discarded as unknown. */
  lemma AckWindow(n: Net, steps: seq<Step>)
    requires Inv(n) && Possible(n.a.chan.initial.Kind(), steps)
    ensures var m := Run(n, steps);
            && m.a.chan.assumed <= m.b.chan.receivedNum <= m.a.chan.currentNum
            && forall i | i in m.toA && i.ackNum > m.a.chan.assumed :: m.a.chan.Retains(i.ackNum)
  {
    var m := Run(n, steps);
    forall i | i in m.toA && i.ackNum > m.a.chan.assumed
      ensures m.a.chan.Retains(i.ackNum)
    {
      assert Honest(m, i);
      RetainsExactly(m.a.chan, m.a.hist, i.ackNum);
    }
  }

  /** The receiver's grid is always one state the sender made, never a mixture of two. */
  lemma GridAgreement(n: Net, steps: seq<Step>)
    requires Formed(n) && Half(n) && Possible(n.a.chan.initial.Kind(), steps) && n.a.chan.initial.Screen?
    ensures var m := Run(n, steps);
            && m.b.chan.receivedNum < |m.a.hist|
            && m.b.chan.received == Screen(RowGrids.Grid(m.a.hist[m.b.chan.receivedNum]))
  {
  }
}
