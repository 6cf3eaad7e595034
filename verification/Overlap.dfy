/**
 * A peer that restarts, and a survivor that has not heard of it yet. Until it hears the new
 * epoch the survivor goes on sending under its old numbers; when it does, it rebases.
 */
module Overlaps {
  import opened Channels
  import opened Convergence
  import opened Delivery
  import opened Histories
  import opened Packets
  import opened Restart
  import opened SspStates

  /** What the survivor owes a fresh peer, renumbered. */
  ghost function Owed(n: Net): (h: History)
    requires Chain(n.a.chan.initial.Kind(), n.a.hist) && n.a.chan.assumed < |n.a.hist|
  {
    RestartHistory(n.a.chan.initial.Kind(), n.a.hist, n.a.chan.assumed)
  }

  /** `b` restarts, with nothing of its old session left in flight. */
  ghost function Restarted(n: Net, initialB: SspState, maxB: nat): Net {
    Net(n.a, Endpoint(NewChannel(n.a.chan.id, initialB, maxB), [[]], []), {}, {})
  }

  /** `a` hears of the restart: it rebases, and starts receiving anew. */
  ghost function Rebased(n: Net): Net
    requires n.a.chan.Typed() && Chain(n.a.chan.initial.Kind(), n.a.hist) && n.a.chan.assumed < |n.a.hist|
  {
    n.(a := Endpoint(n.a.chan.ResetPeer(), Owed(n), []))
  }

  // ---------- what holds in between ----------

  /** `b` holds nothing, or, when `a` had no acknowledgement at all, one of `a`'s old states. */
  ghost predicate HoldsOld(n: Net) {
    var r, num := n.b.chan.received, n.b.chan.receivedNum;
    && r.Kind() == n.a.chan.initial.Kind() == n.b.chan.initial.Kind()
    && (r.Messages? ==> r.queue.limits == n.b.chan.initial.queue.limits)
    && num < |n.a.hist|
    && Shows(r, n.a.hist[num])
    && r.Base() <= |n.a.hist[num]|
    && n.b.delivered == n.a.hist[num][..r.Base()]
    && (n.a.chan.assumed > 0 ==> num == 0)
  }

  /** Sent by the survivor under its old numbers, with the acknowledgement of a peer that is gone. */
  ghost predicate Stale(n: Net, i: Instruction) {
    && i.channel == n.a.chan.id
    && Carries(i, n.a.chan.initial.Kind(), n.a.hist)
    && i.oldNum == n.a.chan.assumed
    && i.ackNum == i.throwawayNum == n.a.chan.receivedNum
  }

  ghost predicate FromFresh(n: Net, i: Instruction) {
    && i.channel == n.b.chan.id
    && Carries(i, n.b.chan.initial.Kind(), n.b.hist)
    && i.oldNum <= n.b.chan.assumed
    && i.ackNum == i.throwawayNum <= n.b.chan.receivedNum
  }

  ghost predicate SendsWell(e: Endpoint) {
    Sends(e.chan, e.hist) && (e.chan.current.Messages? ==> e.chan.current.Base() == e.chan.assumed)
  }

  ghost predicate Overlap(n: Net) {
    && Formed(n) && n.a.chan.id == n.b.chan.id
    && SendsWell(n.a) && SendsWell(n.b)
    && HoldsOld(n)
    && (n.b.chan.assumed == 0 || n.b.chan.assumed == n.a.chan.receivedNum)
    && (forall i | i in n.toB :: Stale(n, i))
    && (forall i | i in n.toA :: FromFresh(n, i))
  }

  lemma RestartOverlaps(n: Net, initialB: SspState, maxB: nat)
    requires Inv(n) && CanStart(n.a.chan.id, n.a.chan.initial, initialB)
    ensures Overlap(Restarted(n, initialB, maxB))
  {
    NewChannelSends(n.a.chan.id, initialB, maxB);
  }

  lemma OverlapChains(n: Net)
    requires Overlap(n)
    ensures Formed(n)
    ensures Chain(n.a.chan.initial.Kind(), n.a.hist) && n.a.chan.assumed < |n.a.hist|
    ensures n.b.chan.received.Kind() == n.a.chan.initial.Kind() == n.b.chan.initial.Kind()
  {
  }

  // ---------- the steps in between ----------

  /** Anything but the survivor hearing its new peer. */
  ghost predicate Deaf(kind: Kind, step: Step) {
    Suits(kind, step.action) && (step.AtA? ==> !step.action.Receiving?)
  }

  ghost function OverlapStep(n: Net, step: Step): Net
    requires Overlap(n) && Deaf(n.a.chan.initial.Kind(), step)
  {
    OverlapChains(n);
    Take(n, step)
  }

  lemma SurvivorOffers(n: Net, change: Change)
    requires Overlap(n) && Suits(n.a.chan.initial.Kind(), Offering(change)) && n.a.chan.Typed()
    ensures Overlap(Act(n, Offering(change)))
  {
    var n' := Act(n, Offering(change));
    if Offer(n.a.chan, change).Ok? {
      OfferExtends(n.a.chan, n.a.hist, change);
      assert n'.a.hist[..|n.a.hist|] == n.a.hist;
      assert n'.a.hist[n.b.chan.receivedNum] == n.a.hist[n.b.chan.receivedNum];
      forall i | i in n'.toB
        ensures Stale(n', i)
      {
        assert Stale(n, i);
        CarriesGrows(i, n.a.chan.initial.Kind(), n.a.hist, n'.a.hist);
      }
      forall i | i in n'.toA
        ensures FromFresh(n', i)
      {
        assert FromFresh(n, i);
      }
      hide Chain, Sends, Offer, Shows;
    }
  }

  lemma FreshOffers(n: Net, change: Change)
    requires Overlap(n) && Suits(n.b.chan.initial.Kind(), Offering(change)) && n.b.chan.Typed()
    ensures Overlap(Flip(Act(Flip(n), Offering(change))))
  {
    var n' := Flip(Act(Flip(n), Offering(change)));
    if Offer(n.b.chan, change).Ok? {
      OfferExtends(n.b.chan, n.b.hist, change);
      assert n'.b.hist[..|n.b.hist|] == n.b.hist;
      forall i | i in n'.toA
        ensures FromFresh(n', i)
      {
        assert FromFresh(n, i);
        CarriesGrows(i, n.b.chan.initial.Kind(), n.b.hist, n'.b.hist);
      }
      forall i | i in n'.toB
        ensures Stale(n', i)
      {
        assert Stale(n, i);
      }
      hide Chain, Sends, Offer, Shows;
    }
  }

  /** The flights only lose members, or gain what the two ends now send. */
  lemma SurvivorSends(n: Net, nowMs: nat)
    requires Overlap(n) && n.a.chan.Typed()
    ensures Overlap(Act(n, Sending(nowMs)))
  {
    var n' := Act(n, Sending(nowMs));
    NeverWedged(n.a.chan, n.a.hist);
    NoteSentKeeps(n.a.chan, n.a.hist, n.a.chan.NextInstruction().value, nowMs);
    hide ChannelState.NextInstruction, Sends, Shows, Chain;
    forall i | i in n'.toB
      ensures Stale(n', i)
    {
      if i in n.toB {
        assert Stale(n, i);
      }
    }
    forall i | i in n'.toA
      ensures FromFresh(n', i)
    {
      assert FromFresh(n, i);
    }
  }

  lemma FreshSends(n: Net, nowMs: nat)
    requires Overlap(n) && n.b.chan.Typed()
    ensures Overlap(Flip(Act(Flip(n), Sending(nowMs))))
  {
    var n' := Flip(Act(Flip(n), Sending(nowMs)));
    NeverWedged(n.b.chan, n.b.hist);
    NoteSentKeeps(n.b.chan, n.b.hist, n.b.chan.NextInstruction().value, nowMs);
    hide ChannelState.NextInstruction, Sends, Shows, Chain;
    forall i | i in n'.toA
      ensures FromFresh(n', i)
    {
      if i in n.toA {
        assert FromFresh(n, i);
      }
    }
    forall i | i in n'.toB
      ensures Stale(n', i)
    {
      assert Stale(n, i);
    }
  }

  /** What a stale Instruction does to the state that the fresh peer holds. */
  lemma FreshHolds(n: Net, i: Instruction)
    requires Overlap(n) && i in n.toB && i.oldNum == n.b.chan.receivedNum
    ensures var r := n.b.chan.received.ApplyDiff(i.diff);
            r.Ok? ==> HoldsOld(n.(b := n.b.(chan := n.b.chan.(received := r.value, receivedNum := i.newNum))))
    ensures i.oldNum == 0 && n.a.chan.assumed == 0
  {
    assert Stale(n, i);
    var kind := n.a.chan.initial.Kind();
    ChainExtends(kind, n.a.hist, i.oldNum, i.newNum);
    ChainExtends(kind, n.a.hist, i.newNum, i.newNum);
    ApplyShows(n.b.chan.received, n.a.hist[i.oldNum], n.a.hist[i.newNum]);
  }

  /** The fresh peer's channel after it took in a stale Instruction. */
  lemma FreshApplies(n: Net, i: Instruction)
    requires Overlap(n) && i in n.toB
    ensures var c, c' := n.b.chan, n.b.chan.Apply(i).0;
            && SendsWell(n.b.(chan := c')) && c'.id == c.id && c'.initial == c.initial
            && (c'.assumed == c.assumed || c'.assumed == n.a.chan.receivedNum)
            && c'.assumed >= c.assumed && c'.receivedNum >= c.receivedNum
            && HoldsOld(n.(b := n.b.(chan := c')))
  {
    var c := n.b.chan;
    assert Stale(n, i);
    HeardKeeps(c, n.b.hist, i.ackNum, i.throwawayNum);
    var heard := c.Heard(i.ackNum, i.throwawayNum);
    if i.oldNum == c.receivedNum {
      FreshHolds(n, i);
      if c.received.ApplyDiff(i.diff).Ok? {
        ReceivingKeepsSends(heard, n.b.hist, c.received.ApplyDiff(i.diff).value, i.newNum);
      }
    }
    hide Sends, Shows, Chain, ChannelState.Heard;
  }

  lemma FreshReceives(n: Net, i: Instruction)
    requires Overlap(n) && n.b.chan.Typed() && i in n.toB
    ensures Overlap(Flip(Act(Flip(n), Receiving(i))))
  {
    var n' := Flip(Act(Flip(n), Receiving(i)));
    FreshApplies(n, i);
    hide Sends, HoldsOld, Chain, ChannelState.Apply, ChannelState.Typed;
    forall j | j in n'.toB
      ensures Stale(n', j)
    {
      assert Stale(n, j);
    }
    forall j | j in n'.toA
      ensures FromFresh(n', j)
    {
      assert FromFresh(n, j);
    }
    HoldsOldOfSame(n.(b := n'.b), n');
  }

  /** What is in flight is no part of what is held. */
  lemma HoldsOldOfSame(n: Net, m: Net)
    requires HoldsOld(n) && m.b == n.b && m.a.hist == n.a.hist
    requires m.a.chan.initial == n.a.chan.initial && m.a.chan.assumed == n.a.chan.assumed
    ensures HoldsOld(m)
  {
  }

  lemma SurvivorDrains(n: Net)
    requires Overlap(n) && n.a.chan.Typed()
    ensures Overlap(Act(n, Draining))
  {
    var c, n' := n.a.chan, Act(n, Draining);
    if c.received.Messages? {
      ReceivingKeepsSends(c, n.a.hist, Messages(c.received.queue.Drain()), c.receivedNum);
      hide Sends, Shows, Chain, ChannelState.Typed;
      forall j | j in n'.toB
        ensures Stale(n', j)
      {
        assert Stale(n, j);
      }
      forall j | j in n'.toA
        ensures FromFresh(n', j)
      {
        assert FromFresh(n, j);
      }
    }
  }

  lemma FreshDrains(n: Net)
    requires Overlap(n) && n.b.chan.Typed()
    ensures Overlap(Flip(Act(Flip(n), Draining)))
  {
    var c, n' := n.b.chan, Flip(Act(Flip(n), Draining));
    if c.received.Messages? {
      ReceivingKeepsSends(c, n.b.hist, Messages(c.received.queue.Drain()), c.receivedNum);
      var view, base := n.a.hist[c.receivedNum], c.received.Base();
      assert view == view[..base] + view[base..];
      hide Sends, Chain, ChannelState.Typed;
      forall j | j in n'.toB
        ensures Stale(n', j)
      {
        assert Stale(n, j);
      }
      forall j | j in n'.toA
        ensures FromFresh(n', j)
      {
        assert FromFresh(n, j);
      }
    }
  }

  lemma LosingOverlaps(n: Net, m: Net)
    requires Overlap(n) && m.a == n.a && m.b == n.b && m.toA <= n.toA && m.toB <= n.toB
    ensures Overlap(m)
  {
    forall j | j in m.toB
      ensures Stale(m, j)
    {
      assert Stale(n, j);
    }
    forall j | j in m.toA
      ensures FromFresh(m, j)
    {
      assert FromFresh(n, j);
    }
    hide Sends, HoldsOld, Chain;
    HoldsOldOfSame(n, m);
  }

  /** Every step before the survivor hears of the restart keeps what holds in between. */
  lemma StepOverlaps(n: Net, step: Step)
    requires Overlap(n) && Deaf(n.a.chan.initial.Kind(), step)
    ensures Overlap(OverlapStep(n, step))
    ensures OverlapStep(n, step).a.chan.initial == n.a.chan.initial
  {
    OverlapChains(n);
    OverlapActs(n, step);
    TakeStaysFormed(n, step);
    hide Overlap, Take;
  }

  lemma OverlapActs(n: Net, step: Step)
    requires Overlap(n) && Deaf(n.a.chan.initial.Kind(), step) && Formed(n)
    ensures Overlap(Take(n, step))
  {
    hide Overlap;
    match step
    case AtA(Offering(change)) => SurvivorOffers(n, change);
    case AtA(Sending(nowMs)) => SurvivorSends(n, nowMs);
    case AtA(Draining) => SurvivorDrains(n);
    case AtA(Losing(i)) => LosingOverlaps(n, Act(n, Losing(i)));
    case AtB(Offering(change)) => FreshOffers(n, change);
    case AtB(Sending(nowMs)) => FreshSends(n, nowMs);
    case AtB(Receiving(i)) => if i in n.toB { FreshReceives(n, i); }
    case AtB(Draining) => FreshDrains(n);
    case AtB(Losing(i)) => LosingOverlaps(n, Flip(Act(Flip(n), Losing(i))));
  }

  ghost predicate AllDeaf(kind: Kind, steps: seq<Step>) {
    forall s | s in steps :: Deaf(kind, s)
  }

  lemma {:induction false} RunOverlaps(n: Net, steps: seq<Step>)
    requires Overlap(n) && AllDeaf(n.a.chan.initial.Kind(), steps)
    ensures Formed(n) && Possible(n.a.chan.initial.Kind(), steps)
    ensures Overlap(Run(n, steps))
    decreases steps
  {
    OverlapChains(n);
    hide Overlap, Take;
    if steps != [] {
      assert steps[0] in steps;
      StepOverlaps(n, steps[0]);
      RunOverlaps(Take(n, steps[0]), steps[1..]);
    }
  }

  /** Any interleaving of steps before the survivor hears of the restart. */
  ghost function OverlapRun(n: Net, steps: seq<Step>): (n': Net)
    requires Overlap(n) && AllDeaf(n.a.chan.initial.Kind(), steps)
    ensures Overlap(n') && n'.a.chan.initial == n.a.chan.initial
  {
    RunOverlaps(n, steps);
    Run(n, steps)
  }

  // ---------- when the two agree after the rebase ----------

  /** An old Instruction says, of what is owed under the new numbers, what it said before. */
  ghost predicate StillGenuine(n: Net, i: Instruction)
    requires Overlap(n)
  {
    OverlapChains(n);
    i.oldNum <= n.b.chan.receivedNum && Carries(i, n.a.chan.initial.Kind(), Owed(n))
  }

  /**
   * Towards the fresh peer: the state it holds is the one the rebased history has under that
   * number, and so is all that is still in flight.
   */
  ghost predicate ForwardSafe(n: Net)
    requires Overlap(n)
  {
    OverlapChains(n);
    var k := n.b.chan.receivedNum;
    && k < |Owed(n)| && Owed(n)[k] == n.a.hist[k]
    && (forall i | i in n.toB :: StillGenuine(n, i))
  }

  /** Towards the survivor: no acknowledgement meant for the old peer was taken, and none will be. */
  ghost predicate BackSafe(n: Net) {
    n.b.chan.assumed == 0 && (forall i | i in n.toB :: i.ackNum == 0)
  }

  ghost predicate Safe(n: Net)
    requires Overlap(n)
  {
    ForwardSafe(n) && BackSafe(n)
  }

  lemma RebasedIsFormed(n: Net)
    requires Overlap(n)
    ensures Rebased.requires(n) && Formed(Rebased(n))
    ensures Rebased(n).a.chan.id == n.a.chan.id && Rebased(n).a.chan.initial == n.a.chan.initial
  {
    OverlapChains(n);
    ResetIsTyped(n.a.chan);
    FreshStart(n);
    hide ChannelState.ResetPeer, ChannelState.Typed, Sends;
  }

  lemma SafeRebases(n: Net)
    requires Overlap(n) && ForwardSafe(n)
    ensures Rebased.requires(n) && Half(Rebased(n))
  {
    OverlapChains(n);
    ResetKeepsPending(n.a.chan, n.a.hist);
    ResetIsTyped(n.a.chan);
    var m := Rebased(n);
    forall i | i in m.toB
      ensures Genuine(m, i)
    {
      assert StillGenuine(n, i) && Stale(n, i);
    }
    forall i | i in m.toA
      ensures Honest(m, i)
    {
      assert FromFresh(n, i);
    }
    hide Sends, Shows, Carries, Chain, RestartHistory;
  }

  lemma SafeListens(n: Net)
    requires Overlap(n) && BackSafe(n)
    ensures Rebased.requires(n) && Half(Flip(Rebased(n)))
  {
    OverlapChains(n);
    var m := Rebased(n);
    forall i | i in m.toA
      ensures Genuine(Flip(m), i)
    {
      assert FromFresh(n, i);
    }
    forall i | i in m.toB
      ensures Honest(Flip(m), i)
    {
      assert Stale(n, i);
    }
    FreshStart(n);
    hide Sends, Carries, RestartHistory;
  }

  lemma FreshStart(n: Net)
    requires Overlap(n)
    ensures Shows(n.a.chan.initial, n.b.hist[0]) && n.b.hist[0] == []
    ensures n.a.chan.ResetPeer().id == n.a.chan.id && n.a.chan.ResetPeer().initial == n.a.chan.initial
    ensures n.a.chan.ResetPeer().received == n.a.chan.initial && n.a.chan.ResetPeer().receivedNum == 0
  {
  }

  lemma OnlySafeRebases(n: Net)
    requires Overlap(n) && Rebased.requires(n) && Half(Rebased(n))
    ensures ForwardSafe(n)
  {
    OverlapChains(n);
    FreshStart(n);
    var m, k := Rebased(n), n.b.chan.receivedNum;
    assert Held(m);
    var base := n.b.chan.received.Base();
    assert n.a.hist[k] == n.a.hist[k][..base] + n.a.hist[k][base..];
    assert Owed(n)[k] == Owed(n)[k][..base] + Owed(n)[k][base..];
    forall i | i in n.toB
      ensures StillGenuine(n, i)
    {
      assert Genuine(m, i);
    }
    hide Sends, Carries, RestartHistory, Chain;
  }

  lemma OnlySafeListens(n: Net)
    requires Overlap(n) && Rebased.requires(n) && Half(Flip(Rebased(n)))
    ensures BackSafe(n)
  {
    FreshStart(n);
    var m := Flip(Rebased(n));
    assert Held(m);
    forall i | i in n.toB
      ensures i.ackNum == 0
    {
      assert Honest(m, i);
    }
    hide Sends, Carries, RestartHistory, Chain;
  }

  /**
   * Over every state between a restart and the survivor's hearing of it: after the rebase each
   * direction is in order again if and only if it was safe, whatever the other one is like.
   */
  lemma RebaseExactly(n: Net)
    requires Overlap(n)
    ensures Rebased.requires(n) && Formed(Rebased(n))
    ensures Half(Rebased(n)) <==> ForwardSafe(n)
    ensures Half(Flip(Rebased(n))) <==> BackSafe(n)
    ensures Inv(Rebased(n)) <==> Safe(n)
  {
    RebasedIsFormed(n);
    if ForwardSafe(n) {
      SafeRebases(n);
    }
    if BackSafe(n) {
      SafeListens(n);
    }
    if Half(Rebased(n)) {
      OnlySafeRebases(n);
    }
    if Half(Flip(Rebased(n))) {
      OnlySafeListens(n);
    }
    hide Half, ForwardSafe, BackSafe, Rebased, Overlap;
  }

  // ---------- what makes it safe ----------

  /** The fresh peer takes a stale acknowledgement up exactly when it names a state of its own. */
  lemma StaleAckTaken(n: Net, i: Instruction)
    requires Overlap(n) && i in n.toB && n.b.chan.assumed == 0
    ensures n.b.chan.Apply(i).0.assumed
         == if 0 < n.a.chan.receivedNum <= n.b.chan.currentNum then n.a.chan.receivedNum else 0
  {
    assert Stale(n, i);
    HeardKeeps(n.b.chan, n.b.hist, i.ackNum, i.throwawayNum);
    hide Sends, ChannelState.Heard;
  }

  /** With nothing acknowledged either way, the numbers of channel 0 coincide: every run is safe. */
  lemma QueueUntouchedIsSafe(n: Net)
    requires Overlap(n) && n.a.chan.initial.Messages? && n.a.chan.assumed == 0 && n.a.chan.receivedNum == 0
    ensures Safe(n)
  {
    OverlapChains(n);
    QueueOwesAll(n);
    forall i | i in n.toB
      ensures StillGenuine(n, i)
    {
      assert Stale(n, i);
    }
    hide Sends, RestartHistory, Carries;
  }

  lemma QueueOwesAll(n: Net)
    requires Overlap(n) && n.a.chan.initial.Messages? && n.a.chan.assumed == 0
    ensures Owed.requires(n) && Owed(n) == n.a.hist
  {
    OverlapChains(n);
    var view := Newest(n.a.hist);
    assert view[0..] == view;
    forall k | 0 <= k < |n.a.hist|
      ensures Owed(n)[k] == n.a.hist[k]
    {
      assert Linked(QueueKind, n.a.hist, k);
    }
  }

  /** Channel 0, once nothing old is in flight: safe exactly when no stale acknowledgement was taken. */
  lemma QueueSafeExactly(n: Net)
    requires Overlap(n) && n.a.chan.initial.Messages? && n.toB == {}
    ensures Safe(n) <==> n.b.chan.assumed == 0
  {
    OverlapChains(n);
    if n.a.chan.assumed == 0 {
      QueueOwesAll(n);
    }
    assert n.a.hist[0] == [];
    hide Sends;
  }

  /**
   * Channel 1, once nothing old is in flight: safe exactly when moreover the fresh peer took
   * nothing, or a grid that is a row prefix of the newest one, with as many rows as its number.
   */
  lemma GridSafeExactly(n: Net)
    requires Overlap(n) && n.a.chan.initial.Screen? && n.toB == {}
    ensures Safe(n) <==>
            && n.b.chan.assumed == 0
            && var view, k := Newest(n.a.hist), n.b.chan.receivedNum;
               (|| k == 0
                || (k <= |view| && n.a.hist[k] == view[..k])
                || (k == 1 && view == [] && n.a.hist[1] == []))
  {
    OverlapChains(n);
    assert n.a.hist[0] == [];
    hide Sends, Shows;
  }

  // ---------- after a safe rebase ----------

  /**
   * Over every run, a restart of the peer, every run until the survivor hears of it, and every
   * run after a rebase that was safe towards the fresh peer: it gets the messages the old one had
   * not acknowledged, then what is accepted later, exactly once and in order.
   */
  lemma RestartDelivers(n: Net, before: seq<Step>, initialB: SspState, maxB: nat, between: seq<Step>, after: seq<Step>)
    requires Inv(n) && n.a.chan.initial.Messages? && CanStart(n.a.chan.id, n.a.chan.initial, initialB)
    requires Possible(QueueKind, before) && AllDeaf(QueueKind, between) && Possible(QueueKind, after)
    ensures var lone := Restarted(Run(n, before), initialB, maxB);
            && Overlap(lone)
            && var o := OverlapRun(lone, between);
            ForwardSafe(o) ==>
              && Rebased.requires(o) && Formed(Rebased(o))
              && o.a.chan.assumed <= |Newest(o.a.hist)|
              && var m := Run(Rebased(o), after);
              var owed := Newest(o.a.hist)[o.a.chan.assumed..] + Accepted(Rebased(o), after);
              && m.b.chan.received.Messages?
              && m.b.chan.receivedNum <= |owed|
              && m.b.delivered + m.b.chan.received.queue.messages == owed[..m.b.chan.receivedNum]
  {
    var lone := Restarted(Run(n, before), initialB, maxB);
    RestartOverlaps(Run(n, before), initialB, maxB);
    var o := OverlapRun(lone, between);
    if ForwardSafe(o) {
      SafeDelivers(o, after);
    }
    hide Half, Overlap, ForwardSafe, Accepted, Run, OverlapRun;
  }

  lemma SafeDelivers(o: Net, after: seq<Step>)
    requires Overlap(o) && o.a.chan.initial.Messages? && ForwardSafe(o) && Possible(QueueKind, after)
    ensures Rebased.requires(o) && Formed(Rebased(o)) && Half(Rebased(o)) && o.a.chan.assumed <= |Newest(o.a.hist)|
    ensures var m := Run(Rebased(o), after);
            var owed := Newest(o.a.hist)[o.a.chan.assumed..] + Accepted(Rebased(o), after);
            && m.b.chan.received.Messages?
            && m.b.chan.receivedNum <= |owed|
            && m.b.delivered + m.b.chan.received.queue.messages == owed[..m.b.chan.receivedNum]
  {
    OverlapChains(o);
    RebaseExactly(o);
    ResetKeepsPending(o.a.chan, o.a.hist);
    ResetIsTyped(o.a.chan);
    FreshStart(o);
    ChainExtends(QueueKind, o.a.hist, o.a.chan.assumed, |o.a.hist| - 1);
    hide Half, ForwardSafe, Overlap, Sends, ChannelState.ResetPeer, RestartHistory, Accepted, Run;
    AcceptedIsNewest(Rebased(o), after);
    DeliveredPrefix(Run(Rebased(o), after));
  }

  /**
   * After a safe rebase, as many exchanges as the fresh peer is behind bring it exactly what was
   * owed, or the same grid, if and only if every state on the way passes.
   */
  lemma RestartConverges(o: Net, count: nat, t: nat)
    requires Overlap(o) && Safe(o) && Rebased.requires(o)
    ensures Inv(Rebased(o))
    ensures count >= Gap(Rebased(o)) ==>
              var m := Exchanges(Rebased(o), count, t);
              && (Gap(m) == 0 <==> Passable(Rebased(o)))
              && (Gap(m) == 0 ==> Level(Rebased(o), m))
    ensures Newest(Rebased(o).a.hist)
         == (if o.a.chan.initial.Messages? then Newest(o.a.hist)[o.a.chan.assumed..] else Newest(o.a.hist))
  {
    OverlapChains(o);
    RebaseExactly(o);
    ResetKeepsPending(o.a.chan, o.a.hist);
    hide Half, Safe, Overlap, Sends, ChannelState.ResetPeer, RestartHistory;
    if count >= Gap(Rebased(o)) {
      ConvergesExactly(Rebased(o), count, t);
    }
  }
}
