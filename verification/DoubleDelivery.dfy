/**
 * What a delayed Instruction does after a rebase: numbered as the fresh peer now counts, it is
 * taken again, and messages arrive twice while others never do.
 */
module DoubleDeliveries {
  import opened Bytes
  import opened Channels
  import opened Delivery
  import opened Histories
  import opened MessageQueues
  import opened Overlaps
  import opened Packets
  import opened Protocol
  import Restart
  import opened RestartHazards
  import opened SspStates
  import opened Wrappers

  /** The messages a stale Instruction brings. */
  ghost function Brought(o: Net, i: Instruction): seq<Bytes>
    requires Overlap(o) && o.a.chan.initial.Messages? && i in o.toB
  {
    assert Stale(o, i);
    ChainExtends(QueueKind, o.a.hist, i.oldNum, i.newNum);
    o.a.hist[i.newNum][i.oldNum..]
  }

  /**
   * Over every state at the moment of the rebase, every Instruction still in flight then, and
   * every queue that stands for what the rebased history has under its number: the Instruction is
   * taken exactly when it starts, under the old numbers, at that number, and there is room.
   */
  lemma StaleDiffTaken(o: Net, i: Instruction, c: ChannelState)
    requires Overlap(o) && o.a.chan.initial.Messages? && i in o.toB
    requires c.received.Messages? && c.receivedNum < |Owed(o)| && Shows(c.received, Owed(o)[c.receivedNum])
    ensures var c', more := c.Apply(i).0, Brought(o, i);
            if i.oldNum == c.receivedNum && c.received.queue.HasRoom(|more|, Total(more))
            then c'.receivedNum == i.newNum && Shows(c'.received, Owed(o)[c.receivedNum] + more)
            else c'.receivedNum == c.receivedNum && c'.received == c.received
  {
    assert Stale(o, i);
    ChainExtends(QueueKind, o.a.hist, i.oldNum, i.newNum);
    var held, more := Owed(o)[c.receivedNum], Brought(o, i);
    assert (held + more)[|held|..] == more;
    assert i.diff == ViewDiff(QueueKind, held, held + more);
    ApplyShows(c.received, held, held + more);
    HeardIsLocal(c, i.ackNum, i.throwawayNum);
    hide ChannelState.Heard, Shows, Overlap, Owed, Brought;
  }

  /** What is taken so, with something acknowledged before the restart, was there already. */
  lemma TakenTwice(o: Net, i: Instruction)
    requires Overlap(o) && o.a.chan.initial.Messages? && i in o.toB
    requires 0 < i.oldNum < i.newNum && i.oldNum < |Owed(o)|
    ensures var held, more := Owed(o)[i.oldNum], Brought(o, i);
            && held != [] && more != []
            && held[0] == more[0] == Newest(o.a.hist)[i.oldNum]
            && |held + more| == i.newNum
  {
    assert Stale(o, i);
    assert Linked(QueueKind, o.a.hist, i.newNum);
  }

  // ---------- and it happens ----------

  const FIRST: Bytes := [1]
  const SECOND: Bytes := [2]
  const THIRD: Bytes := [3]
  const FOURTH: Bytes := [4]
  const FIFTH: Bytes := [5]
  const SIXTH: Bytes := [6]

  ghost predicate Singles(messages: seq<Bytes>) {
    |messages| <= 8 && forall m | m in messages :: |m| == 1
  }

  lemma {:induction false} SinglesTotal(messages: seq<Bytes>)
    requires forall m | m in messages :: |m| == 1
    ensures Total(messages) == |messages|
  {
    if messages != [] {
      SinglesTotal(messages[1..]);
    }
  }

  lemma SinglesFit(messages: seq<Bytes>)
    requires Singles(messages)
    ensures |EncodeMessages(messages)| <= MAX_DIFF_LEN
  {
    SinglesTotal(messages);
    FramesLength(messages);
  }

  /** `a` sends `messages` in order, has heard nothing but acknowledgements, and has room. */
  ghost predicate SendsSingles(e: Endpoint, messages: seq<Bytes>, assumed: nat) {
    && Sends(e.chan, e.hist) && e.chan.initial == QUEUE && e.chan.id == CHANNEL_MESSAGES && e.chan.maxSent == 512
    && e.chan.current.queue.limits == DEFAULT_LIMITS
    && Newest(e.hist) == messages && Singles(messages)
    && e.chan.assumed == assumed == e.chan.current.Base()
    && e.chan.receivedNum == 0 && e.chan.received == QUEUE
  }

  /** One more message is accepted. */
  lemma OneMore(n: Net, messages: seq<Bytes>, assumed: nat, m: Bytes)
    requires Formed(n) && SendsSingles(n.a, messages, assumed) && Singles(messages + [m])
    ensures Suits(n.a.chan.initial.Kind(), Offering(PushMessage(m)))
    ensures var n' := Act(n, Offering(PushMessage(m)));
            n' == n.(a := n'.a) && SendsSingles(n'.a, messages + [m], assumed)
  {
    var c := n.a.chan;
    var q := c.current.queue;
    assert m in messages + [m];
    assert forall x | x in q.messages :: x in messages;
    SinglesTotal(q.messages);
    assert q.HasRoom(1, |m|);
    assert Offer(c, PushMessage(m)).Ok?;
    OfferExtends(c, n.a.hist, PushMessage(m));
    hide Sends, Shows;
  }

  /** `b` holds `held` under this number, and has nothing of its own to send. */
  ghost predicate HoldsSingles(e: Endpoint, held: seq<Bytes>, num: nat) {
    && Sends(e.chan, e.hist) && |e.hist| == 1 && e.chan.initial == QUEUE && e.chan.id == CHANNEL_MESSAGES
    && e.chan.assumed == 0 == e.chan.current.Base() && e.delivered == []
    && e.chan.received.Messages? && e.chan.received.queue.limits == DEFAULT_LIMITS && e.chan.received.Base() == 0
    && Shows(e.chan.received, held) && Singles(held) && e.chan.receivedNum == num
  }

  /** `a` sends all that is not acknowledged. */
  lemma SendsAll(n: Net, messages: seq<Bytes>, assumed: nat, t: nat) returns (i: Instruction)
    requires Formed(n) && SendsSingles(n.a, messages, assumed)
    ensures assumed <= |messages|
    ensures i.oldNum == assumed && i.newNum == |messages| && i.diff == EncodeMessages(messages[assumed..])
    ensures i.ackNum == i.throwawayNum == 0
    ensures var n' := Act(n, Sending(t));
            n' == n.(a := n'.a, toB := n.toB + {i}) && SendsSingles(n'.a, messages, assumed)
  {
    hide ChannelState.NextInstruction, Shows, Act;
    i := SingleInstruction(n.a, messages, assumed);
    NoteSentKeeps(n.a.chan, n.a.hist, i, t);
    ActSends(n, t);
    hide Sends;
  }

  lemma ActSends(n: Net, t: nat)
    requires n.a.chan.Typed() && n.a.chan.NextInstruction().Ok?
    ensures var i := n.a.chan.NextInstruction().value;
            Act(n, Sending(t)) == n.(a := n.a.(chan := n.a.chan.NoteSent(i, t)), toB := n.toB + {i})
  {
    hide ChannelState.NextInstruction, ChannelState.Typed;
  }

  lemma SingleInstruction(e: Endpoint, messages: seq<Bytes>, assumed: nat) returns (i: Instruction)
    requires SendsSingles(e, messages, assumed)
    ensures assumed <= |messages|
    ensures e.chan.NextInstruction() == Ok(i)
    ensures i.oldNum == assumed && i.newNum == |messages| && i.diff == EncodeMessages(messages[assumed..])
    ensures i.ackNum == i.throwawayNum == 0
  {
    hide ChannelState.NextInstruction, Shows;
    NeverWedged(e.chan, e.hist);
    i := e.chan.NextInstruction().value;
    SinglesBetween(e, messages, assumed);
    assert forall x | x in messages[assumed..] :: x in messages;
    SinglesFit(messages[assumed..]);
    hide Sends;
  }

  lemma SinglesBetween(e: Endpoint, messages: seq<Bytes>, assumed: nat)
    requires SendsSingles(e, messages, assumed)
    ensures Chain(QueueKind, e.hist) && assumed <= |messages| == e.chan.currentNum == |e.hist| - 1
    ensures Between(QueueKind, e.hist, assumed, |messages|) == EncodeMessages(messages[assumed..])
  {
    assert Linked(QueueKind, e.hist, assumed) && Linked(QueueKind, e.hist, |messages|);
    assert e.hist[|messages|] == messages;
    hide Shows;
  }

  /** `b` takes what starts at the number it holds. */
  lemma TakesSingles(n: Net, held: seq<Bytes>, num: nat, i: Instruction, more: seq<Bytes>)
    requires Formed(n) && HoldsSingles(n.b, held, num) && i in n.toB
    requires i.oldNum == num && i.diff == EncodeMessages(more) && Singles(held + more)
    requires i.ackNum == i.throwawayNum == 0
    ensures var n' := Take(n, AtB(Receiving(i)));
            n' == n.(b := n'.b) && HoldsSingles(n'.b, held + more, i.newNum)
  {
    hide Sends, ChannelState.Heard, SspState.ApplyDiff, ViewDiff;
    var c := n.b.chan;
    assert (held + more)[|held|..] == more;
    DiffOfMore(held, more);
    assert forall x | x in more :: x in held + more;
    assert forall x | x in held :: x in held + more;
    SinglesFit(more);
    SinglesTotal(more);
    SinglesTotal(held);
    ApplyShows(c.received, held, held + more);
    HeardIsLocal(c, 0, 0);
    ChannelAppliesInOrder(c, n.b.hist, i);
    ApplyKeepsLimits(c.received, i.diff);
    HeardKeeps(c, n.b.hist, 0, 0);
  }

  lemma DiffOfMore(held: seq<Bytes>, more: seq<Bytes>)
    ensures EncodeMessages(more) == ViewDiff(QueueKind, held, held + more)
  {
    assert (held + more)[|held|..] == more;
  }

  lemma ApplyKeepsLimits(s: SspState, diff: Bytes)
    requires s.Messages? && s.ApplyDiff(diff).Ok?
    ensures s.ApplyDiff(diff).value.Messages? && s.ApplyDiff(diff).value.queue.limits == s.queue.limits
  {
  }

  /** `b` reports the number it holds. */
  lemma Reports(n: Net, held: seq<Bytes>, num: nat, t: nat) returns (r: Instruction)
    requires Formed(n) && HoldsSingles(n.b, held, num)
    ensures r.oldNum == r.newNum == 0 && r.diff == ViewDiff(QueueKind, [], []) && r.ackNum == r.throwawayNum == num
    ensures var n' := Take(n, AtB(Sending(t)));
            n' == n.(b := n'.b, toA := n.toA + {r}) && HoldsSingles(n'.b, held, num)
  {
    NeverWedged(n.b.chan, n.b.hist);
    r := n.b.chan.NextInstruction().value;
    NoteSentKeeps(n.b.chan, n.b.hist, r, t);
    hide ChannelState.NextInstruction, Shows;
    assert n.b.hist[0] == [];
    hide Sends;
  }

  /** `a` hears the report, and assumes what it names when it ever made that. */
  lemma HearsReport(n: Net, messages: seq<Bytes>, assumed: nat, r: Instruction)
    requires Formed(n) && SendsSingles(n.a, messages, assumed) && r in n.toA
    requires r.oldNum == r.newNum == 0 && r.diff == ViewDiff(QueueKind, [], []) && r.ackNum == r.throwawayNum
    requires assumed < r.ackNum <= |messages|
    ensures var n' := Act(n, Receiving(r));
            n' == n.(a := n'.a) && SendsSingles(n'.a, messages, r.ackNum)
  {
    var c := n.a.chan;
    NothingNew(QUEUE);
    HeardKeeps(c, n.a.hist, r.ackNum, r.throwawayNum);
    ChannelAppliesInOrder(c, n.a.hist, r);
    HeardKeepsLimits(c, r.ackNum, r.throwawayNum);
    hide ChannelState.Heard, SspState.ApplyDiff, Shows, ViewDiff;
  }

  lemma HeardKeepsLimits(c: ChannelState, ackNum: nat, throwawayNum: nat)
    requires c.current.Messages?
    ensures var h := c.Heard(ackNum, throwawayNum).current; h.Messages? && h.queue.limits == c.current.queue.limits
  {
    hide DropBelow;
  }

  // ---------- runs of such endpoints ----------

  /** `steps` lead from `origin` to `n`, where `a` sends and `b` holds these messages. */
  ghost predicate Leads(origin: Net, steps: seq<Step>, n: Net, messages: seq<Bytes>, assumed: nat, held: seq<Bytes>) {
    && Formed(origin) && origin.a.chan.initial == QUEUE && Possible(QueueKind, steps)
    && n == Run(origin, steps)
    && SendsSingles(n.a, messages, assumed) && HoldsSingles(n.b, held, |held|)
  }

  lemma LeadsNowhere(n: Net, messages: seq<Bytes>, assumed: nat, held: seq<Bytes>)
    requires Formed(n) && SendsSingles(n.a, messages, assumed) && HoldsSingles(n.b, held, |held|)
    ensures Leads(n, [], n, messages, assumed, held)
  {
    hide HoldsSingles, Half;
  }

  lemma LeadsFormed(origin: Net, steps: seq<Step>, n: Net, messages: seq<Bytes>, assumed: nat, held: seq<Bytes>)
    requires Leads(origin, steps, n, messages, assumed, held)
    ensures Formed(n) && n.a.chan.initial == QUEUE
    ensures SendsSingles(n.a, messages, assumed) && HoldsSingles(n.b, held, |held|)
  {
    hide SendsSingles, HoldsSingles, Half;
  }

  lemma LeadsOn(origin: Net, steps: seq<Step>, n: Net, messages: seq<Bytes>, assumed: nat, held: seq<Bytes>, step: Step,
                messages': seq<Bytes>, assumed': nat, held': seq<Bytes>)
    requires Leads(origin, steps, n, messages, assumed, held) && Formed(n)
    requires Suits(QueueKind, step.action) && n.a.chan.initial == QUEUE
    requires SendsSingles(Take(n, step).a, messages', assumed') && HoldsSingles(Take(n, step).b, held', |held'|)
    ensures Leads(origin, steps + [step], Take(n, step), messages', assumed', held')
  {
    hide Take, SendsSingles, HoldsSingles, Suits, Formed;
    RunAppends(origin, steps, step);
  }

  /** One more message is queued at `a`. */
  lemma Queued(origin: Net, steps: seq<Step>, n: Net, messages: seq<Bytes>, assumed: nat, held: seq<Bytes>, m: Bytes)
    returns (steps': seq<Step>, n': Net)
    requires Leads(origin, steps, n, messages, assumed, held) && Singles(messages + [m])
    ensures Leads(origin, steps', n', messages + [m], assumed, held) && n'.toB == n.toB
  {
    hide SendsSingles, HoldsSingles, Act, Leads;
    LeadsFormed(origin, steps, n, messages, assumed, held);
    var step := AtA(Offering(PushMessage(m)));
    OneMore(n, messages, assumed, m);
    steps', n' := steps + [step], Take(n, step);
    LeadsOn(origin, steps, n, messages, assumed, held, step, messages + [m], assumed, held);
  }

  /** `b` takes an Instruction that starts where it is. */
  lemma Took(origin: Net, steps: seq<Step>, n: Net, messages: seq<Bytes>, assumed: nat, held: seq<Bytes>,
             i: Instruction, more: seq<Bytes>) returns (steps': seq<Step>, n': Net)
    requires Leads(origin, steps, n, messages, assumed, held) && i in n.toB
    requires i.oldNum == |held| && i.newNum == |held| + |more| && i.diff == EncodeMessages(more) && Singles(held + more)
    requires i.ackNum == i.throwawayNum == 0
    ensures Leads(origin, steps', n', messages, assumed, held + more) && n'.toB == n.toB
  {
    hide SendsSingles, HoldsSingles, Act, Leads, Take;
    LeadsFormed(origin, steps, n, messages, assumed, held);
    var step := AtB(Receiving(i));
    TakesSingles(n, held, |held|, i, more);
    steps', n' := steps + [step], Take(n, step);
    LeadsOn(origin, steps, n, messages, assumed, held, step, messages, assumed, held + more);
  }

  /** `a` sends what is not acknowledged, and `b`, which is there, takes it. */
  lemma Delivered(origin: Net, steps: seq<Step>, n: Net, messages: seq<Bytes>, assumed: nat, held: seq<Bytes>, t: nat)
    returns (steps': seq<Step>, n': Net)
    requires Leads(origin, steps, n, messages, assumed, held) && assumed == |held| <= |messages|
    requires Singles(held + messages[assumed..])
    ensures Leads(origin, steps', n', messages, assumed, held + messages[assumed..]) && n.toB <= n'.toB
  {
    hide SendsSingles, HoldsSingles, Act, Leads;
    LeadsFormed(origin, steps, n, messages, assumed, held);
    var step := AtA(Sending(t));
    var i := SendsAll(n, messages, assumed, t);
    LeadsOn(origin, steps, n, messages, assumed, held, step, messages, assumed, held);
    steps', n' := Took(origin, steps + [step], Take(n, step), messages, assumed, held, i, messages[assumed..]);
  }

  /** `b` reports, and `a` takes its word for it. */
  lemma Acknowledged(origin: Net, steps: seq<Step>, n: Net, messages: seq<Bytes>, assumed: nat, held: seq<Bytes>, t: nat)
    returns (steps': seq<Step>, n': Net)
    requires Leads(origin, steps, n, messages, assumed, held) && assumed < |held| <= |messages|
    ensures Leads(origin, steps', n', messages, |held|, held)
  {
    hide SendsSingles, HoldsSingles, Leads, Take, Act;
    LeadsFormed(origin, steps, n, messages, assumed, held);
    var one := AtB(Sending(t));
    var r := Reports(n, held, |held|, t);
    LeadsOn(origin, steps, n, messages, assumed, held, one, messages, assumed, held);
    var n1 := Take(n, one);
    LeadsFormed(origin, steps + [one], n1, messages, assumed, held);
    var two := AtA(Receiving(r));
    HearsReport(n1, messages, assumed, r);
    TakeIsAct(n1, Receiving(r));
    LeadsOn(origin, steps + [one], n1, messages, assumed, held, two, messages, |held|, held);
    steps', n' := steps + [one] + [two], Take(n1, two);
  }

  lemma TakeIsAct(n: Net, action: Action)
    requires Formed(n) && Suits(n.a.chan.initial.Kind(), action)
    ensures Take(n, AtA(action)) == Act(n, action)
  {
  }

  // ---------- from nothing ----------

  ghost function Nothing(): Net { Start(CHANNEL_MESSAGES, QUEUE, QUEUE, 512, 512) }

  lemma LeadsFromNothing()
    ensures Inv(Nothing()) && Leads(Nothing(), [], Nothing(), [], 0, [])
  {
    StartsInOrder(CHANNEL_MESSAGES, QUEUE, QUEUE, 512, 512);
    LeadsNowhere(Nothing(), [], 0, []);
  }

  /** Two messages queued, delivered and acknowledged, and two more queued. */
  lemma TwoAcknowledged(t: nat) returns (steps: seq<Step>, n: Net, held: seq<Bytes>)
    ensures Inv(n) && Leads(Nothing(), steps, n, [FIRST, SECOND, THIRD, FOURTH], 2, held)
  {
    hide Leads, Half, Nothing;
    LeadsFromNothing();
    steps, n := Queued(Nothing(), [], Nothing(), [], 0, [], FIRST);
    steps, n := Queued(Nothing(), steps, n, [] + [FIRST], 0, [], SECOND);
    assert [] + [FIRST] + [SECOND] == [FIRST, SECOND] == [] + [FIRST, SECOND][0..];
    steps, n := Delivered(Nothing(), steps, n, [FIRST, SECOND], 0, [], t);
    steps, n := Acknowledged(Nothing(), steps, n, [FIRST, SECOND], 0, [FIRST, SECOND], t);
    steps, n := Queued(Nothing(), steps, n, [FIRST, SECOND], 2, [FIRST, SECOND], THIRD);
    steps, n := Queued(Nothing(), steps, n, [FIRST, SECOND] + [THIRD], 2, [FIRST, SECOND], FOURTH);
    assert [FIRST, SECOND] + [THIRD] + [FOURTH] == [FIRST, SECOND, THIRD, FOURTH];
    held := [FIRST, SECOND];
    LeadsKeepsInv(steps, n, [FIRST, SECOND, THIRD, FOURTH], 2, held);
  }

  lemma LeadsKeepsInv(steps: seq<Step>, n: Net, messages: seq<Bytes>, assumed: nat, held: seq<Bytes>)
    requires Inv(Nothing()) && Leads(Nothing(), steps, n, messages, assumed, held)
    ensures Inv(n)
  {
    hide Half, SendsSingles, HoldsSingles;
  }

  /** The peer restarts, and the survivor sends once more before it hears of it. */
  lemma SendsOnceMore(n: Net, t: nat) returns (o: Net, i: Instruction)
    requires Inv(n) && Formed(n) && SendsSingles(n.a, [FIRST, SECOND, THIRD, FOURTH], 2)
    ensures Overlap(Restarted(n, QUEUE, 512)) && AllDeaf(QueueKind, [AtA(Sending(t))])
    ensures o == OverlapRun(Restarted(n, QUEUE, 512), [AtA(Sending(t))])
    ensures i in o.toB && i.oldNum == 2 && i.newNum == 4 && i.diff == EncodeMessages([THIRD, FOURTH])
    ensures i.ackNum == i.throwawayNum == 0
    ensures SendsSingles(o.a, [FIRST, SECOND, THIRD, FOURTH], 2)
    ensures o.b == Restarted(n, QUEUE, 512).b
  {
    hide Half, Overlap, SendsSingles;
    SinglesInOrder(n);
    RestartOverlaps(n, QUEUE, 512);
    var lone := Restarted(n, QUEUE, 512);
    OverlapChains(lone);
    var step := AtA(Sending(t));
    i := SendsAll(lone, [FIRST, SECOND, THIRD, FOURTH], 2, t);
    assert [FIRST, SECOND, THIRD, FOURTH][2..] == [THIRD, FOURTH];
    StepOverlaps(lone, step);
    RunNil(OverlapStep(lone, step));
    RunCons(lone, step, []);
    assert [step] + [] == [step];
    o := OverlapRun(lone, [step]);
    hide Act;
  }

  lemma SinglesInOrder(n: Net)
    requires Inv(n) && SendsSingles(n.a, [FIRST, SECOND, THIRD, FOURTH], 2)
    ensures CanStart(n.a.chan.id, n.a.chan.initial, QUEUE)
    ensures n.a.chan.initial == QUEUE
  {
  }

  /** Having heard, it numbers the two messages it owes anew. */
  lemma StartsOver(n: Net, o: Net)
    requires Overlap(o) && SendsSingles(o.a, [FIRST, SECOND, THIRD, FOURTH], 2)
    requires o.b == Restarted(n, QUEUE, 512).b && n.a.chan.id == CHANNEL_MESSAGES
    ensures Rebased.requires(o) && Formed(Rebased(o))
    ensures SendsSingles(Rebased(o).a, [THIRD, FOURTH], 0) && HoldsSingles(Rebased(o).b, [], 0)
  {
    RebasedIsFormed(o);
    Restart.ResetKeepsPending(o.a.chan, o.a.hist);
    assert [FIRST, SECOND, THIRD, FOURTH][2..] == [THIRD, FOURTH];
    NewChannelSends(CHANNEL_MESSAGES, QUEUE, 512);
    ResetKeepsLimits(o.a.chan);
    hide Overlap, Sends, Shows;
  }

  lemma ResetKeepsLimits(c: ChannelState)
    requires c.Typed() && c.initial.Messages?
    ensures var r := c.ResetPeer();
            && r.current.Messages? && r.current.queue.limits == c.current.queue.limits
            && r.maxSent == c.maxSent && r.assumed == 0
  {
  }

  /**
   * From nothing: a run after which the fresh peer holds two messages twice, and two that its
   * peer queued later count as received although they were never sent.
   */
  lemma DoubleDeliveryHappens(t: nat) returns (before: seq<Step>, between: seq<Step>, after: seq<Step>)
    ensures Inv(Nothing()) && Possible(QueueKind, before) && Possible(QueueKind, after)
    ensures var n := Run(Nothing(), before);
            && Overlap(Restarted(n, QUEUE, 512)) && AllDeaf(QueueKind, between)
            && var o := OverlapRun(Restarted(n, QUEUE, 512), between);
            && Rebased.requires(o) && Formed(Rebased(o)) && Rebased(o).a.chan.initial == QUEUE
            && var m := Run(Rebased(o), after);
            && Newest(m.a.hist) == [THIRD, FOURTH, FIFTH, SIXTH]
            && m.b.delivered == [] && Shows(m.b.chan.received, [THIRD, FOURTH, THIRD, FOURTH])
            && m.b.chan.receivedNum == 4 && !m.a.chan.IsPending()
  {
    hide Half, Overlap, SendsSingles, HoldsSingles, Leads, Run, OverlapRun, Nothing;
    LeadsFromNothing();
    var n, held;
    before, n, held := TwoAcknowledged(t);
    LeadsFormed(Nothing(), before, n, [FIRST, SECOND, THIRD, FOURTH], 2, held);
    LeadsThere(Nothing(), before, n, [FIRST, SECOND, THIRD, FOURTH], 2, held);
    var o, i := SendsOnceMore(n, t);
    between := [AtA(Sending(t))];
    SinglesInOrderId(n);
    StartsOver(n, o);
    var m;
    after, m := AfterRebase(Rebased(o), i, t);
    LeadsThere(Rebased(o), after, m, [THIRD, FOURTH, FIFTH, SIXTH], 4, [THIRD, FOURTH, THIRD, FOURTH]);
  }

  lemma SinglesInOrderId(n: Net)
    requires SendsSingles(n.a, [FIRST, SECOND, THIRD, FOURTH], 2)
    ensures n.a.chan.id == CHANNEL_MESSAGES
  {
  }

  lemma LeadsThere(origin: Net, steps: seq<Step>, n: Net, messages: seq<Bytes>, assumed: nat, held: seq<Bytes>)
    requires Leads(origin, steps, n, messages, assumed, held)
    ensures Formed(origin) && origin.a.chan.initial == QUEUE && Possible(QueueKind, steps) && n == Run(origin, steps)
    ensures Newest(n.a.hist) == messages && n.b.delivered == [] && Shows(n.b.chan.received, held)
    ensures n.b.chan.receivedNum == |held| && (assumed == |messages| ==> !n.a.chan.IsPending())
  {
    hide Run;
  }

  lemma AfterRebase(m0: Net, i: Instruction, t: nat) returns (after: seq<Step>, m: Net)
    requires Formed(m0) && SendsSingles(m0.a, [THIRD, FOURTH], 0) && HoldsSingles(m0.b, [], 0) && i in m0.toB
    requires i.oldNum == 2 && i.newNum == 4 && i.diff == EncodeMessages([THIRD, FOURTH]) && i.ackNum == i.throwawayNum == 0
    ensures Leads(m0, after, m, [THIRD, FOURTH, FIFTH, SIXTH], 4, [THIRD, FOURTH, THIRD, FOURTH])
  {
    hide SendsSingles, HoldsSingles, Leads;
    var two, twice := [THIRD, FOURTH], [THIRD, FOURTH, THIRD, FOURTH];
    LeadsNowhere(m0, two, 0, []);
    assert [] + two[0..] == two && two + two == twice;
    after, m := Delivered(m0, [], m0, two, 0, [], t);
    after, m := Took(m0, after, m, two, 0, two, i, two);
    after, m := Queued(m0, after, m, two, 0, twice, FIFTH);
    after, m := Queued(m0, after, m, two + [FIFTH], 0, twice, SIXTH);
    assert two + [FIFTH] + [SIXTH] == [THIRD, FOURTH, FIFTH, SIXTH];
    after, m := Acknowledged(m0, after, m, [THIRD, FOURTH, FIFTH, SIXTH], 0, twice, t);
  }
}
