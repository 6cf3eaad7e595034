/** One channel's half of the state synchronisation protocol. */
module Channels {
  import opened Bytes
  import opened Protocol
  import opened Wrappers
  import opened Packets
  import opened SspStates

  datatype Sent = Sent(num: nat, state: SspState)

  // ---------- the channel as a value ----------

  datatype ChannelState = ChannelState(
    id: nat,
    initial: SspState,
    current: SspState,
    currentNum: nat,
    sent: seq<Sent>,
    assumed: nat,
    received: SspState,
    receivedNum: nat,
    sentNum: nat,
    lastSentMs: Option<nat>,
    maxSent: nat)
  {
    /** The types the program's generic parameter enforces, and the always retained front state. */
    ghost predicate Typed() {
      && sent != []
      && current.Kind() == initial.Kind() == received.Kind()
      && (forall s | s in sent :: s.state.Kind() == initial.Kind())
      && (id == CHANNEL_MESSAGES <==> initial.Messages?)
    }

    function IsPending(): bool { currentNum > assumed }

    function HasUnsentChange(): bool { currentNum > sentNum }

    function Advance(change: Change): Result<ChannelState, TransportError>
      requires Typed() && change.Kind() == initial.Kind()
    {
      if |sent| >= maxSent then Err(QueueOverflow)
      else
        match current.Changed(change)
        case Err(e) => Err(State(e))
        case Ok(next) =>
          Ok(this.(current := next, currentNum := currentNum + 1, sent := sent + [Sent(currentNum + 1, next)]))
    }

    /** Octets from the assumed receiver state to the `k`-th retained one. */
    function StepDiff(k: nat): Bytes
      requires Typed() && k < |sent|
    {
      sent[k].state.DiffFrom(sent[0].state)
    }

    /** How far the walk through the history gets before the first diff that is too large. */
    function Reach(k: nat): (r: nat)
      requires Typed() && k < |sent|
      ensures k <= r < |sent|
      decreases |sent| - k
    {
      if k + 1 < |sent| && |StepDiff(k + 1)| <= MAX_DIFF_LEN then Reach(k + 1) else k
    }

    /** The walk ends on a step that fits, in front of the first one that does not. */
    lemma {:induction false} ReachStops(k: nat)
      requires Typed() && k < |sent|
      ensures var r := Reach(k);
              && (k < r ==> |StepDiff(r)| <= MAX_DIFF_LEN)
              && (r + 1 < |sent| ==> |StepDiff(r + 1)| > MAX_DIFF_LEN)
      decreases |sent| - k
    {
      hide StepDiff;
      if k + 1 < |sent| && |StepDiff(k + 1)| <= MAX_DIFF_LEN {
        ReachStops(k + 1);
      }
    }

    function InstructionWith(newNum: nat, diff: Bytes): Instruction {
      Instruction(id, assumed, newNum, receivedNum, receivedNum, diff)
    }

    function NextInstruction(): Result<Instruction, TransportError>
      requires Typed()
    {
      var full := current.DiffFrom(sent[0].state);
      if |full| <= MAX_DIFF_LEN then Ok(InstructionWith(currentNum, full))
      else
        var k := Reach(0);
        if k == 0 then Err(DiffTooLarge(|full|, MAX_DIFF_LEN))
        else Ok(InstructionWith(sent[k].num, StepDiff(k)))
    }

    lemma InstructionNumber()
      requires Typed() && NextInstruction().Ok?
      ensures NextInstruction().value.newNum
           == if |current.DiffFrom(sent[0].state)| <= MAX_DIFF_LEN then currentNum else sent[Reach(0)].num
    {
      hide StepDiff, Reach;
    }

    function NoteSent(i: Instruction, nowMs: nat): ChannelState {
      this.(sentNum := if sentNum >= i.newNum then sentNum else i.newNum, lastSentMs := Some(nowMs))
    }

    predicate Retains(num: nat) {
      exists k | 0 <= k < |sent| :: sent[k].num == num
    }

    function Acknowledge(ackNum: nat): ChannelState {
      if ackNum <= assumed || !Retains(ackNum) then this
      else this.(assumed := ackNum, sent := DropBelow(sent, ackNum))
    }

    /** The acknowledgement half of `apply`: it happens whatever becomes of the diff. */
    function Heard(ackNum: nat, throwawayNum: nat): ChannelState {
      var c := Acknowledge(ackNum);
      c.(current := c.current.ReleaseThrough(if throwawayNum <= c.assumed then throwawayNum else c.assumed))
    }

    function Apply(i: Instruction): (ChannelState, Result<bool, TransportError>) {
      var c := Heard(i.ackNum, i.throwawayNum);
      if i.oldNum != c.receivedNum then (c, Ok(false))
      else
        match c.received.ApplyDiff(i.diff)
        case Err(e) => (c, Err(State(e)))
        case Ok(r) => (c.(received := r, receivedNum := i.newNum), Ok(i.newNum > c.receivedNum))
    }

    function ResetPeer(): ChannelState
      requires Typed()
    {
      if id == CHANNEL_MESSAGES then
        var rebased := current.ResetOrigin();
        var num := rebased.queue.Num();
        Restarted(rebased, num, PushRebased(RebasedQueues(sent, assumed, initial), num, rebased))
      else
        var steps := current.RebaseSteps();
        var history := [Sent(0, initial)] + NumberFromOne(steps);
        if steps == [] then Restarted(current, 1, history + [Sent(1, current)])
        else Restarted(current, |steps|, history)
    }

    function Restarted(rebased: SspState, num: nat, history: seq<Sent>): ChannelState {
      this.(current := rebased, currentNum := num, sent := history, assumed := 0,
            received := initial, receivedNum := 0, sentNum := 0, lastSentMs := None)
    }
  }

  function NewChannel(id: nat, initial: SspState, maxSent: nat): ChannelState {
    ChannelState(id, initial, initial, 0, [Sent(0, initial)], 0, initial, 0, 0, None, maxSent)
  }

  function DropBelow(sent: seq<Sent>, num: nat): seq<Sent> {
    if sent != [] && sent[0].num < num then DropBelow(sent[1..], num) else sent
  }

  function NumberFromOne(states: seq<SspState>): seq<Sent> {
    seq(|states|, k requires 0 <= k < |states| => Sent(k + 1, states[k]))
  }

  /** Append a rebased state unless it is empty or repeats the number at the back. */
  function PushRebased(history: seq<Sent>, num: nat, state: SspState): (r: seq<Sent>)
    requires history != []
    ensures r != []
  {
    if num > 0 && history[|history| - 1].num != num then history + [Sent(num, state)] else history
  }

  function RebasedQueue(state: SspState, assumed: nat): SspState {
    state.ReleaseThrough(assumed).ResetOrigin()
  }

  function RebasedQueues(sent: seq<Sent>, assumed: nat, initial: SspState): (r: seq<Sent>)
    requires forall s | s in sent :: s.state.Messages?
    ensures r != []
  {
    if sent == [] then [Sent(0, initial)]
    else
      var done := RebasedQueues(sent[..|sent| - 1], assumed, initial);
      var last := sent[|sent| - 1];
      if last.num > assumed then
        var rebased := RebasedQueue(last.state, assumed);
        PushRebased(done, rebased.queue.Num(), rebased)
      else done
  }

  lemma {:induction false} DropKeepsTarget(sent: seq<Sent>, num: nat)
    requires exists k | 0 <= k < |sent| :: sent[k].num == num
    ensures DropBelow(sent, num) != [] && forall s | s in DropBelow(sent, num) :: s in sent
    decreases |sent|
  {
    var k :| 0 <= k < |sent| && sent[k].num == num;
    if sent[0].num < num {
      assert sent[1..][k - 1].num == num;
      DropKeepsTarget(sent[1..], num);
    }
  }

  lemma ApplyIsTyped(c: ChannelState, i: Instruction)
    requires c.Typed()
    ensures c.Apply(i).0.Typed() && c.Apply(i).0.id == c.id
  {
    if c.Retains(i.ackNum) {
      DropKeepsTarget(c.sent, i.ackNum);
    }
  }

  lemma {:induction false} RebasedQueuesTyped(sent: seq<Sent>, assumed: nat, initial: SspState)
    requires initial.Messages? && forall s | s in sent :: s.state.Messages?
    ensures forall s | s in RebasedQueues(sent, assumed, initial) :: s.state.Messages?
    decreases |sent|
  {
    if sent != [] {
      RebasedQueuesTyped(sent[..|sent| - 1], assumed, initial);
    }
  }

  lemma ResetIsTyped(c: ChannelState)
    requires c.Typed()
    ensures c.ResetPeer().Typed() && c.ResetPeer().id == c.id
  {
    if c.id == CHANNEL_MESSAGES {
      RebasedQueuesTyped(c.sent, c.assumed, c.initial);
    }
  }

  // ---------- the channel as the program keeps it ----------

  class Channel {
    const id: nat
    const initial: SspState
    var current: SspState
    var currentNum: nat
    var sentStates: seq<Sent>
    var assumedReceiverNum: nat
    var received: SspState
    var receivedNum: nat
    var sentNum: nat
    var lastSentMs: Option<nat>
    const maxSentStates: nat

    function Value(): ChannelState
      reads this
    {
      ChannelState(id, initial, current, currentNum, sentStates, assumedReceiverNum, received, receivedNum,
                   sentNum, lastSentMs, maxSentStates)
    }

    constructor (id: nat, initial: SspState, maxSentStates: nat)
      ensures Value() == NewChannel(id, initial, maxSentStates)
    {
      this.id, this.initial, this.maxSentStates := id, initial, maxSentStates;
      current, currentNum, sentStates, assumedReceiverNum := initial, 0, [Sent(0, initial)], 0;
      received, receivedNum, sentNum, lastSentMs := initial, 0, 0, None;
    }

    /** Take on a changed copy of the current state, or refuse and keep everything. */
    method Advance(change: Change) returns (r: Result<(), TransportError>)
      requires Value().Typed() && change.Kind() == initial.Kind()
      modifies this
      ensures r.Err? ==> Value() == old(Value())
      ensures old(Value()).Advance(change) == if r.Ok? then Ok(Value()) else Err(r.error)
    {
      if |sentStates| >= maxSentStates {
        return Err(QueueOverflow);
      }
      var next := current.Changed(change);
      if next.Err? {
        return Err(State(next.error));
      }
      current := next.value;
      currentNum := currentNum + 1;
      sentStates := sentStates + [Sent(currentNum, current)];
      r := Ok(());
    }

    /** The newest state that fits one datagram: the current one, or the last the walk reaches. */
    method NextInstruction() returns (r: Result<Instruction, TransportError>)
      requires Value().Typed()
      ensures r == Value().NextInstruction()
    {
      var base := sentStates[0].state;
      var full := current.DiffFrom(base);
      if |full| <= MAX_DIFF_LEN {
        return Ok(Value().InstructionWith(currentNum, full));
      }
      var chosen: Option<(nat, Bytes)> := None;
      var k := 1;
      while k < |sentStates|
        invariant 1 <= k <= |sentStates|
        invariant Value().Reach(0) == Value().Reach(k - 1)
        invariant chosen == if k == 1 then None else Some((sentStates[k - 1].num, Value().StepDiff(k - 1)))
      {
        var diff := sentStates[k].state.DiffFrom(base);
        if |diff| > MAX_DIFF_LEN {
          break;
        }
        chosen := Some((sentStates[k].num, diff));
        k := k + 1;
      }
      match chosen
      case Some((num, diff)) => r := Ok(Value().InstructionWith(num, diff));
      case None => r := Err(DiffTooLarge(|full|, MAX_DIFF_LEN));
    }

    method NoteSent(i: Instruction, nowMs: nat)
      modifies this
      ensures Value() == old(Value()).NoteSent(i, nowMs)
      ensures sentNum >= old(sentNum) && sentNum >= i.newNum && (sentNum == old(sentNum) || sentNum == i.newNum)
      ensures Value().HasUnsentChange() <==> old(Value()).HasUnsentChange() && i.newNum < currentNum
    {
      sentNum := if sentNum >= i.newNum then sentNum else i.newNum;
      lastSentMs := Some(nowMs);
    }

    /** Move the assumed receiver state to an acknowledged one and free everything below it. */
    method Acknowledge(ackNum: nat)
      modifies this
      ensures Value() == old(Value()).Acknowledge(ackNum)
    {
      if ackNum <= assumedReceiverNum {
        return;
      }
      if !Value().Retains(ackNum) {
        return;
      }
      assumedReceiverNum := ackNum;
      ghost var before := Value();
      while sentStates != [] && sentStates[0].num < ackNum
        invariant Value() == before.(sent := sentStates)
        invariant DropBelow(sentStates, ackNum) == DropBelow(before.sent, ackNum)
        decreases |sentStates|
      {
        sentStates := sentStates[1..];
      }
    }

    /** Hear the acknowledgement, then apply the diff only when it starts at the held state. */
    method Apply(i: Instruction) returns (r: Result<bool, TransportError>)
      modifies this
      ensures old(Value()).Apply(i) == (Value(), r)
    {
      Acknowledge(i.ackNum);
      var through := if i.throwawayNum <= assumedReceiverNum then i.throwawayNum else assumedReceiverNum;
      current := current.ReleaseThrough(through);
      if i.oldNum != receivedNum {
        return Ok(false);
      }
      var applied := received.ApplyDiff(i.diff);
      if applied.Err? {
        return Err(State(applied.error));
      }
      received := applied.value;
      var advanced := i.newNum > receivedNum;
      receivedNum := i.newNum;
      r := Ok(advanced);
    }

    /** The unacknowledged queue states, rebased one by one onto an empty origin. */
    method RebaseQueues() returns (history: seq<Sent>)
      requires Value().Typed() && initial.Messages?
      ensures history == RebasedQueues(sentStates, assumedReceiverNum, initial)
    {
      history := [Sent(0, initial)];
      for k := 0 to |sentStates|
        invariant history == RebasedQueues(sentStates[..k], assumedReceiverNum, initial)
      {
        assert sentStates[..k + 1][..k] == sentStates[..k];
        if sentStates[k].num > assumedReceiverNum {
          var rebased := sentStates[k].state.ReleaseThrough(assumedReceiverNum);
          rebased := rebased.ResetOrigin();
          var num := rebased.queue.Num();
          if num > 0 && history[|history| - 1].num != num {
            history := history + [Sent(num, rebased)];
          }
        }
      }
      assert sentStates[..|sentStates|] == sentStates;
    }

    /** The current state, rebuilt step by step from the empty one, and the number it ends up with. */
    method RebaseSteps() returns (history: seq<Sent>, num: nat)
      requires Value().Typed() && initial.Screen?
      ensures var steps := current.RebaseSteps();
              && num == (if steps == [] then 1 else |steps|)
              && history == [Sent(0, initial)] + NumberFromOne(steps) + if steps == [] then [Sent(1, current)] else []
    {
      history := [Sent(0, initial)];
      var newNum := 1;
      num := 0;
      var steps := current.RebaseSteps();
      for k := 0 to |steps|
        invariant newNum == k + 1 && num == k
        invariant history == [Sent(0, initial)] + NumberFromOne(steps)[..k]
      {
        history := history + [Sent(newNum, steps[k])];
        num := newNum;
        newNum := newNum + 1;
      }
      if newNum == 1 {
        num := 1;
        history := history + [Sent(1, current)];
      }
    }

    /** Rebase the unacknowledged states onto a peer that starts again at state 0. */
    method ResetPeer()
      requires Value().Typed()
      modifies this
      ensures Value() == old(Value()).ResetPeer()
    {
      var history: seq<Sent>;
      if id == CHANNEL_MESSAGES {
        history := RebaseQueues();
        current := current.ResetOrigin();
        currentNum := current.queue.Num();
        if currentNum > 0 && history[|history| - 1].num != currentNum {
          history := history + [Sent(currentNum, current)];
        }
      } else {
        history, currentNum := RebaseSteps();
      }
      sentStates := history;
      assumedReceiverNum := 0;
      received := initial;
      receivedNum := 0;
      sentNum := 0;
      lastSentMs := None;
    }

    /** Hand every received message upward; only the held queue changes. */
    method DrainReceived() returns (taken: seq<Bytes>)
      requires received.Messages?
      modifies this
      ensures taken == old(received.queue.messages)
      ensures Value() == old(Value()).(received := Messages(old(received.queue).Drain()))
    {
      taken := received.queue.messages;
      received := Messages(received.queue.Drain());
    }
  }
}
