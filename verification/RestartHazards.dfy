/**
 * What happens when a rebase is not safe: a fresh peer that took an acknowledgement meant for
 * its predecessor is never heard again, and a grid can be mixed from two.
 */
module RestartHazards {
  import opened Bytes
  import opened Channels
  import opened Chunks
  import Convergence
  import opened Delivery
  import opened Histories
  import MessageQueues
  import opened Overlaps
  import opened Packets
  import opened Protocol
  import Restart
  import opened RowGrids
  import opened ScreenFrames
  import opened SspStates
  import opened Wrappers

  // ---------- a stale acknowledgement ----------

  /** What takes a fresh receiver on from state 0. */
  predicate Lands(initial: SspState, i: Instruction) {
    i.oldNum == 0 && i.newNum > 0 && initial.ApplyDiff(i.diff).Ok?
  }

  /** `a` holds state 0 of `b`, `b` believes it holds a later one, and nothing in flight is of use. */
  ghost predicate Starved(n: Net) {
    && Formed(n)
    && n.a.chan.receivedNum == 0
    && n.a.chan.received == n.a.chan.initial && Histories.Fresh(n.a.chan.initial)
    && n.a.delivered == []
    && n.b.chan.assumed > 0
    && (forall i | i in n.toA :: IsUseless(n.a.chan.initial, i))
  }

  ghost predicate IsUseless(initial: SspState, i: Instruction) {
    && !Lands(initial, i)
    && (i.oldNum == i.newNum == 0 ==> initial.ApplyDiff(i.diff) == Ok(initial))
  }

  /** Everything `a`'s application was or can be given. */
  function Got(e: Endpoint): seq<Bytes> {
    e.delivered + if e.chan.received.Messages? then e.chan.received.queue.messages else e.chan.received.grid.rows
  }

  /** Over every run, whatever either end does: `a` stays at state 0 and is given nothing. */
  ghost predicate NothingComes(n: Net)
    requires Formed(n)
  {
    forall steps | Possible(n.a.chan.initial.Kind(), steps) ::
      Run(n, steps).a.chan.receivedNum == 0 && Got(Run(n, steps).a) == []
  }

  /** Whatever `a` does, it stays starved. */
  lemma StarvedActs(n: Net, action: Action)
    requires Starved(n) && Suits(n.a.chan.initial.Kind(), action)
    ensures Starved(Act(n, action))
  {
    ActStaysFormed(n, action);
    match action
    case Offering(change) =>
      if Offer(n.a.chan, change).Ok? {
        OfferedIsTyped(n.a.chan, change);
      }
      hide Offer, ChannelState.Typed;
    case Receiving(i) =>
      HeardIsLocal(n.a.chan, i.ackNum, i.throwawayNum);
      hide ChannelState.Heard, SspState.ApplyDiff, ChannelState.Typed;
    case _ =>
      hide ChannelState.NextInstruction, ChannelState.Typed;
  }

  /** Whatever `b` does, `a` stays starved. */
  lemma StarvedPeerActs(n: Net, action: Action)
    requires Starved(n) && Suits(n.a.chan.initial.Kind(), action)
    ensures Starved(Flip(Act(Flip(n), action)))
  {
    ActStaysFormed(Flip(n), action);
    match action
    case Offering(change) =>
      if Offer(n.b.chan, change).Ok? {
        OfferedIsTyped(n.b.chan, change);
      }
      hide Offer, ChannelState.Typed;
    case Receiving(i) =>
      HeardOnlyMovesOn(n.b.chan, i);
      hide ChannelState.Apply;
    case Sending(nowMs) =>
      SendsFromAssumed(n.b.chan);
      hide ChannelState.NextInstruction;
    case _ =>
  }

  lemma HeardOnlyMovesOn(c: ChannelState, i: Instruction)
    requires c.Typed()
    ensures c.Apply(i).0.assumed >= c.assumed
    ensures i.oldNum != c.receivedNum ==> c.Apply(i).0.received == c.received && c.Apply(i).0.receivedNum == c.receivedNum
  {
    HeardIsLocal(c, i.ackNum, i.throwawayNum);
    hide DropBelow;
  }

  lemma SendsFromAssumed(c: ChannelState)
    requires c.Typed()
    ensures c.NextInstruction().Ok? ==> c.NextInstruction().value.oldNum == c.assumed
  {
    hide ChannelState.Reach, ChannelState.StepDiff;
  }

  lemma StarvedSteps(n: Net, step: Step)
    requires Starved(n) && Suits(n.a.chan.initial.Kind(), step.action)
    ensures Starved(Take(n, step))
  {
    hide Starved, Act;
    match step
    case AtA(action) => StarvedActs(n, action);
    case AtB(action) => StarvedPeerActs(n, action);
  }

  lemma {:induction false} StarvedRuns(n: Net, steps: seq<Step>)
    requires Starved(n) && Possible(n.a.chan.initial.Kind(), steps)
    ensures Starved(Run(n, steps))
    decreases steps
  {
    hide IsUseless, Take;
    if steps != [] {
      assert steps[0] in steps;
      StarvedSteps(n, steps[0]);
      TakeStaysFormed(n, steps[0]);
      StarvedRuns(Take(n, steps[0]), steps[1..]);
    }
  }

  lemma StarvedGetsNothing(n: Net)
    requires Starved(n)
    ensures NothingComes(n)
  {
    forall steps | Possible(n.a.chan.initial.Kind(), steps)
      ensures Run(n, steps).a.chan.receivedNum == 0 && Got(Run(n, steps).a) == []
    {
      StarvedRuns(n, steps);
    }
    hide Run;
  }

  /** A diff from nothing to nothing. */
  lemma NothingNew(initial: SspState)
    requires Histories.Fresh(initial)
    ensures initial.ApplyDiff(ViewDiff(initial.Kind(), [], [])) == Ok(initial)
  {
    var nothing: View := [];
    assert nothing[|nothing|..] == nothing;
    if initial.Messages? {
      MessageQueues.EncodedMessagesParse([]);
      assert initial.queue.messages + [] == [];
    } else {
      DiffRebuilds(EMPTY_GRID, EMPTY_GRID);
    }
  }

  lemma UselessFromFresh(n: Net, i: Instruction)
    requires Overlap(n) && i in n.toA && !Lands(n.a.chan.initial, i)
    ensures IsUseless(n.a.chan.initial, i)
  {
    assert FromFresh(n, i);
    NothingNew(n.a.chan.initial);
    hide SspState.ApplyDiff, ViewDiff, Shows, HoldsOld;
  }

  lemma LandsFirst(n: Net, i: Instruction)
    requires Formed(n) && i in n.toA && n.a.chan.receivedNum == 0 && n.a.chan.received == n.a.chan.initial
    requires Lands(n.a.chan.initial, i)
    ensures Possible(n.a.chan.initial.Kind(), [AtA(Receiving(i))])
    ensures Run(n, [AtA(Receiving(i))]).a.chan.receivedNum > 0
  {
    HeardIsLocal(n.a.chan, i.ackNum, i.throwawayNum);
    assert [AtA(Receiving(i))][1..] == [];
    hide ChannelState.Heard, SspState.ApplyDiff;
    assert Run(n, [AtA(Receiving(i))]) == Take(n, AtA(Receiving(i)));
  }

  /**
   * Once the fresh peer took a stale acknowledgement, the survivor is never again given anything
   * the peer sends, over every run after the rebase, if and only if nothing is in flight that the
   * peer sent before it and that takes a fresh receiver on.
   */
  lemma StaleAckStarves(n: Net)
    requires Overlap(n) && n.b.chan.assumed > 0
    ensures Rebased.requires(n) && Formed(Rebased(n))
    ensures NothingComes(Rebased(n)) <==> forall i | i in n.toA :: !Lands(n.a.chan.initial, i)
  {
    hide Overlap, NothingComes, Lands, Formed, Rebased, Starved;
    RebasedIsFormed(n);
    if forall i | i in n.toA :: !Lands(n.a.chan.initial, i) {
      RebasedStarves(n);
      StarvedGetsNothing(Rebased(n));
    } else {
      var i :| i in n.toA && Lands(n.a.chan.initial, i);
      RebasedListens(n, i);
    }
  }

  lemma RebasedStarves(n: Net)
    requires Overlap(n) && n.b.chan.assumed > 0 && forall i | i in n.toA :: !Lands(n.a.chan.initial, i)
    ensures Rebased.requires(n) && Starved(Rebased(n))
  {
    RebasedIsFormed(n);
    FreshStart(n);
    OverlapStartsFresh(n);
    forall i | i in n.toA
      ensures IsUseless(n.a.chan.initial, i)
    {
      UselessFromFresh(n, i);
    }
    hide Overlap, IsUseless, Lands, ChannelState.ResetPeer, Formed, Owed;
  }

  lemma RebasedListens(n: Net, i: Instruction)
    requires Overlap(n) && i in n.toA && Lands(n.a.chan.initial, i)
    ensures Rebased.requires(n) && Formed(Rebased(n)) && !NothingComes(Rebased(n))
  {
    RebasedIsFormed(n);
    FreshStart(n);
    LandsFirst(Rebased(n), i);
    hide Overlap, Lands, ChannelState.ResetPeer, Formed, Owed, Run;
  }

  lemma OverlapStartsFresh(n: Net)
    requires Overlap(n)
    ensures Histories.Fresh(n.a.chan.initial)
  {
  }

  const QUEUE: SspState := Messages(MessageQueues.EmptyQueue(MessageQueues.DEFAULT_LIMITS))

  /** A link over which one message has come to `a`. */
  lemma OneMessageCame(t: nat) returns (n: Net)
    ensures Inv(n) && n.a.chan.id == CHANNEL_MESSAGES
    ensures n.a.chan.initial == QUEUE && n.a.chan.receivedNum == 1
  {
    var start := Start(CHANNEL_MESSAGES, QUEUE, QUEUE, 512, 512);
    StartsInOrder(CHANNEL_MESSAGES, QUEUE, QUEUE, 512, 512);
    var m := OneMessageSent(start, t);
    n := Flip(m);
    hide Half;
    assert Flip(Flip(m)) == m;
  }

  lemma OneMessageSent(start: Net, t: nat) returns (m: Net)
    requires Inv(start) && start == Start(CHANNEL_MESSAGES, QUEUE, QUEUE, 512, 512)
    ensures Inv(m) && m.b.chan.id == CHANNEL_MESSAGES && m.b.chan.initial == QUEUE && m.b.chan.receivedNum == 1
  {
    var queued := Act(start, Offering(PushMessage([])));
    ActKeeps(start, Offering(PushMessage([])));
    assert queued.a.chan.currentNum == 1 && queued.b == start.b && queued.a.chan.initial == QUEUE;
    Convergence.DefaultsAreReceptive(queued);
    Convergence.Converges(queued, 1, t);
    Convergence.ExchangesExactly(queued, 1, t);
    m := Convergence.Exchanges(queued, 1, t);
    SameIds(m);
    hide Half, Convergence.Exchanges, Act;
  }

  lemma SameIds(n: Net)
    requires Inv(n)
    ensures n.a.chan.id == n.b.chan.id && (n.a.chan.id == CHANNEL_MESSAGES <==> n.a.chan.initial.Messages?)
  {
  }

  lemma RunCons(n: Net, step: Step, rest: seq<Step>)
    requires Overlap(n) && Deaf(n.a.chan.initial.Kind(), step) && AllDeaf(n.a.chan.initial.Kind(), rest)
    ensures AllDeaf(n.a.chan.initial.Kind(), [step] + rest)
    ensures Overlap(OverlapStep(n, step)) && OverlapStep(n, step).a.chan.initial == n.a.chan.initial
    ensures OverlapRun(n, [step] + rest) == OverlapRun(OverlapStep(n, step), rest)
  {
    hide Overlap, Take;
    OverlapChains(n);
    StepOverlaps(n, step);
    OverlapChains(Take(n, step));
    assert ([step] + rest)[1..] == rest;
  }

  lemma RunNil(n: Net)
    requires Overlap(n)
    ensures AllDeaf(n.a.chan.initial.Kind(), []) && OverlapRun(n, []) == n
  {
    hide Overlap;
  }

  /**
   * From every state in which the survivor has received one message, three steps starve it: its
   * fresh peer queues a message, the survivor sends, and the fresh peer hears that first.
   */
  lemma StarvationFrom(n: Net, t: nat) returns (between: seq<Step>)
    requires Inv(n) && n.a.chan.initial == QUEUE && n.a.chan.receivedNum == 1 && n.a.chan.id == CHANNEL_MESSAGES
    ensures Overlap(Restarted(n, QUEUE, 512)) && AllDeaf(QueueKind, between)
    ensures var o := OverlapRun(Restarted(n, QUEUE, 512), between);
            o.b.chan.assumed == 1 && o.toA == {} && !Safe(o)
  {
    RestartOverlaps(n, QUEUE, 512);
    hide Overlap, OverlapStep, OverlapRun, ChannelState.NextInstruction, ChannelState.Apply, Half, Restarted;
    LoneQueue(n);
    between := ThreeStepsStarve(Restarted(n, QUEUE, 512), t);
  }

  lemma LoneQueue(n: Net)
    ensures var o := Restarted(n, QUEUE, 512);
            && o.b.chan == NewChannel(n.a.chan.id, QUEUE, 512) && o.a == n.a && o.toA == {}
  {
  }

  lemma ThreeStepsStarve(o1: Net, t: nat) returns (between: seq<Step>)
    requires Overlap(o1) && o1.a.chan.initial == QUEUE && o1.a.chan.receivedNum == 1 && o1.toA == {}
    requires o1.b.chan == NewChannel(CHANNEL_MESSAGES, QUEUE, 512)
    ensures AllDeaf(QueueKind, between)
    ensures var o := OverlapRun(o1, between); o.b.chan.assumed == 1 && o.toA == {} && !Safe(o)
  {
    hide Overlap, OverlapStep, OverlapRun, ChannelState.NextInstruction, ChannelState.Apply, NewChannel, Safe;
    var one := AtB(Offering(PushMessage([])));
    FreshQueued(o1);
    StepOverlaps(o1, one);
    var o2 := OverlapStep(o1, one);
    SurvivorSent(o2, t);
    var two := AtA(Sending(t));
    StepOverlaps(o2, two);
    var o3 := OverlapStep(o2, two);
    var i := o2.a.chan.NextInstruction().value;
    FreshTook(o3, i);
    StaleAckTaken(o3, i);
    var three := AtB(Receiving(i));
    StepOverlaps(o3, three);
    RunNil(OverlapStep(o3, three));
    RunCons(o3, three, []);
    RunCons(o2, two, [three] + []);
    RunCons(o1, one, [two] + ([three] + []));
    between := [one] + ([two] + ([three] + []));
    TakenIsUnsafe(OverlapStep(o3, three));
  }

  lemma TakenIsUnsafe(o: Net)
    requires Overlap(o) && o.b.chan.assumed > 0
    ensures !Safe(o)
  {
    hide Overlap;
  }

  lemma SurvivorSent(o: Net, t: nat)
    requires Overlap(o)
    ensures o.a.chan.Typed() && o.a.chan.NextInstruction().Ok?
    ensures var o' := OverlapStep(o, AtA(Sending(t)));
            && o'.b == o.b && o'.toA == o.toA && o.a.chan.NextInstruction().value in o'.toB
            && o'.a.hist == o.a.hist && o'.a.chan == o.a.chan.NoteSent(o.a.chan.NextInstruction().value, t)
  {
    NeverWedged(o.a.chan, o.a.hist);
    hide Overlap, ChannelState.NextInstruction;
  }

  lemma FreshTook(o: Net, i: Instruction)
    requires Overlap(o) && i in o.toB
    ensures var o' := OverlapStep(o, AtB(Receiving(i)));
            && o'.a == o.a && o'.toA == o.toA && o'.toB == o.toB
            && o'.b == o.b.(chan := o.b.chan.Apply(i).0)
  {
    hide Overlap, ChannelState.Apply;
  }

  lemma FreshQueued(o: Net)
    requires Overlap(o) && o.b.chan == NewChannel(CHANNEL_MESSAGES, QUEUE, 512) && o.a.chan.initial == QUEUE
    ensures var o' := OverlapStep(o, AtB(Offering(PushMessage([]))));
            && o'.b.chan.currentNum == 1 && o'.b.chan.assumed == 0
            && o'.a == o.a && o'.toA == o.toA && o'.toB == o.toB
  {
    hide Overlap;
  }

  /** It happens: from nothing to a survivor that is starved as soon as it rebases. */
  lemma StarvationHappens(t: nat) returns (n: Net, between: seq<Step>)
    ensures Inv(n) && Overlap(Restarted(n, QUEUE, 512)) && AllDeaf(n.a.chan.initial.Kind(), between)
    ensures Restarted(n, QUEUE, 512).a == n.a
    ensures var o := OverlapRun(Restarted(n, QUEUE, 512), between);
            Rebased.requires(o) && Formed(Rebased(o)) && NothingComes(Rebased(o))
  {
    hide Half, Overlap, Restarted, OverlapRun, NothingComes, Safe, Rebased;
    n := OneMessageCame(t);
    LoneQueue(n);
    between := StarvationFrom(n, t);
    var o := OverlapRun(Restarted(n, QUEUE, 512), between);
    StaleAckStarves(o);
  }

  // ---------- a torn frame ----------

  /** The grid with one frame's first row and the other's second. */
  function Mixed(a: Bytes, b: Bytes): seq<Bytes>
    requires ChunkCount(|a|) == ChunkCount(|b|) == 2
  {
    [FrameRows(a)[0], FrameRows(b)[1]]
  }

  /** Two bodies of two chunks that differ in both. */
  ghost predicate Apart(a: Bytes, b: Bytes) {
    && ChunkCount(|a|) == ChunkCount(|b|) == 2
    && Chunk(a, 0) != Chunk(b, 0) && Chunk(a, 1) != Chunk(b, 1)
  }

  /** Such a grid passes for a complete frame, with a body that nobody sent. */
  lemma MixedCompletes(a: Bytes, b: Bytes)
    requires Apart(a, b)
    ensures CompleteFrame(Mixed(a, b)).Some?
    ensures CompleteFrame(Mixed(a, b)).value !in {a, b}
  {
    hide FrameRow, Chunk, ReadU32;
    FrameRowFields(2, 0, Chunk(a, 0));
    FrameRowFields(2, 1, Chunk(b, 1));
    var rows := Mixed(a, b);
    assert RowBelongs(rows[0], 2, 0) && RowBelongs(rows[1], 2, 1);
    var bodies := Bodies(rows);
    assert bodies == [Chunk(a, 0), Chunk(b, 1)];
    JoinTwo(Chunk(a, 0), Chunk(b, 1));
    TwoChunks(a);
    TwoChunks(b);
    MixedDiffers(Chunk(a, 0), Chunk(a, 1), Chunk(b, 0), Chunk(b, 1));
  }

  lemma JoinTwo(x: Bytes, y: Bytes)
    ensures Join([x, y]) == x + y
  {
    assert [x, y][..1] == [x] && [x][..0] == [];
    assert Join([x]) == [] + x == x;
  }

  lemma TwoChunks(a: Bytes)
    requires ChunkCount(|a|) == 2
    ensures a == Chunk(a, 0) + Chunk(a, 1) && |Chunk(a, 0)| == CAPACITY
  {
  }

  lemma MixedDiffers(a0: Bytes, a1: Bytes, b0: Bytes, b1: Bytes)
    requires |a0| == |b0| && a0 != b0 && a1 != b1
    ensures a0 + b1 != a0 + a1 && a0 + b1 != b0 + b1
  {
    assert (a0 + b1)[..|a0|] == a0 && (b0 + b1)[..|a0|] == b0;
    assert (a0 + b1)[|a0|..] == b1 && (a0 + a1)[|a0|..] == a1;
  }

  /** The second row of one frame, applied to the first row of another. */
  lemma MixedApplies(a: Bytes, b: Bytes)
    requires ChunkCount(|a|) == ChunkCount(|b|) == 2
    ensures Grid(FrameRows(a)[..1]).ApplyDiff(Grid(FrameRows(b)).DiffFrom(Grid(FrameRows(b)[..1]))) == Ok(Grid(Mixed(a, b)))
  {
    var next, prev, held := FrameRows(b), FrameRows(b)[..1], FrameRows(a)[..1];
    FrameRowFields(2, 1, Chunk(b, 1));
    UnchangedPrefix(next, prev, 1);
    var u := Update(1, next[1]);
    assert RowGrids.Changed(next, prev, 2) == [u];
    EncodedRowsParse(2, [u]);
    assert Resize(held, 2)[1 := next[1]] == Mixed(a, b);
    assert [u][..0] == [];
    assert Overwrite(Resize(held, 2), [u]) == Mixed(a, b);
    hide FrameRow, Chunk, ParseRows, EncodeRows;
  }

  const GRID: SspState := Screen(EMPTY_GRID)

  /**
   * The survivor showed a first row of `a` before its peer restarted, and then `a` and `b`; the
   * fresh peer took the first row and has reported it.
   */
  ghost predicate ReadyToTear(o: Net, a: Bytes, b: Bytes) {
    && Overlap(o) && ChunkCount(|a|) == ChunkCount(|b|) == 2
    && o.a.chan.initial == GRID && o.a.chan.assumed == 0
    && o.a.hist == [[], FrameRows(a)[..1], FrameRows(a), FrameRows(b)[..1], FrameRows(b)]
    && o.b.chan.receivedNum == 1 && o.b.chan.assumed == 0 && o.b.hist == [[]]
  }

  /** What the fresh peer reports. */
  lemma FreshReports(o: Net, a: Bytes, b: Bytes)
    requires ReadyToTear(o, a, b)
    ensures o.b.chan.Typed() && o.b.chan.NextInstruction().Ok?
    ensures var r := o.b.chan.NextInstruction().value;
            r.oldNum == 0 && r.newNum == 0 && r.ackNum == 1 && r.throwawayNum == 1
  {
    NeverWedged(o.b.chan, o.b.hist);
    hide Overlap, ChannelState.NextInstruction, FrameRows;
  }

  /** What the survivor owes after the rebase: the rows of `b`, one by one. */
  lemma SurvivorOwes(o: Net, a: Bytes, b: Bytes)
    requires ReadyToTear(o, a, b)
    ensures Owed.requires(o) && Owed(o) == [[], FrameRows(b)[..1], FrameRows(b)]
    ensures o.a.chan.Typed() && Sends(o.a.chan.ResetPeer(), Owed(o))
    ensures var c := o.a.chan.ResetPeer(); c.assumed == 0 && c.currentNum == 2 && !c.current.Messages?
  {
    OverlapChains(o);
    Restart.ResetKeepsPending(o.a.chan, o.a.hist);
    assert FrameRows(b)[..2] == FrameRows(b) && FrameRows(b)[..0] == [];
    FreshStart(o);
    hide Overlap, Sends;
    SendsNumbers(o.a.chan.ResetPeer(), Owed(o));
  }

  lemma SendsNumbers(c: ChannelState, hist: History)
    requires Sends(c, hist)
    ensures c.currentNum + 1 == |hist| && c.current.Kind() == c.initial.Kind()
  {
  }

  /** Hearing the report, the survivor believes its peer holds the first row of `b`, and sends the second. */
  lemma SurvivorAnswers(c: ChannelState, h: History, r: Instruction, b: Bytes)
    requires Sends(c, h) && c.assumed == 0 && c.initial.Screen? && ChunkCount(|b|) == 2
    requires h == [[], FrameRows(b)[..1], FrameRows(b)]
    requires r.ackNum == 1 && r.throwawayNum == 1
    ensures var c' := c.Apply(r).0;
            && c'.Typed() && c'.NextInstruction().Ok?
            && var i := c'.NextInstruction().value;
               i.oldNum == 1 && i.newNum == 2 && i.diff == Grid(FrameRows(b)).DiffFrom(Grid(FrameRows(b)[..1]))
  {
    var c' := c.Apply(r).0;
    SendsNumbers(c, h);
    ChannelAppliesInOrder(c, h, r);
    HeardKeeps(c, h, 1, 1);
    assert c'.assumed == 1 && c'.currentNum == 2;
    NeverWedged(c', h);
    NextRowFits(b, 1);
    assert FrameRows(b)[..2] == FrameRows(b);
    hide Sends, ChannelState.Apply, ChannelState.NextInstruction, ChannelState.Heard, FrameRows, Chain;
  }

  /** The fresh peer applies it to what it really holds. */
  lemma FreshTears(o: Net, a: Bytes, b: Bytes, i: Instruction)
    requires ReadyToTear(o, a, b)
    requires i.oldNum == 1 && i.newNum == 2 && i.diff == Grid(FrameRows(b)).DiffFrom(Grid(FrameRows(b)[..1]))
    ensures o.b.chan.Apply(i).0.received == Screen(Grid(Mixed(a, b)))
  {
    assert HoldsOld(o);
    assert o.b.chan.received == Screen(Grid(FrameRows(a)[..1]));
    MixedApplies(a, b);
    HeardIsLocal(o.b.chan, i.ackNum, i.throwawayNum);
    hide Overlap, HoldsOld, FrameRows, Grid.DiffFrom, Grid.ApplyDiff, Mixed, ChannelState.Heard;
  }

  /**
   * The survivor hears the report, rebases and sends on: its peer then shows a complete frame
   * that is neither of the two that were sent.
   */
  lemma TearsAfterRebase(o: Net, a: Bytes, b: Bytes, t: nat)
    requires ReadyToTear(o, a, b) && Apart(a, b)
    ensures Rebased.requires(o) && o.b.chan.Typed() && o.b.chan.NextInstruction().Ok?
    ensures var heard := Rebased(o).a.chan.Apply(o.b.chan.NextInstruction().value).0;
            && heard.Typed() && heard.NextInstruction().Ok?
            && var shown := o.b.chan.Apply(heard.NextInstruction().value).0.received;
            && shown == Screen(Grid(Mixed(a, b)))
            && CompleteFrame(shown.grid.rows).Some? && CompleteFrame(shown.grid.rows).value !in {a, b}
  {
    FreshReports(o, a, b);
    SurvivorOwes(o, a, b);
    var r := o.b.chan.NextInstruction().value;
    SurvivorAnswers(o.a.chan.ResetPeer(), Owed(o), r, b);
    FreshTears(o, a, b, o.a.chan.ResetPeer().Apply(r).0.NextInstruction().value);
    MixedCompletes(a, b);
    hide Sends, ChannelState.Apply, ChannelState.NextInstruction, ChannelState.ResetPeer, Mixed, CompleteFrame, FrameRows;
  }

  // ---------- and it happens ----------

  /** The survivor has shown these grids; the fresh peer has neither taken nor sent anything. */
  ghost predicate Showed(o: Net, hist: History) {
    && Overlap(o)
    && o.a.chan.initial == GRID && o.a.chan.assumed == 0 && o.a.chan.receivedNum == 0 && o.a.chan.maxSent == 512
    && o.a.hist == hist
    && o.b.chan == NewChannel(CHANNEL_SCREEN, GRID, 512) && o.b.hist == [[]]
  }

  lemma ShowsOneMore(o: Net, hist: History, rows: View)
    requires Showed(o, hist) && |hist| < 512 && |rows| < U32_SPAN
    requires |ViewDiff(GridKind, Newest(hist), rows)| <= MAX_DIFF_LEN
    ensures Deaf(GridKind, AtA(Offering(SetRows(rows))))
    ensures var o' := OverlapStep(o, AtA(Offering(SetRows(rows)))); Showed(o', hist + [rows]) && o'.toB == o.toB
  {
    SurvivorNumbers(o);
    OverlapChains(o);
    StepOverlaps(o, AtA(Offering(SetRows(rows))));
    hide Overlap, Grid.DiffFrom;
  }

  lemma SurvivorNumbers(o: Net)
    requires Overlap(o) && o.a.chan.initial.Screen?
    ensures |o.a.chan.sent| == |o.a.hist| - o.a.chan.assumed
    ensures o.a.chan.current == Screen(Grid(Newest(o.a.hist)))
  {
  }

  lemma ShowingSends(o: Net, hist: History, t: nat)
    requires Showed(o, hist) && |hist| == 2 && |ViewDiff(GridKind, hist[0], hist[1])| <= MAX_DIFF_LEN
    ensures Showed(OverlapStep(o, AtA(Sending(t))), hist)
    ensures o.a.chan.Typed() && o.a.chan.NextInstruction().Ok?
    ensures var i := o.a.chan.NextInstruction().value;
            i in OverlapStep(o, AtA(Sending(t))).toB && i.oldNum == 0 && i.newNum == 1
  {
    SurvivorSent(o, t);
    StepOverlaps(o, AtA(Sending(t)));
    OverlapSends(o);
    NeverWedged(o.a.chan, o.a.hist);
    hide Overlap, Sends, ChannelState.NextInstruction, OverlapStep;
  }

  lemma OverlapSends(o: Net)
    requires Overlap(o)
    ensures Sends(o.a.chan, o.a.hist) && Sends(o.b.chan, o.b.hist) && o.a.chan.currentNum + 1 == |o.a.hist|
  {
  }

  lemma FreshTakesFirst(o: Net, hist: History, i: Instruction)
    requires Showed(o, hist) && i in o.toB && i.oldNum == 0 && i.newNum == 1 && |hist| > 1 && |hist[1]| <= MAX_GRID_ROWS
    ensures var o' := OverlapStep(o, AtB(Receiving(i)));
            && Overlap(o') && o'.a == o.a && o'.b.hist == o.b.hist
            && o'.b.chan.receivedNum == 1 && o'.b.chan.assumed == 0
  {
    FreshTook(o, i);
    StepOverlaps(o, AtB(Receiving(i)));
    StaleAckTaken(o, i);
    TakesFirst(o, i);
    hide Overlap, ChannelState.Apply, OverlapStep;
  }

  lemma TakesFirst(o: Net, i: Instruction)
    requires Overlap(o) && i in o.toB && i.oldNum == 0 && i.newNum == 1 && o.b.chan.receivedNum == 0
    requires o.a.chan.initial.Screen? && |o.a.hist| > 1 && |o.a.hist[1]| <= MAX_GRID_ROWS
    ensures o.b.chan.Apply(i).0.receivedNum == 1
  {
    assert Stale(o, i);
    ChainExtends(GridKind, o.a.hist, 0, 1);
    ChainExtends(GridKind, o.a.hist, 1, 1);
    ApplyShows(o.b.chan.received, o.a.hist[0], o.a.hist[1]);
    HeardIsLocal(o.b.chan, i.ackNum, i.throwawayNum);
    hide ChannelState.Heard, Sends;
  }

  ghost predicate ShowedFirst(o: Net, a: Bytes)
    requires ChunkCount(|a|) == 2
  {
    Showed(o, [[], FrameRows(a)[..1]])
  }

  /** The survivor shows the first row of `a`. */
  lemma FirstRowShown(a: Bytes) returns (n: Net)
    requires ChunkCount(|a|) == 2
    ensures Inv(n) && n.a.chan.id == CHANNEL_SCREEN && n.a.chan.initial == GRID
    ensures ShowedFirst(Restarted(n, GRID, 512), a)
  {
    var start := Start(CHANNEL_SCREEN, GRID, GRID, 512, 512);
    StartsInOrder(CHANNEL_SCREEN, GRID, GRID, 512, 512);
    FirstRowFits([], a);
    var action := Offering(SetRows(FrameRows(a)[..1]));
    ActKeeps(start, action);
    n := Act(start, action);
    assert n.a.hist == [[]] + [FrameRows(a)[..1]] == [[], FrameRows(a)[..1]];
    RestartOverlaps(n, GRID, 512);
    hide Half, Overlap, Grid.DiffFrom, FrameRows;
  }

  /**
   * From nothing, for any two frames of two chunks that differ in both: a run after which the
   * rebase tears them.
   */
  lemma TornFrameHappens(a: Bytes, b: Bytes, t: nat) returns (n: Net, between: seq<Step>)
    requires Apart(a, b)
    ensures Inv(n) && n.a.chan.initial == GRID && n.a.chan.id == CHANNEL_SCREEN
    ensures Overlap(Restarted(n, GRID, 512)) && Restarted(n, GRID, 512).a == n.a && AllDeaf(GridKind, between)
    ensures ReadyToTear(OverlapRun(Restarted(n, GRID, 512), between), a, b)
  {
    n := FirstRowShown(a);
    LoneGrid(n);
    hide Half, Overlap, OverlapStep, OverlapRun, FrameRows, Restarted, ReadyToTear;
    between := FiveSteps(Restarted(n, GRID, 512), a, b, t);
  }

  lemma LoneGrid(n: Net)
    ensures Restarted(n, GRID, 512).a == n.a
  {
  }

  /** Running `rest` from here leaves everything ready to tear. */
  ghost predicate Tears(o: Net, rest: seq<Step>, a: Bytes, b: Bytes) {
    Overlap(o) && AllDeaf(o.a.chan.initial.Kind(), rest) && ReadyToTear(OverlapRun(o, rest), a, b)
  }

  lemma TearsEarlier(o: Net, step: Step, rest: seq<Step>, a: Bytes, b: Bytes)
    requires Overlap(o) && Deaf(o.a.chan.initial.Kind(), step) && Tears(OverlapStep(o, step), rest, a, b)
    ensures Tears(o, [step] + rest, a, b)
  {
    hide Overlap, OverlapStep, ReadyToTear, OverlapRun;
    StepOverlaps(o, step);
    RunCons(o, step, rest);
  }

  lemma LastStep(o: Net, hist: History, i: Instruction, a: Bytes, b: Bytes) returns (rest: seq<Step>)
    requires Showed(o, hist) && i in o.toB && i.oldNum == 0 && i.newNum == 1
    requires ChunkCount(|a|) == ChunkCount(|b|) == 2
    requires hist == [[], FrameRows(a)[..1], FrameRows(a), FrameRows(b)[..1], FrameRows(b)]
    ensures Tears(o, rest, a, b)
  {
    FreshTakesFirst(o, hist, i);
    var step := AtB(Receiving(i));
    StepOverlaps(o, step);
    hide Overlap, OverlapStep, OverlapRun, FrameRows;
    RunNil(OverlapStep(o, step));
    assert Tears(OverlapStep(o, step), [], a, b);
    TearsEarlier(o, step, [], a, b);
    rest := [step] + [];
  }

  /** One more grid shown in front of steps that tear. */
  lemma ShowsThenTears(o: Net, hist: History, rows: View, rest: seq<Step>, a: Bytes, b: Bytes) returns (all: seq<Step>)
    requires Showed(o, hist) && |hist| < 512 && |rows| < U32_SPAN
    requires |ViewDiff(GridKind, Newest(hist), rows)| <= MAX_DIFF_LEN
    requires var step := AtA(Offering(SetRows(rows))); Deaf(GridKind, step) && Tears(OverlapStep(o, step), rest, a, b)
    ensures Tears(o, all, a, b)
  {
    hide Overlap, OverlapStep, OverlapRun, Tears;
    TearsEarlier(o, AtA(Offering(SetRows(rows))), rest, a, b);
    all := [AtA(Offering(SetRows(rows)))] + rest;
  }

  lemma ShowSecond(o: Net, i: Instruction, a: Bytes, b: Bytes) returns (rest: seq<Step>)
    requires ChunkCount(|a|) == ChunkCount(|b|) == 2
    requires Showed(o, [[], FrameRows(a)[..1], FrameRows(a)]) && i in o.toB && i.oldNum == 0 && i.newNum == 1
    ensures Tears(o, rest, a, b)
  {
    var a0, a1, b0, b1 := FrameRows(a)[..1], FrameRows(a), FrameRows(b)[..1], FrameRows(b);
    FirstRowFits(a1, b);
    NextRowFits(b, 1);
    assert b1[..2] == b1;
    hide Overlap, OverlapStep, OverlapRun, FrameRows, ViewDiff, Tears, Showed;
    ShowsOneMore(o, [[], a0, a1], b0);
    var o1 := OverlapStep(o, AtA(Offering(SetRows(b0))));
    assert [[], a0, a1] + [b0] == [[], a0, a1, b0];
    ShowsOneMore(o1, [[], a0, a1, b0], b1);
    var o2 := OverlapStep(o1, AtA(Offering(SetRows(b1))));
    assert [[], a0, a1, b0] + [b1] == [[], a0, a1, b0, b1];
    rest := LastStep(o2, [[], a0, a1, b0, b1], i, a, b);
    rest := ShowsThenTears(o1, [[], a0, a1, b0], b1, rest, a, b);
    rest := ShowsThenTears(o, [[], a0, a1], b0, rest, a, b);
  }

  lemma FiveSteps(o: Net, a: Bytes, b: Bytes, t: nat) returns (between: seq<Step>)
    requires ChunkCount(|a|) == ChunkCount(|b|) == 2 && ShowedFirst(o, a)
    ensures Tears(o, between, a, b)
  {
    var a0, a1 := FrameRows(a)[..1], FrameRows(a);
    FirstRowFits([], a);
    NextRowFits(a, 1);
    assert a1[..2] == a1;
    ShowedOverlaps(o, [[], a0]);
    hide Overlap, OverlapStep, OverlapRun, FrameRows, ViewDiff, Tears, Showed, ChannelState.NextInstruction,
      ChannelState.Typed;
    ShowingSends(o, [[], a0], t);
    var i := o.a.chan.NextInstruction().value;
    var o1 := OverlapStep(o, AtA(Sending(t)));
    ShowsOneMore(o1, [[], a0], a1);
    var o2 := OverlapStep(o1, AtA(Offering(SetRows(a1))));
    assert [[], a0] + [a1] == [[], a0, a1];
    between := ShowSecond(o2, i, a, b);
    between := ShowsThenTears(o1, [[], a0], a1, between, a, b);
    TearsEarlier(o, AtA(Sending(t)), between, a, b);
    between := [AtA(Sending(t))] + between;
  }

  lemma ShowedOverlaps(o: Net, hist: History)
    requires Showed(o, hist)
    ensures Overlap(o) && o.a.chan.initial.Kind() == GridKind
  {
  }

  /** Two such frames. */
  lemma ApartExample() returns (a: Bytes, b: Bytes)
    ensures Apart(a, b)
  {
    a, b := seq(CAPACITY + 1, _ => 0), seq(CAPACITY + 1, _ => 1);
    assert Chunk(a, 0)[0] == 0 && Chunk(b, 0)[0] == 1;
    assert Chunk(a, 1)[0] == 0 && Chunk(b, 1)[0] == 1;
  }

  // ---------- a number that is not there ----------

  /**
   * A fresh peer that took a state numbered beyond what the rebased history reaches: its report
   * is ignored, and what the survivor sends next starts at a state the peer has left behind.
   */
  lemma ReportIgnored(o: Net, r: Instruction)
    requires Overlap(o) && Rebased.requires(o) && o.b.chan.receivedNum >= |Owed(o)|
    requires r.ackNum == r.throwawayNum == o.b.chan.receivedNum
    ensures var heard := Rebased(o).a.chan.Apply(r).0;
            && heard.Typed() && heard.NextInstruction().Ok?
            && var i := heard.NextInstruction().value;
            && heard.assumed == 0 && i.oldNum == 0
            && o.b.chan.Apply(i).0.received == o.b.chan.received
            && o.b.chan.Apply(i).0.receivedNum == o.b.chan.receivedNum
  {
    Restart.ResetKeepsPending(o.a.chan, o.a.hist);
    var c := o.a.chan.ResetPeer();
    SendsNumbers(c, Owed(o));
    FreshStart(o);
    ChannelAppliesInOrder(c, Owed(o), r);
    HeardKeeps(c, Owed(o), r.ackNum, r.throwawayNum);
    var heard := c.Apply(r).0;
    NeverWedged(heard, Owed(o));
    HeardOnlyMovesOn(o.b.chan, heard.NextInstruction().value);
    hide Overlap, Sends, Owed, ChannelState.ResetPeer, ChannelState.NextInstruction, ChannelState.Heard;
  }
}
