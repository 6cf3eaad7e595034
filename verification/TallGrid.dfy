/**
 * Grids taller than the decoder allows: the sender's own check lets them through, step by
 * step, and no receiver ever takes one.
 */
module TallGrids {
  import opened Bytes
  import Channels
  import opened Convergence
  import opened Delivery
  import opened Histories
  import opened MessageQueues
  import Packets
  import opened Protocol
  import opened RowGrids
  import opened SspStates

  // ---------- no receiver has one ----------

  /** Neither end holds a grid above the decoder's cap. */
  ghost predicate Low(n: Net) {
    && (n.a.chan.received.Screen? ==> |n.a.chan.received.grid.rows| <= MAX_GRID_ROWS)
    && (n.b.chan.received.Screen? ==> |n.b.chan.received.grid.rows| <= MAX_GRID_ROWS)
  }

  lemma ActStaysLow(n: Net, action: Action)
    requires n.a.chan.Typed() && Suits(n.a.chan.initial.Kind(), action) && Low(n)
    ensures Low(Act(n, action))
  {
    hide ParseRows, Resize, Overwrite, InRange, Channels.ChannelState.NextInstruction, Channels.ChannelState.Heard;
    if action.Receiving? {
      ApplyStaysLow(n.a.chan, action.i);
      hide Channels.ChannelState.Apply;
    }
  }

  lemma ApplyStaysLow(c: Channels.ChannelState, i: Packets.Instruction)
    requires c.received.Screen? ==> |c.received.grid.rows| <= MAX_GRID_ROWS
    ensures var r := c.Apply(i).0.received; r.Screen? ==> |r.grid.rows| <= MAX_GRID_ROWS
  {
    HeardIsLocal(c, i.ackNum, i.throwawayNum);
    hide ParseUpdates, Overwrite, InRange, Channels.ChannelState.Heard;
  }

  lemma {:induction false} RunStaysLow(n: Net, steps: seq<Step>)
    requires Inv(n) && Possible(n.a.chan.initial.Kind(), steps) && Low(n)
    ensures Low(Run(n, steps))
    decreases steps
  {
    if steps != [] {
      hide Half, Low, Act;
      assert steps[0] in steps;
      TakeKeeps(n, steps[0]);
      TakeStaysLow(n, steps[0]);
      RunStaysLow(Take(n, steps[0]), steps[1..]);
    }
  }

  lemma TakeStaysLow(n: Net, step: Step)
    requires Inv(n) && Suits(n.a.chan.initial.Kind(), step.action) && Low(n)
    ensures Low(Take(n, step))
  {
    match step
    case AtA(action) => ActStaysLow(n, action);
    case AtB(action) => ActStaysLow(Flip(n), action);
    hide Act;
  }

  /** Over every run, whatever number the receiver is at, it is not that of a tall grid. */
  lemma TallNeverArrives(n: Net, steps: seq<Step>)
    requires Inv(n) && Possible(n.a.chan.initial.Kind(), steps) && n.a.chan.initial.Screen? && Low(n)
    ensures var m := Run(n, steps);
            && m.b.chan.receivedNum < |m.a.hist|
            && |m.a.hist[m.b.chan.receivedNum]| <= MAX_GRID_ROWS
  {
    RunStaysLow(n, steps);
    GridAgreement(n, steps);
    hide Half;
  }

  // ---------- and yet a session sends them ----------

  /** Empty rows that one datagram can add. */
  const STEP: nat := 158

  /** Steps that lead above the cap. */
  const STEPS: nat := 415

  lemma {:induction false} NewRowsSize(a: nat, d: nat, j: nat)
    requires j <= d
    ensures |RowFrames(RowGrids.Changed(Empties(a + d), Empties(a), a + j))| == 8 * j
    decreases j
  {
    var next, prev := Empties(a + d), Empties(a);
    if j == 0 {
      assert next[..a] == prev[..a];
      UnchangedPrefix(next, prev, a);
    } else {
      NewRowsSize(a, d, j - 1);
      var before, u := RowGrids.Changed(next, prev, a + j - 1), Update(a + j - 1, []);
      assert RowGrids.Changed(next, prev, a + j) == before + [u];
      RowFramesAppend(before, [u]);
      assert [u][1..] == [];
      assert RowFrames([u]) == RowFrame(u) + [];
      hide BeU32;
    }
  }

  lemma StepPasses(a: nat)
    ensures |Grid(Empties(a + STEP)).DiffFrom(Grid(Empties(a)))| <= MAX_DIFF_LEN
  {
    NewRowsSize(a, STEP, STEP);
    hide RowFrames, RowGrids.Changed, BeU32;
  }

  /** The channel after `j` grids, each with `STEP` more rows than the one before it. */
  ghost function Grow(j: nat): (steps: seq<Step>)
    ensures |steps| == j && forall s | s in steps :: s.AtA? && s.action.Offering?
  {
    if j == 0 then [] else Grow(j - 1) + [AtA(Offering(SetRows(Empties(j * STEP))))]
  }

  ghost function Empty(): Net {
    Start(CHANNEL_SCREEN, Screen(EMPTY_GRID), Screen(EMPTY_GRID), 512, 512)
  }

  lemma EmptyInOrder()
    ensures Inv(Empty()) && Low(Empty())
  {
    StartsInOrder(CHANNEL_SCREEN, Screen(EMPTY_GRID), Screen(EMPTY_GRID), 512, 512);
  }

  lemma {:induction false} GrowPossible(j: nat)
    requires j <= STEPS
    ensures Possible(GridKind, Grow(j))
  {
    if j > 0 {
      GrowPossible(j - 1);
    }
  }

  /** What `j` accepted grids leave of the sender; the receiver has heard nothing. */
  ghost predicate GrownTo(n: Net, j: nat) {
    && n.a.chan.initial == Screen(EMPTY_GRID) && n.a.chan.maxSent == 512
    && |n.a.chan.sent| == j + 1 && n.a.chan.currentNum == j
    && n.a.chan.current == Screen(Grid(Empties(j * STEP)))
    && |n.a.hist| == j + 1 && Newest(n.a.hist) == Empties(j * STEP)
    && n.b == Empty().b
  }

  lemma OneMoreGrown(n: Net, j: nat)
    requires n.a.chan.Typed() && j < STEPS && GrownTo(n, j)
    ensures GrownTo(Act(n, Offering(SetRows(Empties((j + 1) * STEP)))), j + 1)
    ensures Offer(n.a.chan, SetRows(Empties((j + 1) * STEP))).Ok?
  {
    StepPasses(j * STEP);
    assert (j + 1) * STEP == j * STEP + STEP;
    hide Grid.DiffFrom;
  }

  /** Every one of these grids passes the one-datagram check and is accepted. */
  lemma {:induction false} GrowIsAccepted(j: nat)
    requires j <= STEPS
    ensures Inv(Empty()) && Possible(GridKind, Grow(j))
    ensures GrownTo(Run(Empty(), Grow(j)), j)
  {
    EmptyInOrder();
    GrowPossible(j);
    if j > 0 {
      GrowIsAccepted(j - 1);
      RunAppends(Empty(), Grow(j - 1), AtA(Offering(SetRows(Empties(j * STEP)))));
      var before := Run(Empty(), Grow(j - 1));
      TypedInOrder(before);
      OneMoreGrown(before, j - 1);
      hide Half, Act, Offer, GrownTo, Empty;
    }
  }

  lemma TypedInOrder(n: Net)
    requires Inv(n)
    ensures n.a.chan.Typed()
  {
  }

  /**
   * A reachable stall: 415 grids, each accepted, end above the cap; and then no number of
   * loss-free exchanges ever brings the receiver level.
   */
  lemma TallGridStalls(count: nat, t: nat)
    ensures Inv(Empty()) && Possible(GridKind, Grow(STEPS))
    ensures var n := Run(Empty(), Grow(STEPS));
            && |Newest(n.a.hist)| > MAX_GRID_ROWS
            && Gap(Exchanges(n, count, t)) > 0
  {
    GrowIsAccepted(STEPS);
    hide Half, Grow, Run, GrownTo, Exchanges;
    GrownStalls(Run(Empty(), Grow(STEPS)), count, t);
  }

  lemma GrownStalls(n: Net, count: nat, t: nat)
    requires Inv(n) && GrownTo(n, STEPS)
    ensures |Newest(n.a.hist)| > MAX_GRID_ROWS && Gap(Exchanges(n, count, t)) > 0
  {
    hide Half, Exchanges, Reached, Empties, Chain, GrownTo;
    NewestIsTall(n);
    ExchangesExactly(n, count, t);
    NumbersOf(n);
    NumbersOf(Exchanges(n, count, t));
    ReachedIsLow(n.b.chan.initial, n.a.hist, 0, count);
  }

  lemma NewestIsTall(n: Net)
    requires Inv(n) && GrownTo(n, STEPS)
    ensures |Newest(n.a.hist)| == 65_570 && n.a.hist[0] == []
    ensures n.b.chan.receivedNum == 0 && n.b.chan.initial.Screen?
  {
  }

  lemma {:induction false} ReachedIsLow(initial: SspState, hist: History, m: nat, count: nat)
    requires Chain(initial.Kind(), hist) && m < |hist| && initial.Screen? && |hist[m]| <= MAX_GRID_ROWS
    ensures |hist[Reached(initial, hist, m, count)]| <= MAX_GRID_ROWS
    decreases count
  {
    hide Chosen, Chain;
    if count > 0 && Passes(initial, hist, m) {
      ReachedIsLow(initial, hist, Chosen(initial.Kind(), hist, m), count - 1);
    }
  }
}
