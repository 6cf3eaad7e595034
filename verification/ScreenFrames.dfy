/** Screen frames carried over channel 1 as grids that grow by one row. */
module ScreenFrames {
  import opened Bytes
  import opened Protocol
  import opened Wrappers
  import opened RowGrids
  import opened SspStates
  import opened Channels
  import Histories
  import opened Delivery
  import Convergence
  import opened Overlaps
  import opened Chunks

  const FRAME_MAGIC: Bytes := [0x4D, 0x53, 0x46, 0x31]
  const FRAME_HEADER: nat := 12

  function FrameRow(count: nat, index: nat, chunk: Bytes): Bytes {
    FRAME_MAGIC + BeU32(count) + BeU32(index) + chunk
  }

  /** The grid that carries a whole frame; its prefixes are the grids sent on the way. */
  function FrameRows(body: Bytes): (rows: seq<Bytes>)
    ensures |rows| == ChunkCount(|body|)
    ensures forall k | 0 <= k < |rows| :: rows[k] == FrameRow(|rows|, k, Chunk(body, k))
  {
    var count := ChunkCount(|body|);
    seq(count, k requires 0 <= k < count => FrameRow(count, k, Chunk(body, k)))
  }

  // ---------- the receiving side ----------

  predicate RowBelongs(row: Bytes, count: nat, index: nat) {
    && |row| >= FRAME_HEADER
    && row[..4] == FRAME_MAGIC
    && ReadU32(row, 4) == count
    && ReadU32(row, 8) == index
  }

  predicate AllBelong(rows: seq<Bytes>) {
    forall k | 0 <= k < |rows| :: RowBelongs(rows[k], |rows|, k)
  }

  function Bodies(rows: seq<Bytes>): seq<Bytes>
    requires AllBelong(rows)
  {
    seq(|rows|, k requires 0 <= k < |rows| => rows[k][FRAME_HEADER..])
  }

  function CompleteFrame(rows: seq<Bytes>): Option<Bytes> {
    if rows == [] || !AllBelong(rows) then None else Some(Join(Bodies(rows)))
  }

  /** `complete_screen_frame`: gather the rows, giving up on the first that does not belong. */
  method CompleteScreenFrame(rows: seq<Bytes>) returns (r: Option<Bytes>)
    ensures r == CompleteFrame(rows)
  {
    if rows == [] {
      return None;
    }
    var body: Bytes := [];
    var index := 0;
    while index < |rows|
      invariant 0 <= index <= |rows|
      invariant forall k | 0 <= k < index :: RowBelongs(rows[k], |rows|, k)
      invariant body == Join(seq(index, k requires 0 <= k < index => rows[k][FRAME_HEADER..]))
    {
      var row := rows[index];
      if |row| < FRAME_HEADER || row[..4] != FRAME_MAGIC {
        return None;
      }
      var declared := ReadU32(row, 4);
      var declaredIndex := ReadU32(row, 8);
      if declared != |rows| || declaredIndex != index {
        return None;
      }
      ghost var gathered := seq(index, k requires 0 <= k < index => rows[k][FRAME_HEADER..]);
      ghost var next := seq(index + 1, k requires 0 <= k < index + 1 => rows[k][FRAME_HEADER..]);
      assert next[..index] == gathered;
      body := body + row[FRAME_HEADER..];
      index := index + 1;
    }
    assert Bodies(rows) == seq(index, k requires 0 <= k < index => rows[k][FRAME_HEADER..]);
    r := Some(body);
  }

  lemma FrameRowFields(count: nat, index: nat, chunk: Bytes)
    ensures var row := FrameRow(count, index, chunk);
            && |row| == FRAME_HEADER + |chunk| && row[..4] == FRAME_MAGIC && row[FRAME_HEADER..] == chunk
            && ReadU32(row, 4) == count % U32_SPAN && ReadU32(row, 8) == index % U32_SPAN
  {
    hide BigEndian, FromBigEndian;
    var row := FrameRow(count, index, chunk);
    assert row[4..8] == BeU32(count);
    assert row[8..12] == BeU32(index);
    U32Field(row, 4, count);
    U32Field(row, 8, index);
  }

  lemma PartFields(body: Bytes, n: nat, k: nat)
    requires k < n <= ChunkCount(|body|) < U32_SPAN
    ensures var part := FrameRows(body)[..n];
            && (RowBelongs(part[k], n, k) <==> n == ChunkCount(|body|))
            && |part[k]| >= FRAME_HEADER && part[k][FRAME_HEADER..] == Chunk(body, k)
  {
    hide FrameRow, ReadU32, Chunk;
    var count := ChunkCount(|body|);
    FrameRowFields(count, k, Chunk(body, k));
    assert FrameRows(body)[..n][k] == FrameRow(count, k, Chunk(body, k));
  }

  /** A proper prefix of a frame completes to nothing, the whole of it to its body. */
  lemma PrefixCompletes(body: Bytes, n: nat)
    requires n <= ChunkCount(|body|) < U32_SPAN
    ensures CompleteFrame(FrameRows(body)[..n]) == if n == ChunkCount(|body|) then Some(body) else None
  {
    hide FrameRows, RowBelongs, Join, Chunk;
    var part := FrameRows(body)[..n];
    forall k | 0 <= k < n
      ensures RowBelongs(part[k], n, k) <==> n == ChunkCount(|body|)
      ensures |part[k]| >= FRAME_HEADER && part[k][FRAME_HEADER..] == Chunk(body, k)
    {
      PartFields(body, n, k);
    }
    if n == ChunkCount(|body|) {
      assert Bodies(part) == ChunksOf(body);
      ChunksJoin(body);
    } else if n > 0 {
      assert !RowBelongs(part[0], n, 0);
    }
  }

  // ---------- the sending side ----------

  /** Replacing any grid by a frame's first row fits one datagram. */
  lemma FirstRowFits(prev: View, body: Bytes)
    ensures |ViewDiff(GridKind, prev, FrameRows(body)[..1])| <= MAX_DIFF_LEN
  {
    var next := FrameRows(body)[..1];
    var row := FrameRow(ChunkCount(|body|), 0, Chunk(body, 0));
    FrameRowFields(ChunkCount(|body|), 0, Chunk(body, 0));
    assert next == [row];
    var changed := RowGrids.Changed(next, prev, 1);
    assert RowGrids.Changed(next, prev, 0) == [];
    assert changed == [] || changed == [Update(0, row)];
    RowFramesLength(changed);
    assert changed != [] ==> changed[1..] == [];
  }

  /** Every later row fits too, and a full chunk meets the bound exactly. */
  lemma NextRowFits(body: Bytes, k: nat)
    requires 0 < k < ChunkCount(|body|)
    ensures var rows := FrameRows(body);
            && |ViewDiff(GridKind, rows[..k], rows[..k + 1])| <= MAX_DIFF_LEN
            && (|ViewDiff(GridKind, rows[..k], rows[..k + 1])| == MAX_DIFF_LEN <==> |Chunk(body, k)| == CAPACITY)
  {
    var rows := FrameRows(body);
    FrameRowFields(|rows|, k, Chunk(body, k));
    assert rows[..k + 1] == rows[..k] + [rows[k]];
    RowStepSize(rows[..k], rows[k]);
  }

  /** The states a frame's rows add behind `current`. */
  ghost function GrownBy(c: ChannelState, rows: seq<Bytes>, n: nat): ChannelState
    requires n <= |rows|
  {
    if n == 0 then c
    else
      var before := GrownBy(c, rows, n - 1);
      var grid := Screen(Grid(rows[..n]));
      before.(current := grid, currentNum := before.currentNum + 1,
              sent := before.sent + [Sent(before.currentNum + 1, grid)])
  }

  /** One turn of the loop: the next prefix passes the size check, whatever came before the first. */
  method SendPrefix(channel: Channel, rows: seq<Bytes>, ghost body: Bytes, ghost index: nat) returns (r: Result<(), TransportError>)
    requires channel.Value().Typed() && channel.initial.Screen? && index < ChunkCount(|body|)
    requires rows == FrameRows(body)[..index + 1]
    requires index > 0 ==> channel.current == Screen(Grid(FrameRows(body)[..index]))
    modifies channel
    ensures channel.Value().Typed()
    ensures r.Ok? <==> |old(channel.sentStates)| < channel.maxSentStates
    ensures r.Err? ==> r.error == QueueOverflow && channel.Value() == old(channel.Value())
    ensures r.Ok? ==> var before, grid := old(channel.Value()), Screen(Grid(rows));
              channel.Value() == before.(current := grid, currentNum := before.currentNum + 1,
                                         sent := before.sent + [Sent(before.currentNum + 1, grid)])
  {
    if index == 0 {
      FirstRowFits(channel.current.grid.rows, body);
    } else {
      NextRowFits(body, index);
    }
    r := Histories.OfferGrid(channel, rows);
  }

  /**
   * `send_screen_frame`, with nothing else touching the channel meanwhile: every prefix
   * becomes a state, and the only refusal left is a full history.
   */
  method SendScreenFrame(channel: Channel, body: Bytes) returns (r: Result<(), TransportError>)
    requires channel.Value().Typed() && channel.initial.Screen?
    modifies channel
    ensures r.Ok? ==> channel.Value() == GrownBy(old(channel.Value()), FrameRows(body), ChunkCount(|body|))
    ensures r.Ok? ==> channel.current == Screen(Grid(FrameRows(body)))
    ensures r.Err? ==> r.error == QueueOverflow && |channel.sentStates| >= channel.maxSentStates
    ensures r.Err? ==> exists n | 0 <= n < ChunkCount(|body|) ::
              channel.Value() == GrownBy(old(channel.Value()), FrameRows(body), n)
  {
    hide FrameRow, Chunk;
    var count := ChunkCount(|body|);
    var rows: seq<Bytes> := [];
    ghost var whole := FrameRows(body);
    for index := 0 to count
      invariant rows == whole[..index]
      invariant channel.Value().Typed()
      invariant channel.Value() == GrownBy(old(channel.Value()), whole, index)
      invariant index > 0 ==> channel.current == Screen(Grid(whole[..index]))
    {
      assert whole[..index + 1] == whole[..index] + [whole[index]];
      rows := rows + [FrameRow(count, index, Chunk(body, index))];
      r := SendPrefix(channel, rows, body, index);
      if r.Err? {
        return;
      }
    }
    assert whole[..count] == whole;
    r := Ok(());
  }

  // ---------- between two prefixes ----------

  /** Nothing but an offer changes the grid a channel shows: no report, no loss, no restart. */
  lemma OthersKeepGrid(n: Net, action: Action)
    requires n.a.chan.Typed() && n.a.chan.initial.Screen? && !action.Offering?
    ensures Act(n, action).a.chan.current == n.a.chan.current
    ensures n.a.chan.ResetPeer().current == n.a.chan.current
  {
    hide DropBelow, ChannelState.NextInstruction;
  }

  /**
   * Whatever happens on the network between two prefixes of a frame, the next one passes the
   * one-datagram check: the only refusal is a full history.
   */
  lemma NextPrefixPasses(c: ChannelState, body: Bytes, index: nat)
    requires c.Typed() && c.initial.Screen? && index < ChunkCount(|body|)
    requires index > 0 ==> c.current == Screen(Grid(FrameRows(body)[..index]))
    ensures var r := Histories.Offer(c, SetRows(FrameRows(body)[..index + 1]));
            if |c.sent| < c.maxSent then r.Ok? && r.value.current == Screen(Grid(FrameRows(body)[..index + 1]))
            else r == Err(QueueOverflow)
  {
    if index == 0 {
      FirstRowFits(c.current.grid.rows, body);
    } else {
      NextRowFits(body, index);
    }
    hide FrameRows, Grid.DiffFrom;
  }

  // ---------- no torn frames ----------

  /** A grid that some call of `send_screen_frame` put on the channel. */
  ghost predicate PartOfFrame(view: View, bodies: set<Bytes>) {
    view == [] || exists body, n: nat :: body in bodies && n <= ChunkCount(|body|) && view == FrameRows(body)[..n]
  }

  ghost predicate OnlyFrames(hist: Histories.History, bodies: set<Bytes>) {
    forall n | 0 <= n < |hist| :: PartOfFrame(hist[n], bodies)
  }

  /** At the sender, every grid update comes from `send_screen_frame`. */
  ghost predicate FrameSteps(steps: seq<Step>, bodies: set<Bytes>) {
    forall s | s in steps && s.AtA? && s.action.Offering? ::
      s.action.change.SetRows? && PartOfFrame(s.action.change.rows, bodies)
  }

  lemma {:induction false} RunOnlyFrames(n: Net, steps: seq<Step>, bodies: set<Bytes>)
    requires Formed(n) && Possible(GridKind, steps) && n.a.chan.initial.Screen?
    requires OnlyFrames(n.a.hist, bodies) && FrameSteps(steps, bodies)
    ensures OnlyFrames(Run(n, steps).a.hist, bodies)
    decreases steps
  {
    if steps != [] {
      hide Half;
      assert steps[0] in steps;
      TakeStaysFormed(n, steps[0]);
      TakeOnlyFrames(n, steps[0], bodies);
      RunOnlyFrames(Take(n, steps[0]), steps[1..], bodies);
    }
  }

  lemma TakeOnlyFrames(n: Net, step: Step, bodies: set<Bytes>)
    requires Formed(n) && Suits(GridKind, step.action) && n.a.chan.initial.Screen?
    requires OnlyFrames(n.a.hist, bodies) && FrameSteps([step], bodies)
    ensures OnlyFrames(Take(n, step).a.hist, bodies)
  {
    hide PartOfFrame;
    assert step in [step];
  }

  /** What a part of a frame completes to: nothing, or a body some caller sent. */
  lemma PartCompletes(view: View, bodies: set<Bytes>)
    requires PartOfFrame(view, bodies) && forall body | body in bodies :: ChunkCount(|body|) < U32_SPAN
    ensures CompleteFrame(view).Some? ==> CompleteFrame(view).value in bodies
  {
    if view != [] {
      var body, m: nat :| body in bodies && m <= ChunkCount(|body|) && view == FrameRows(body)[..m];
      PrefixCompletes(body, m);
    }
  }

  /**
   * No torn frames: over every run in which grids come from `send_screen_frame`, whatever
   * the receiver's grid completes to was sent whole. What is sent the other way does not matter.
   */
  lemma NoTornFrames(n: Net, steps: seq<Step>, bodies: set<Bytes>)
    requires Formed(n) && Half(n) && n.a.chan.initial.Screen? && Possible(GridKind, steps)
    requires OnlyFrames(n.a.hist, bodies) && FrameSteps(steps, bodies)
    requires forall body | body in bodies :: ChunkCount(|body|) < U32_SPAN
    ensures Intact(Run(n, steps), bodies)
  {
    RunOnlyFrames(n, steps, bodies);
    IsIntact(Run(n, steps), bodies);
  }

  /** What the survivor of a restart owes its fresh peer are parts of the frames it showed. */
  lemma OwedOnlyFrames(o: Net, bodies: set<Bytes>)
    requires Overlap(o) && o.a.chan.initial.Screen? && OnlyFrames(o.a.hist, bodies)
    ensures Owed.requires(o) && OnlyFrames(Owed(o), bodies)
  {
    OverlapChains(o);
    var view := Histories.Newest(o.a.hist);
    assert PartOfFrame(view, bodies);
    forall k | 0 <= k < |Owed(o)|
      ensures PartOfFrame(Owed(o)[k], bodies)
    {
      if view != [] {
        var body, m: nat :| body in bodies && m <= ChunkCount(|body|) && view == FrameRows(body)[..m];
        assert Owed(o)[k] == view[..k] == FrameRows(body)[..k];
      }
    }
    hide Overlap;
  }

  /**
   * After a peer restarts: its grid is a part of one frame until the survivor hears of it, and
   * after a rebase that was safe towards it over every run that follows.
   */
  lemma NoTornFramesAfterRestart(o: Net, steps: seq<Step>, bodies: set<Bytes>)
    requires Overlap(o) && o.a.chan.initial.Screen? && OnlyFrames(o.a.hist, bodies)
    requires Possible(GridKind, steps) && FrameSteps(steps, bodies)
    requires forall body | body in bodies :: ChunkCount(|body|) < U32_SPAN
    ensures Intact(o, bodies)
    ensures ForwardSafe(o) ==> Rebased.requires(o) && Formed(Rebased(o)) && Intact(Run(Rebased(o), steps), bodies)
  {
    BetweenIsIntact(o, bodies);
    if ForwardSafe(o) {
      RebaseExactly(o);
      OwedOnlyFrames(o, bodies);
      FreshStart(o);
      hide Overlap, ForwardSafe, Owed, Half, OnlyFrames;
      NoTornFrames(Rebased(o), steps, bodies);
    }
  }

  lemma BetweenIsIntact(o: Net, bodies: set<Bytes>)
    requires Overlap(o) && o.a.chan.initial.Screen? && OnlyFrames(o.a.hist, bodies)
    requires forall body | body in bodies :: ChunkCount(|body|) < U32_SPAN
    ensures Intact(o, bodies)
  {
    assert HoldsOld(o);
    PartCompletes(o.a.hist[o.b.chan.receivedNum], bodies);
    hide Overlap, CompleteFrame;
  }

  ghost predicate Intact(n: Net, bodies: set<Bytes>) {
    && n.b.chan.received.Screen?
    && var shown := CompleteFrame(n.b.chan.received.grid.rows);
       shown.Some? ==> shown.value in bodies
  }

  lemma IsIntact(n: Net, bodies: set<Bytes>)
    requires Half(n) && n.a.chan.initial.Screen? && OnlyFrames(n.a.hist, bodies)
    requires forall body | body in bodies :: ChunkCount(|body|) < U32_SPAN
    ensures Intact(n, bodies)
  {
    PartCompletes(n.a.hist[n.b.chan.receivedNum], bodies);
  }

  /** Once a whole frame is the newest grid, enough loss-free exchanges show it. */
  lemma FrameArrives(n: Net, body: Bytes, count: nat, t: nat)
    requires Inv(n) && n.a.chan.initial.Screen? && Convergence.Passable(n) && count >= Convergence.Gap(n)
    requires Histories.Newest(n.a.hist) == FrameRows(body) && ChunkCount(|body|) < U32_SPAN
    ensures var m := Convergence.Exchanges(n, count, t);
            m.b.chan.received.Screen? && CompleteFrame(m.b.chan.received.grid.rows) == Some(body)
  {
    hide Half, CompleteFrame, Shows;
    Convergence.ConvergesExactly(n, count, t);
    PrefixCompletes(body, ChunkCount(|body|));
    assert FrameRows(body)[..ChunkCount(|body|)] == FrameRows(body);
  }
}
