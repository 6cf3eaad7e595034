/** What one channel's retained history means, and why no session can wedge it. */
module Histories {
  import opened Bytes
  import opened Protocol
  import opened Wrappers
  import Packets
  import MessageQueues
  import RowGrids
  import opened SspStates
  import opened Channels

  /** `hist[n]` is what the state numbered `n` stood for when it was made. */
  type History = hist: seq<View> | hist != [] witness [[]]

  function Newest(hist: History): View { hist[|hist| - 1] }

  ghost predicate ShortRows(view: View) {
    |view| < U32_SPAN && forall row | row in view :: |row| <= MAX_ROW_BYTES
  }

  /** State 0 is empty, a queue appends one message per state, grids stay inside the wire's fields. */
  ghost predicate Chain(kind: Kind, hist: History) {
    && hist[0] == []
    && (kind == QueueKind ==> |Newest(hist)| == |hist| - 1)
    && (forall n | 0 <= n < |hist| :: Linked(kind, hist, n))
  }

  ghost predicate Linked(kind: Kind, hist: History, n: nat)
    requires n < |hist|
  {
    if kind == QueueKind then n <= |Newest(hist)| && hist[n] == Newest(hist)[..n] else ShortRows(hist[n])
  }

  /** Every single step fits one datagram: what `queue_message` and `set_screen` check. */
  ghost predicate StepsFit(kind: Kind, hist: History)
    requires Chain(kind, hist)
  {
    forall n | 0 <= n < |hist| - 1 :: StepFits(kind, hist, n)
  }

  ghost predicate StepFits(kind: Kind, hist: History, n: nat)
    requires Chain(kind, hist) && n < |hist| - 1
  {
    |Between(kind, hist, n, n + 1)| <= MAX_DIFF_LEN
  }

  /** Octets between two states of a history. */
  ghost function Between(kind: Kind, hist: History, m: nat, n: nat): Bytes
    requires Chain(kind, hist) && m <= n < |hist|
  {
    ChainExtends(kind, hist, m, n);
    ViewDiff(kind, hist[m], hist[n])
  }

  lemma ChainExtends(kind: Kind, hist: History, m: nat, n: nat)
    requires Chain(kind, hist) && m <= n < |hist|
    ensures Extends(kind, hist[m], hist[n])
    ensures kind == QueueKind ==> |hist[m]| == m
    ensures kind == GridKind ==> ShortRows(hist[m])
  {
    assert Linked(kind, hist, m) && Linked(kind, hist, n);
    if kind == QueueKind {
      assert hist[m] == hist[n][..m];
    }
  }

  /** The retained states are those numbered `assumed ..= currentNum`, without a gap. */
  ghost predicate Retained(c: ChannelState, hist: History) {
    && c.currentNum + 1 == |hist|
    && c.assumed <= c.currentNum
    && |c.sent| == c.currentNum - c.assumed + 1
    && (forall k | 0 <= k < |c.sent| :: RetainedAt(c, hist, k))
  }

  ghost predicate RetainedAt(c: ChannelState, hist: History, k: nat)
    requires k < |c.sent| && c.assumed + k < |hist|
  {
    && c.sent[k].num == c.assumed + k
    && c.sent[k].state.Kind() == c.initial.Kind()
    && Shows(c.sent[k].state, hist[c.assumed + k])
    && c.sent[k].state.Base() <= c.assumed
  }

  /** The sending half of a channel is in order. */
  ghost predicate Sends(c: ChannelState, hist: History) {
    && c.Typed()
    && Fresh(c.initial)
    && Chain(c.initial.Kind(), hist)
    && StepsFit(c.initial.Kind(), hist)
    && Retained(c, hist)
    && Shows(c.current, Newest(hist))
    && c.current.Base() <= c.assumed
  }

  /** A state an endpoint starts from. */
  ghost predicate Fresh(s: SspState) {
    if s.Messages? then s.queue == MessageQueues.EmptyQueue(s.queue.limits) else s.grid == RowGrids.EMPTY_GRID
  }

  lemma NewChannelSends(id: nat, initial: SspState, maxSent: nat)
    requires Fresh(initial) && (id == CHANNEL_MESSAGES <==> initial.Messages?)
    ensures Sends(NewChannel(id, initial, maxSent), [[]])
  {
    var c := NewChannel(id, initial, maxSent);
    assert RetainedAt(c, [[]], 0);
  }

  /** One state a message, or a row: every prefix of `view`. */
  ghost function Prefixes(view: View): (h: History)
    ensures |h| == |view| + 1 && h[0] == [] && Newest(h) == view
    ensures forall n | 0 <= n < |h| :: h[n] == view[..n]
    ensures Chain(QueueKind, h)
  {
    seq(|view| + 1, n requires 0 <= n <= |view| => view[..n])
  }

  // ---------- what a session lets onto a channel ----------

  /** `queue_message` and `set_screen`: refuse a change whose own step cannot fit one datagram. */
  function Offer(c: ChannelState, change: Change): Result<ChannelState, TransportError>
    requires c.Typed() && change.Kind() == c.initial.Kind()
  {
    if change.PushMessage? then
      if |change.message| > MAX_MESSAGE_BYTES then Err(DiffTooLarge(|change.message|, MAX_MESSAGE_BYTES))
      else c.Advance(change)
    else
      var size := |RowGrids.Grid(change.rows).DiffFrom(c.current.grid)|;
      if size > MAX_DIFF_LEN then Err(DiffTooLarge(size, MAX_DIFF_LEN))
      else c.Advance(change)
  }

  lemma OfferedIsTyped(c: ChannelState, change: Change)
    requires c.Typed() && change.Kind() == c.initial.Kind() && Offer(c, change).Ok?
    ensures var c' := Offer(c, change).value;
            && c'.Typed() && c'.id == c.id && c'.initial == c.initial && c'.assumed == c.assumed
            && c'.received == c.received && c'.receivedNum == c.receivedNum
  {
    hide SspState.Changed;
    assert c.current.Changed(change).Ok? ==> c.current.Changed(change).value.Kind() == c.initial.Kind();
  }

  /** `set_screen`: the one-datagram check, then the channel's own. */
  method OfferGrid(channel: Channel, rows: seq<Bytes>) returns (r: Result<(), TransportError>)
    requires channel.Value().Typed() && channel.initial.Screen?
    modifies channel
    ensures channel.Value().Typed()
    ensures r.Err? ==> channel.Value() == old(channel.Value())
    ensures Offer(old(channel.Value()), SetRows(rows)) == if r.Ok? then Ok(channel.Value()) else Err(r.error)
  {
    var next := RowGrids.Grid(rows);
    var size := |next.DiffFrom(channel.current.grid)|;
    if size > MAX_DIFF_LEN {
      return Err(DiffTooLarge(size, MAX_DIFF_LEN));
    }
    r := channel.Advance(SetRows(rows));
  }

  /** A grid offered to a session has a row count the wire's 32-bit field can carry. */
  predicate WireSized(change: Change) {
    change.SetRows? ==> |change.rows| < U32_SPAN
  }

  lemma ChainGrows(hist: History, kind: Kind, change: Change)
    requires Chain(kind, hist) && StepsFit(kind, hist) && change.Kind() == kind
    requires kind == QueueKind ==> |change.message| <= MAX_MESSAGE_BYTES
    requires kind == GridKind ==> |ViewDiff(kind, Newest(hist), change.rows)| <= MAX_DIFF_LEN && WireSized(change)
    ensures var hist' := hist + [ViewAfter(change, Newest(hist))];
            Chain(kind, hist') && StepsFit(kind, hist')
  {
    var view := ViewAfter(change, Newest(hist));
    var hist': History := hist + [view];
    if kind == QueueKind {
      PushFits(Newest(hist), change.message);
    } else {
      assert ShortRows(Newest(hist)) by { assert Linked(kind, hist, |hist| - 1); }
      RowsStayShort(Newest(hist), view);
    }
    forall n | 0 <= n < |hist'|
      ensures Linked(kind, hist', n)
    {
      if n < |hist| {
        assert Linked(kind, hist, n);
      }
    }
    forall n | 0 <= n < |hist'| - 1
      ensures StepFits(kind, hist', n)
    {
      if n < |hist| - 1 {
        assert StepFits(kind, hist, n);
      }
    }
  }

  /** An accepted change becomes the next state of the history and nothing else moves. */
  lemma OfferExtends(c: ChannelState, hist: History, change: Change)
    requires Sends(c, hist) && change.Kind() == c.initial.Kind() && WireSized(change)
    requires Offer(c, change).Ok?
    ensures var c' := Offer(c, change).value;
            && Sends(c', hist + [ViewAfter(change, Newest(hist))])
            && c'.current.Base() == c.current.Base()
            && c' == c.(current := c'.current, currentNum := c'.currentNum, sent := c'.sent)
  {
    var hist': History := hist + [ViewAfter(change, Newest(hist))];
    var c' := Offer(c, change).value;
    ChainGrows(hist, c.initial.Kind(), change);
    ChangeShows(c.current, Newest(hist), change);
    RetainedGrows(c, hist, c', hist');
  }

  lemma RetainedGrows(c: ChannelState, hist: History, c': ChannelState, hist': History)
    requires Retained(c, hist) && |hist'| == |hist| + 1 && hist'[..|hist|] == hist
    requires c'.initial == c.initial && c'.assumed == c.assumed && c'.currentNum == c.currentNum + 1
    requires c'.sent == c.sent + [Sent(c'.currentNum, c'.current)]
    requires c'.current.Kind() == c.initial.Kind()
    requires Shows(c'.current, Newest(hist')) && c'.current.Base() <= c.assumed
    ensures Retained(c', hist')
  {
    forall k | 0 <= k < |c'.sent|
      ensures RetainedAt(c', hist', k)
    {
      if k < |c.sent| {
        assert RetainedAt(c, hist, k);
        assert hist'[c.assumed + k] == hist'[..|hist|][c.assumed + k];
      }
    }
  }

  // ---------- acknowledgements ----------

  lemma RetainsExactly(c: ChannelState, hist: History, num: nat)
    requires Retained(c, hist)
    ensures c.Retains(num) <==> c.assumed <= num <= c.currentNum
  {
    if c.assumed <= num <= c.currentNum {
      assert RetainedAt(c, hist, num - c.assumed);
    }
    forall k | 0 <= k < |c.sent| && c.sent[k].num == num
      ensures c.assumed <= num <= c.currentNum
    {
      assert RetainedAt(c, hist, k);
    }
  }

  lemma {:induction false} DropBelowSkips(sent: seq<Sent>, first: nat, drop: nat)
    requires drop <= |sent| && forall k | 0 <= k < |sent| :: sent[k].num == first + k
    ensures DropBelow(sent, first + drop) == sent[drop..]
    decreases drop
  {
    if drop > 0 {
      DropBelowSkips(sent[1..], first + 1, drop - 1);
      assert sent[1..][drop - 1..] == sent[drop..];
    }
  }

  /** An acknowledgement is taken up exactly when it names a retained state above the assumed one. */
  lemma AcknowledgeMoves(c: ChannelState, hist: History, ackNum: nat)
    requires Sends(c, hist)
    ensures var c' := c.Acknowledge(ackNum);
            && Sends(c', hist)
            && c'.assumed == (if c.assumed < ackNum <= c.currentNum then ackNum else c.assumed)
            && c' == c.(assumed := c'.assumed, sent := c'.sent)
  {
    RetainsExactly(c, hist, ackNum);
    if c.assumed < ackNum <= c.currentNum {
      var drop := ackNum - c.assumed;
      forall k | 0 <= k < |c.sent|
        ensures c.sent[k].num == c.assumed + k
      {
        assert RetainedAt(c, hist, k);
      }
      DropBelowSkips(c.sent, c.assumed, drop);
      var c' := c.Acknowledge(ackNum);
      forall k | 0 <= k < |c'.sent|
        ensures RetainedAt(c', hist, k)
      {
        assert RetainedAt(c, hist, drop + k);
      }
    }
  }

  /** Whatever a peer claims, hearing it keeps the sending half in order. */
  lemma HeardKeeps(c: ChannelState, hist: History, ackNum: nat, throwawayNum: nat)
    requires Sends(c, hist)
    ensures var c' := c.Heard(ackNum, throwawayNum);
            && Sends(c', hist)
            && c'.assumed == (if c.assumed < ackNum <= c.currentNum then ackNum else c.assumed)
            && c' == c.(assumed := c'.assumed, sent := c'.sent, current := c'.current)
            && (throwawayNum == ackNum && c.current.Messages? && c.current.Base() == c.assumed
                ==> c'.current.Base() == c'.assumed)
  {
    var acked := c.Acknowledge(ackNum);
    AcknowledgeMoves(c, hist, ackNum);
    ReleaseKeeps(acked, hist, if throwawayNum <= acked.assumed then throwawayNum else acked.assumed);
  }

  lemma HeardIsLocal(c: ChannelState, ackNum: nat, throwawayNum: nat)
    ensures var h := c.Heard(ackNum, throwawayNum);
            h.received == c.received && h.receivedNum == c.receivedNum && h.initial == c.initial && h.id == c.id
  {
  }

  lemma ReleaseKeeps(c: ChannelState, hist: History, num: nat)
    requires Sends(c, hist) && num <= c.assumed
    ensures var c' := c.(current := c.current.ReleaseThrough(num));
            && Sends(c', hist)
            && (c.current.Messages? && c.current.Base() <= num ==> c'.current.Base() == num)
            && (c.current.Messages? && num <= c.current.Base() ==> c'.current.Base() == c.current.Base())
  {
    ReleaseShows(c.current, Newest(hist), num);
    var c' := c.(current := c.current.ReleaseThrough(num));
    forall k | 0 <= k < |c'.sent|
      ensures RetainedAt(c', hist, k)
    {
      assert RetainedAt(c, hist, k);
    }
  }

  // ---------- no wedge ----------

  lemma StepDiffMeans(c: ChannelState, hist: History, k: nat)
    requires Sends(c, hist) && k < |c.sent|
    ensures c.StepDiff(k) == Between(c.initial.Kind(), hist, c.assumed, c.assumed + k)
  {
    assert RetainedAt(c, hist, 0) && RetainedAt(c, hist, k);
    ChainExtends(c.initial.Kind(), hist, c.assumed, c.assumed + k);
    DiffOfViews(c.sent[k].state, c.sent[0].state, hist[c.assumed + k], hist[c.assumed]);
  }

  lemma FullDiffMeans(c: ChannelState, hist: History)
    requires Sends(c, hist)
    ensures c.current.DiffFrom(c.sent[0].state) == Between(c.initial.Kind(), hist, c.assumed, c.currentNum)
  {
    assert RetainedAt(c, hist, 0);
    ChainExtends(c.initial.Kind(), hist, c.assumed, c.currentNum);
    DiffOfViews(c.current, c.sent[0].state, hist[c.currentNum], hist[c.assumed]);
  }

  /** The Instruction carries the diff between two numbered states, inside one datagram. */
  ghost predicate Carries(i: Packets.Instruction, kind: Kind, hist: History) {
    && Chain(kind, hist)
    && i.oldNum <= i.newNum < |hist|
    && i.diff == Between(kind, hist, i.oldNum, i.newNum)
    && |i.diff| <= MAX_DIFF_LEN
  }

  /**
   * No wedge: an in-order channel always has something to send. The Instruction fits a
   * datagram, starts at the state the peer is believed to hold, and moves past it
   * whenever anything is pending.
   */
  lemma NeverWedged(c: ChannelState, hist: History)
    requires Sends(c, hist)
    ensures c.NextInstruction().Ok?
    ensures var i := c.NextInstruction().value;
            && Carries(i, c.initial.Kind(), hist)
            && i == c.InstructionWith(i.newNum, i.diff)
            && (c.IsPending() ==> i.newNum > i.oldNum)
            && (|Between(c.initial.Kind(), hist, c.assumed, c.currentNum)| <= MAX_DIFF_LEN ==> i.newNum == c.currentNum)
  {
    FullDiffMeans(c, hist);
    if |c.current.DiffFrom(c.sent[0].state)| > MAX_DIFF_LEN {
      WalkReaches(c, hist);
    }
  }

  /** When the full diff is too large, the walk still gets at least one state ahead. */
  lemma WalkReaches(c: ChannelState, hist: History)
    requires Sends(c, hist) && |c.current.DiffFrom(c.sent[0].state)| > MAX_DIFF_LEN
    ensures var k := c.Reach(0);
            && 0 < k
            && c.sent[k].num == c.assumed + k
            && c.StepDiff(k) == Between(c.initial.Kind(), hist, c.assumed, c.assumed + k)
            && |c.StepDiff(k)| <= MAX_DIFF_LEN
  {
    FullDiffMeans(c, hist);
    if c.currentNum == c.assumed {
      NothingPendingFits(c.initial.Kind(), hist, c.assumed);
    }
    assert StepFits(c.initial.Kind(), hist, c.assumed);
    StepDiffMeans(c, hist, 1);
    c.ReachStops(0);
    var k := c.Reach(0);
    assert RetainedAt(c, hist, k);
    StepDiffMeans(c, hist, k);
  }

  lemma NothingPendingFits(kind: Kind, hist: History, n: nat)
    requires Chain(kind, hist) && n < |hist|
    ensures |Between(kind, hist, n, n)| <= MAX_DIFF_LEN
  {
    ChainExtends(kind, hist, n, n);
    if kind == GridKind {
      UnchangedPrefix(hist[n], hist[n], |hist[n]|);
    } else {
      assert hist[n][n..] == [];
    }
  }

  lemma QueueDiffGrows(hist: History, from: nat, m: nat, n: nat)
    requires Chain(QueueKind, hist) && from <= m <= n < |hist|
    ensures |Between(QueueKind, hist, from, m)| <= |Between(QueueKind, hist, from, n)|
  {
    ChainExtends(QueueKind, hist, from, m);
    ChainExtends(QueueKind, hist, from, n);
    ChainExtends(QueueKind, hist, m, n);
    var shorter, longer := hist[m][from..], hist[n][from..];
    assert longer == shorter + hist[n][m..];
    MessageQueues.FramesAppend(shorter, hist[n][m..]);
  }

  /** On channel 0 the step chosen is the largest of all that fit. */
  lemma LargestThatFits(c: ChannelState, hist: History, n: nat)
    requires Sends(c, hist) && c.id == CHANNEL_MESSAGES
    requires c.NextInstruction().Ok? && c.NextInstruction().value.newNum < n && c.assumed <= n <= c.currentNum
    ensures |Between(QueueKind, hist, c.assumed, n)| > MAX_DIFF_LEN
  {
    hide c.NextInstruction, c.Reach, c.StepDiff;
    c.InstructionNumber();
    if |c.current.DiffFrom(c.sent[0].state)| > MAX_DIFF_LEN {
      WalkReaches(c, hist);
      c.ReachStops(0);
      BeyondTooLarge(c, hist, c.Reach(0) + 1, n);
    }
  }

  lemma BeyondTooLarge(c: ChannelState, hist: History, k: nat, n: nat)
    requires Sends(c, hist) && c.id == CHANNEL_MESSAGES
    requires k < |c.sent| && |c.StepDiff(k)| > MAX_DIFF_LEN && c.assumed + k <= n <= c.currentNum
    ensures |Between(QueueKind, hist, c.assumed, n)| > MAX_DIFF_LEN
  {
    hide StepsFit;
    StepDiffMeans(c, hist, k);
    QueueDiffGrows(hist, c.assumed, c.assumed + k, n);
  }
}
