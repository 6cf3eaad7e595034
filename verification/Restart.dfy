/** A peer that restarts at state 0 is sent exactly what its predecessor had not acknowledged. */
module Restart {
  import RowGrids
  import opened SspStates
  import opened Channels
  import opened Histories

  /** Messages above the acknowledged one, one per state; or the grid, one row per state. */
  ghost function RestartHistory(kind: Kind, hist: History, assumed: nat): (h: History)
    requires Chain(kind, hist) && assumed < |hist|
  {
    ChainExtends(kind, hist, assumed, |hist| - 1);
    var view := Newest(hist);
    if kind == QueueKind then Prefixes(view[assumed..])
    else if view == [] then [[], []]
    else Prefixes(view)
  }

  // ---------- channel 0 ----------

  /** What rebasing leaves of the `n`-th retained state. */
  ghost predicate RebasedAt(sent: Sent, n: nat, kind: Kind, view: View) {
    && sent.num == n
    && sent.state.Kind() == kind
    && sent.state.Base() == 0
    && n <= |view|
    && Shows(sent.state, view[..n])
  }

  lemma RebasedQueueShows(s: SspState, view: View, assumed: nat)
    requires s.Messages? && Shows(s, view) && s.Base() <= assumed <= |view|
    ensures var r := RebasedQueue(s, assumed);
            r.Messages? && r.Base() == 0 && r.queue.Num() == |view| - assumed && Shows(r, view[assumed..])
  {
  }

  lemma RebasedLast(c: ChannelState, hist: History, k: nat)
    requires Sends(c, hist) && c.initial.Messages? && 0 < k < |c.sent|
    ensures c.sent[k].num > c.assumed
    ensures Linked(QueueKind, hist, c.assumed)
    ensures var r := RebasedQueue(c.sent[k].state, c.assumed);
            r.Messages? && RebasedAt(Sent(r.queue.Num(), r), k, QueueKind, Newest(hist)[c.assumed..])
  {
    assert RetainedAt(c, hist, k);
    assert Linked(QueueKind, hist, c.assumed + k);
    RebasedQueueShows(c.sent[k].state, hist[c.assumed + k], c.assumed);
    assert hist[c.assumed + k][c.assumed..] == Newest(hist)[c.assumed..][..k];
  }

  lemma {:induction false} RebasedPrefix(c: ChannelState, hist: History, k: nat)
    requires Sends(c, hist) && c.initial.Messages? && 0 < k <= |c.sent|
    ensures Linked(QueueKind, hist, c.assumed)
    ensures var r := RebasedQueues(c.sent[..k], c.assumed, c.initial);
            |r| == k && forall n | 0 <= n < k :: RebasedAt(r[n], n, QueueKind, Newest(hist)[c.assumed..])
  {
    hide StepsFit, Linked, Shows;
    var pending := Newest(hist)[c.assumed..];
    assert RetainedAt(c, hist, k - 1);
    assert c.sent[..k][..k - 1] == c.sent[..k - 1];
    if k == 1 {
      assert RebasedQueues(c.sent[..0], c.assumed, c.initial) == [Sent(0, c.initial)];
      assert RebasedAt(Sent(0, c.initial), 0, QueueKind, pending) by { EmptyShows(c.initial, pending); }
    } else {
      RebasedPrefix(c, hist, k - 1);
      RebasedLast(c, hist, k - 1);
      var done := RebasedQueues(c.sent[..k - 1], c.assumed, c.initial);
      assert RebasedAt(done[k - 2], k - 2, QueueKind, pending);
    }
  }

  lemma EmptyShows(s: SspState, view: View)
    requires s.Messages? && Histories.Fresh(s)
    ensures Shows(s, view[..0])
  {
  }

  lemma PrefixChain(hist: History, assumed: nat)
    requires Chain(QueueKind, hist) && StepsFit(QueueKind, hist) && assumed < |hist|
    ensures var h := RestartHistory(QueueKind, hist, assumed); Chain(QueueKind, h) && StepsFit(QueueKind, h)
  {
    var h := RestartHistory(QueueKind, hist, assumed);
    var view := Newest(hist);
    assert forall n | 0 <= n < |h| :: Linked(QueueKind, h, n);
    forall n | 0 <= n < |h| - 1
      ensures StepFits(QueueKind, h, n)
    {
      assert StepFits(QueueKind, hist, assumed + n);
      assert Linked(QueueKind, hist, assumed + n) && Linked(QueueKind, hist, assumed + n + 1);
      assert h[n + 1][|h[n]|..] == [view[assumed + n]] == hist[assumed + n + 1][|hist[assumed + n]|..];
    }
  }

  lemma QueueRestarts(c: ChannelState, hist: History)
    requires Sends(c, hist) && c.initial.Messages? && c.current.Base() == c.assumed
    ensures Sends(c.ResetPeer(), RestartHistory(QueueKind, hist, c.assumed))
    ensures c.ResetPeer().current.Base() == 0
  {
    var h := RestartHistory(QueueKind, hist, c.assumed);
    var pending := Newest(hist)[c.assumed..];
    PrefixChain(hist, c.assumed);
    RebasedPrefix(c, hist, |c.sent|);
    assert c.sent[..|c.sent|] == c.sent;
    var rebased := RebasedQueues(c.sent, c.assumed, c.initial);
    assert RebasedAt(rebased[|c.sent| - 1], |c.sent| - 1, QueueKind, pending);
    var r := c.ResetPeer();
    assert r.sent == rebased;
    forall k | 0 <= k < |r.sent|
      ensures RetainedAt(r, h, k)
    {
      assert RebasedAt(rebased[k], k, QueueKind, pending);
    }
  }

  // ---------- channel 1 ----------

  lemma RowsChain(view: View)
    requires ShortRows(view)
    ensures var h := if view == [] then [[], []] else Prefixes(view); Chain(GridKind, h) && StepsFit(GridKind, h)
  {
    var h: History := if view == [] then [[], []] else Prefixes(view);
    assert forall n | 0 <= n < |h| :: Linked(GridKind, h, n);
    forall n | 0 <= n < |h| - 1
      ensures StepFits(GridKind, h, n)
    {
      if view == [] {
        UnchangedPrefix([], [], 0);
      } else {
        assert h[n + 1] == h[n] + [view[n]];
        RowStepSize(h[n], view[n]);
      }
    }
  }

  /** The `k`-th state of a rebased grid channel holds the first `k` rows. */
  lemma RebasedGridAt(c: ChannelState, k: nat)
    requires c.Typed() && c.initial == Screen(RowGrids.EMPTY_GRID)
    ensures var rows, r := c.current.grid.rows, c.ResetPeer();
            && |r.sent| == (if rows == [] then 2 else |rows| + 1)
            && r.currentNum + 1 == |r.sent|
            && r.current == c.current
            && (k < |r.sent| ==> r.sent[k] == Sent(k, Screen(RowGrids.Grid(if rows == [] then [] else rows[..k]))))
  {
    var rows := c.current.grid.rows;
    assert rows[..0] == [];
    if rows == [] {
      assert c.current == Screen(RowGrids.EMPTY_GRID);
    } else if 0 < k <= |rows| {
      var steps := c.current.RebaseSteps();
      assert steps[k - 1] == Screen(c.current.grid.RebaseSteps()[k - 1]) == Screen(RowGrids.Grid(rows[..k]));
      assert NumberFromOne(steps)[k - 1] == Sent(k, steps[k - 1]);
      assert ([Sent(0, c.initial)] + NumberFromOne(steps))[k] == NumberFromOne(steps)[k - 1];
    }
  }

  lemma GridRestarts(c: ChannelState, hist: History)
    requires Sends(c, hist) && c.initial.Screen?
    ensures Sends(c.ResetPeer(), RestartHistory(GridKind, hist, c.assumed))
  {
    assert Linked(GridKind, hist, |hist| - 1);
    RowsChain(Newest(hist));
    var h := RestartHistory(GridKind, hist, c.assumed);
    var r := c.ResetPeer();
    forall k | 0 <= k < |r.sent|
      ensures RetainedAt(r, h, k)
    {
      RebasedGridAt(c, k);
    }
    RebasedGridAt(c, 0);
    assert forall s | s in r.sent :: s.state.Screen?;
  }

  // ---------- both ----------

  /** After its peer restarts, an in-order endpoint is in order again, in a history of what is pending. */
  lemma ResetKeepsPending(c: ChannelState, hist: History)
    requires Sends(c, hist) && (c.current.Messages? ==> c.current.Base() == c.assumed)
    ensures var h := RestartHistory(c.initial.Kind(), hist, c.assumed);
            && Sends(c.ResetPeer(), h)
            && Newest(h) == (if c.initial.Messages? then Newest(hist)[c.assumed..] else Newest(hist))
    ensures c.ResetPeer().current.Messages? ==> c.ResetPeer().current.Base() == c.ResetPeer().assumed
  {
    if c.initial.Messages? {
      QueueRestarts(c, hist);
    } else {
      GridRestarts(c, hist);
    }
  }
}
