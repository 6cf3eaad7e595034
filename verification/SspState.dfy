/** What a channel synchronises: the `SspState` trait, as the sum of its two implementations. */
module SspStates {
  import opened Bytes
  import opened Protocol
  import opened Wrappers
  import opened MessageQueues
  import opened RowGrids

  datatype Kind = QueueKind | GridKind

  /** The two mutations a session makes to the state it sends. */
  datatype Change = PushMessage(message: Bytes) | SetRows(rows: seq<Bytes>) {
    function Kind(): Kind { if PushMessage? then QueueKind else GridKind }
  }

  datatype SspState = Messages(queue: Queue) | Screen(grid: Grid) {
    function Kind(): Kind { if Messages? then QueueKind else GridKind }

    function DiffFrom(prev: SspState): Bytes
      requires prev.Kind() == Kind()
    {
      if Messages? then queue.DiffFrom(prev.queue) else grid.DiffFrom(prev.grid)
    }

    function ApplyDiff(diff: Bytes): (r: Result<SspState, StateError>)
      ensures r.Ok? ==> r.value.Kind() == Kind()
    {
      match this
      case Messages(q) => (match q.ApplyDiff(diff) case Ok(q') => Ok(Messages(q')) case Err(e) => Err(e))
      case Screen(g) => (match g.ApplyDiff(diff) case Ok(g') => Ok(Screen(g')) case Err(e) => Err(e))
    }

    /** `release_through`: a latest-wins state holds nothing it could release. */
    function ReleaseThrough(num: nat): SspState {
      if Messages? then Messages(queue.PruneThrough(num)) else this
    }

    function ResetOrigin(): SspState {
      if Messages? then Messages(queue.ResetOrigin()) else this
    }

    /** `rebase_steps`: by default a state is rebuilt in one step. */
    function RebaseSteps(): seq<SspState> {
      if Messages? then [this]
      else seq(|grid.rows|, k requires 0 <= k < |grid.rows| => Screen(grid.RebaseSteps()[k]))
    }

    function Changed(change: Change): (r: Result<SspState, StateError>)
      requires change.Kind() == Kind()
      ensures r.Ok? ==> r.value.Kind() == Kind()
    {
      if Messages? then
        match queue.Push(change.message)
        case Ok(q) => Ok(Messages(q))
        case Err(e) => Err(e)
      else
        Ok(Screen(Grid(change.rows)))
    }

    function Base(): nat { if Messages? then queue.base else 0 }
  }

  // ---------- what a state means ----------

  /** Every message appended since state 0, or the rows of the grid. */
  type View = seq<Bytes>

  /** `s` stands for `view`; a queue may have dropped a prefix of it. */
  ghost predicate Shows(s: SspState, view: View) {
    match s
    case Messages(q) => q.base <= |view| && q.messages == view[q.base..] && q.Counted()
    case Screen(g) => g.rows == view
  }

  /** A queue only ever grows; a grid may turn into anything. */
  ghost predicate Extends(kind: Kind, prev: View, next: View) {
    kind == QueueKind ==> prev <= next
  }

  /** The octets that turn one view into another. */
  ghost function ViewDiff(kind: Kind, prev: View, next: View): Bytes
    requires Extends(kind, prev, next)
  {
    if kind == QueueKind then EncodeMessages(next[|prev|..]) else Grid(next).DiffFrom(Grid(prev))
  }

  function ViewAfter(change: Change, view: View): View {
    if change.PushMessage? then view + [change.message] else change.rows
  }

  lemma ChangeShows(s: SspState, view: View, change: Change)
    requires Shows(s, view) && change.Kind() == s.Kind() && s.Changed(change).Ok?
    ensures Shows(s.Changed(change).value, ViewAfter(change, view))
    ensures s.Changed(change).value.Base() == s.Base()
    ensures Extends(s.Kind(), view, ViewAfter(change, view))
  {
    if s.Messages? {
      PushKeepsCount(s.queue, change.message);
    }
  }

  lemma ReleaseShows(s: SspState, view: View, num: nat)
    requires Shows(s, view)
    ensures Shows(s.ReleaseThrough(num), view) && s.ReleaseThrough(num).Kind() == s.Kind()
    ensures s.Messages? && num <= |view| ==>
              s.ReleaseThrough(num).Base() == if num <= s.Base() then s.Base() else num
  {
  }

  /** A diff between two held states depends only on what they stand for. */
  lemma DiffOfViews(next: SspState, prev: SspState, nextView: View, prevView: View)
    requires next.Kind() == prev.Kind() && Shows(next, nextView) && Shows(prev, prevView)
    requires Extends(next.Kind(), prevView, nextView) && next.Base() <= |prevView|
    ensures next.DiffFrom(prev) == ViewDiff(next.Kind(), prevView, nextView)
  {
    if next.Messages? {
      var q := next.queue;
      assert q.Missing(prev.queue) == nextView[|prevView|..];
    }
  }

  /** A grid diff that fits one datagram carries only short rows. */
  lemma SmallDiffSendable(next: Grid, prev: Grid)
    requires |next.DiffFrom(prev)| <= MAX_DIFF_LEN
    ensures Sendable(next, prev)
  {
    var changed := RowGrids.Changed(next.rows, prev.rows, |next.rows|);
    RowFramesLength(changed);
    forall u | u in changed
      ensures |u.row| <= MAX_DIFF_LEN
    {
      UpdateWithinSize(changed, u);
    }
  }

  lemma {:induction false} UpdateWithinSize(updates: seq<Update>, u: Update)
    requires u in updates
    ensures 8 + |u.row| <= FramedSize(updates)
  {
    if u != updates[0] {
      UpdateWithinSize(updates[1..], u);
    }
  }

  /** Whether a state standing for `prev` can take on `next`. */
  ghost predicate CanHold(s: SspState, prev: View, next: View)
    requires Extends(s.Kind(), prev, next)
  {
    match s
    case Messages(q) => q.HasRoom(|next| - |prev|, Total(next[|prev|..]))
    case Screen(g) => |next| <= MAX_GRID_ROWS
  }

  /**
   * The diff law over both channels: a datagram-sized diff, applied to any state that
   * stands for its origin, yields a state that stands for its target. It is refused
   * exactly when the target is past the state's bound.
   */
  lemma ApplyShows(held: SspState, prev: View, next: View)
    requires Shows(held, prev) && Extends(held.Kind(), prev, next)
    requires |ViewDiff(held.Kind(), prev, next)| <= MAX_DIFF_LEN
    requires held.Screen? ==> |next| < U32_SPAN
    ensures var r := held.ApplyDiff(ViewDiff(held.Kind(), prev, next));
            && (r.Ok? <==> CanHold(held, prev, next))
            && (r.Ok? ==> Shows(r.value, next) && r.value.Base() == held.Base())
  {
    if held.Messages? {
      var added := next[|prev|..];
      var diff := EncodeMessages(added);
      SmallDiffFramable(added);
      EncodedMessagesParse(added);
      if held.queue.ApplyDiff(diff).Ok? {
        ApplyKeepsCount(held.queue, diff);
        assert next == prev + added;
      }
    } else {
      SmallDiffSendable(Grid(next), Grid(prev));
      if |next| <= MAX_GRID_ROWS {
        DiffRebuilds(Grid(next), Grid(prev));
      } else {
        TallGridRefused(Grid(next), Grid(prev), held.grid);
      }
    }
  }

  // ---------- one change is one datagram ----------

  /** Longest row a grid update can carry in one datagram. */
  const MAX_ROW_BYTES: nat := MAX_DIFF_LEN - 16

  lemma PushFits(view: View, message: Bytes)
    ensures |ViewDiff(QueueKind, view, view + [message])| == 8 + |message|
  {
    var added := (view + [message])[|view|..];
    assert added == [message];
    FramesLength(added);
    assert Total(added) == |message| by { assert added[1..] == []; }
  }

  /** Rows a small diff leaves behind were either there already or are short. */
  lemma RowsStayShort(prev: View, next: View)
    requires |ViewDiff(GridKind, prev, next)| <= MAX_DIFF_LEN
    requires forall row | row in prev :: |row| <= MAX_ROW_BYTES
    ensures forall row | row in next :: |row| <= MAX_ROW_BYTES
  {
    var changed := RowGrids.Changed(next, prev, |next|);
    ChangedUpdates(next, prev, |next|);
    RowFramesLength(changed);
    forall i | 0 <= i < |next|
      ensures |next[i]| <= MAX_ROW_BYTES
    {
      if Differs(next, prev, i) {
        UpdateWithinSize(changed, Update(i, next[i]));
      } else {
        assert next[i] in prev;
      }
    }
  }

  /** Adding one short row to a grid is a one-datagram step. */
  lemma RowStepSize(rows: View, row: Bytes)
    ensures |ViewDiff(GridKind, rows, rows + [row])| == 16 + |row|
  {
    var next := rows + [row];
    UnchangedPrefix(next, rows, |rows|);
    var changed := RowGrids.Changed(next, rows, |next|);
    assert changed == [Update(|rows|, row)];
    RowFramesLength(changed);
    assert FramedSize(changed) == 8 + |row| by { assert changed[1..] == []; }
  }

  lemma {:induction false} UnchangedPrefix(next: View, prev: View, n: nat)
    requires n <= |next| && n <= |prev| && next[..n] == prev[..n]
    ensures RowGrids.Changed(next, prev, n) == []
  {
    if n > 0 {
      assert next[n - 1] == next[..n][n - 1] && prev[n - 1] == prev[..n][n - 1];
      assert next[..n - 1] == next[..n][..n - 1] && prev[..n - 1] == prev[..n][..n - 1];
      UnchangedPrefix(next, prev, n - 1);
    }
  }
}
