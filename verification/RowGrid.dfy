/** Channel 1: a latest-wins grid of rows, synchronised by sending the rows that changed. */
module RowGrids {
  import opened Bytes
  import opened Protocol
  import opened Wrappers

  /** The decoder refuses a grid declared taller than this. */
  const MAX_GRID_ROWS: nat := 65535

  datatype Update = Update(index: nat, row: Bytes)

  // ---------- the wire form of a grid diff ----------

  function RowFrame(u: Update): Bytes {
    BeU32(u.index) + BeU32(|u.row|) + u.row
  }

  function RowFrames(updates: seq<Update>): Bytes {
    if updates == [] then [] else RowFrame(updates[0]) + RowFrames(updates[1..])
  }

  /** row count, number of changed rows, then index, length and body of each. */
  function EncodeRows(rows: nat, updates: seq<Update>): Bytes {
    BeU32(rows) + BeU32(|updates|) + RowFrames(updates)
  }

  function FramedSize(updates: seq<Update>): nat {
    if updates == [] then 0 else 8 + |updates[0].row| + FramedSize(updates[1..])
  }

  ghost predicate UpdateFramable(u: Update) {
    u.index < U32_SPAN && |u.row| < U32_SPAN
  }

  ghost predicate Framable(updates: seq<Update>) {
    |updates| < U32_SPAN && forall u | u in updates :: UpdateFramable(u)
  }

  function ParseUpdates(b: Bytes, count: nat): Result<seq<Update>, StateError>
    decreases count
  {
    if count == 0 then
      if b == [] then Ok([]) else Err(Malformed)
    else if |b| < 8 || |b| < 8 + ReadU32(b, 4) then
      Err(Malformed)
    else
      var end := 8 + ReadU32(b, 4);
      match ParseUpdates(b[end..], count - 1)
      case Ok(rest) => Ok([Update(ReadU32(b, 0), b[8..end])] + rest)
      case Err(e) => Err(e)
  }

  function ParseRows(diff: Bytes): Result<(nat, seq<Update>), StateError> {
    if |diff| < 4 || ReadU32(diff, 0) > MAX_GRID_ROWS || |diff| < 8 then
      Err(Malformed)
    else
      match ParseUpdates(diff[8..], ReadU32(diff, 4))
      case Ok(updates) => Ok((ReadU32(diff, 0), updates))
      case Err(e) => Err(e)
  }

  lemma {:induction false} RowFramesAppend(a: seq<Update>, b: seq<Update>)
    ensures RowFrames(a + b) == RowFrames(a) + RowFrames(b)
  {
    if a == [] {
      assert a + b == b;
    } else {
      assert (a + b)[1..] == a[1..] + b;
      RowFramesAppend(a[1..], b);
    }
  }

  lemma {:induction false} RowFramesLength(updates: seq<Update>)
    ensures |RowFrames(updates)| == FramedSize(updates)
  {
    if updates != [] {
      RowFramesLength(updates[1..]);
    }
  }

  lemma UpdateParses(u: Update, tail: Bytes, count: nat)
    requires UpdateFramable(u)
    ensures ParseUpdates(RowFrame(u) + tail, count + 1)
         == match ParseUpdates(tail, count) case Ok(rest) => Ok([u] + rest) case Err(e) => Err(e)
  {
    hide BeU32, ReadU32;
    var b := RowFrame(u) + tail;
    assert b[0..4] == BeU32(u.index);
    assert b[4..8] == BeU32(|u.row|);
    U32Field(b, 0, u.index);
    U32Field(b, 4, |u.row|);
    assert b[8..8 + |u.row|] == u.row;
    assert b[8 + |u.row|..] == tail;
  }

  lemma {:induction false} UpdatesParse(updates: seq<Update>)
    requires forall u | u in updates :: UpdateFramable(u)
    ensures ParseUpdates(RowFrames(updates), |updates|) == Ok(updates)
  {
    if updates != [] {
      UpdateParses(updates[0], RowFrames(updates[1..]), |updates| - 1);
      UpdatesParse(updates[1..]);
      assert updates == [updates[0]] + updates[1..];
    }
  }

  lemma {:induction false} ParsedUpdates(b: Bytes, count: nat)
    requires ParseUpdates(b, count).Ok?
    ensures var updates := ParseUpdates(b, count).value;
            |updates| == count && RowFrames(updates) == b && forall u | u in updates :: UpdateFramable(u)
    decreases count
  {
    hide BeU32, ReadU32;
    if count > 0 {
      var end := 8 + ReadU32(b, 4);
      ParsedUpdates(b[end..], count - 1);
      U32Unread(b, 0);
      U32Unread(b, 4);
      assert b == b[0..4] + b[4..8] + b[8..end] + b[end..];
    }
  }

  /** Decoding inverts encoding, up to the cap on declared rows. */
  lemma EncodedRowsParse(rows: nat, updates: seq<Update>)
    requires rows <= MAX_GRID_ROWS && Framable(updates)
    ensures ParseRows(EncodeRows(rows, updates)) == Ok((rows, updates))
  {
    hide BeU32, ReadU32;
    EncodedFields(rows, updates);
    UpdatesParse(updates);
  }

  lemma EncodedFields(rows: nat, updates: seq<Update>)
    ensures var diff := EncodeRows(rows, updates);
            |diff| >= 8 && ReadU32(diff, 0) == rows % U32_SPAN && ReadU32(diff, 4) == |updates| % U32_SPAN
            && diff[8..] == RowFrames(updates)
  {
    hide BeU32, ReadU32;
    var diff := EncodeRows(rows, updates);
    assert diff[0..4] == BeU32(rows);
    assert diff[4..8] == BeU32(|updates|);
    U32Field(diff, 0, rows);
    U32Field(diff, 4, |updates|);
  }

  lemma ParsedRowsEncode(diff: Bytes)
    requires ParseRows(diff).Ok?
    ensures var (rows, updates) := ParseRows(diff).value;
            rows <= MAX_GRID_ROWS && Framable(updates) && EncodeRows(rows, updates) == diff
  {
    hide BeU32, ReadU32;
    ParsedUpdates(diff[8..], ReadU32(diff, 4));
    U32Unread(diff, 0);
    U32Unread(diff, 4);
    assert diff == diff[0..4] + diff[4..8] + diff[8..];
  }

  /** The decoder accepts exactly the encodings of at most `MAX_GRID_ROWS` rows. */
  lemma AcceptsExactlyEncodings(diff: Bytes)
    ensures ParseRows(diff).Ok? <==>
            exists rows: nat, updates :: rows <= MAX_GRID_ROWS && Framable(updates) && EncodeRows(rows, updates) == diff
  {
    if ParseRows(diff).Ok? {
      ParsedRowsEncode(diff);
    }
    forall rows: nat, updates | rows <= MAX_GRID_ROWS && Framable(updates) && EncodeRows(rows, updates) == diff
      ensures ParseRows(diff).Ok?
    {
      EncodedRowsParse(rows, updates);
    }
  }

  // ---------- the grid as a value ----------

  datatype Grid = Grid(rows: seq<Bytes>) {
    function DiffFrom(prev: Grid): Bytes {
      EncodeRows(|rows|, Changed(rows, prev.rows, |rows|))
    }

    function ApplyDiff(diff: Bytes): Result<Grid, StateError> {
      match ParseRows(diff)
      case Err(e) => Err(e)
      case Ok((count, updates)) =>
        if InRange(updates, count) then
          Ok(Grid(Overwrite(Resize(rows, count), updates)))
        else
          Err(Malformed)
    }

    /** The prefixes that rebuild this grid one row at a time. */
    function RebaseSteps(): seq<Grid> {
      seq(|rows|, k requires 0 <= k < |rows| => Grid(rows[..k + 1]))
    }
  }

  const EMPTY_GRID := Grid([])

  predicate InRange(updates: seq<Update>, count: nat) {
    forall k | 0 <= k < |updates| :: updates[k].index < count
  }

  predicate Differs(next: seq<Bytes>, prev: seq<Bytes>, at: nat)
    requires at < |next|
  {
    at >= |prev| || prev[at] != next[at]
  }

  /** The rows among the first `n` that `prev` does not already hold. */
  function Changed(next: seq<Bytes>, prev: seq<Bytes>, n: nat): seq<Update>
    requires n <= |next|
  {
    if n == 0 then []
    else if Differs(next, prev, n - 1) then Changed(next, prev, n - 1) + [Update(n - 1, next[n - 1])]
    else Changed(next, prev, n - 1)
  }

  function Resize(rows: seq<Bytes>, count: nat): (r: seq<Bytes>)
    ensures |r| == count
  {
    if count <= |rows| then rows[..count] else rows + seq(count - |rows|, _ => [])
  }

  function Overwrite(rows: seq<Bytes>, updates: seq<Update>): (r: seq<Bytes>)
    requires InRange(updates, |rows|)
    ensures |r| == |rows|
  {
    if updates == [] then rows
    else
      var last := updates[|updates| - 1];
      Overwrite(rows, updates[..|updates| - 1])[last.index := last.row]
  }

  lemma {:induction false} ChangedUpdates(next: seq<Bytes>, prev: seq<Bytes>, n: nat)
    requires n <= |next|
    ensures |Changed(next, prev, n)| <= n
    ensures forall u | u in Changed(next, prev, n) :: u.index < n && u.row == next[u.index]
    ensures forall i | 0 <= i < n && Differs(next, prev, i) :: Update(i, next[i]) in Changed(next, prev, n)
  {
    if n > 0 {
      ChangedUpdates(next, prev, n - 1);
    }
  }

  /** Writing the changed rows over the resized old grid rebuilds the new one from the top. */
  lemma {:induction false} OverwriteRebuilds(next: seq<Bytes>, prev: seq<Bytes>, n: nat)
    requires n <= |next|
    ensures InRange(Changed(next, prev, n), |next|)
    ensures Overwrite(Resize(prev, |next|), Changed(next, prev, n)) == next[..n] + Resize(prev, |next|)[n..]
  {
    var changed := Changed(next, prev, n);
    var resized := Resize(prev, |next|);
    ChangedUpdates(next, prev, n);
    if n == 0 {
      assert next[..0] + resized[0..] == resized;
    } else {
      OverwriteRebuilds(next, prev, n - 1);
      OneRowFurther(next, resized, n);
      if Differs(next, prev, n - 1) {
        assert changed[..|changed| - 1] == Changed(next, prev, n - 1);
      }
    }
  }

  lemma OneRowFurther(next: seq<Bytes>, resized: seq<Bytes>, n: nat)
    requires 0 < n <= |next| == |resized|
    ensures var before := next[..n - 1] + resized[n - 1..];
            && before[n - 1 := next[n - 1]] == next[..n] + resized[n..]
            && (resized[n - 1] == next[n - 1] ==> before == next[..n] + resized[n..])
  {
  }

  /** Every row of an overwritten grid was there before or came from an update. */
  lemma {:induction false} OverwriteOrigins(rows: seq<Bytes>, updates: seq<Update>, i: nat)
    requires InRange(updates, |rows|) && i < |rows|
    ensures var row := Overwrite(rows, updates)[i];
            row == rows[i] || exists u :: u in updates && u.row == row
  {
    if updates != [] {
      var front := updates[..|updates| - 1];
      OverwriteOrigins(rows, front, i);
      var last := updates[|updates| - 1];
      if last.index != i {
        assert Overwrite(rows, updates)[i] == Overwrite(rows, front)[i];
      } else {
        assert last in updates;
      }
    }
  }

  /** Every row a diff carries fits its 32-bit length. */
  ghost predicate Sendable(next: Grid, prev: Grid) {
    forall u | u in Changed(next.rows, prev.rows, |next.rows|) :: |u.row| < U32_SPAN
  }

  /** The diff law, one way: a grid inside the row cap is rebuilt from any other grid. */
  lemma DiffRebuilds(next: Grid, prev: Grid)
    requires |next.rows| <= MAX_GRID_ROWS && Sendable(next, prev)
    ensures prev.ApplyDiff(next.DiffFrom(prev)) == Ok(next)
  {
    var n := |next.rows|;
    ChangedUpdates(next.rows, prev.rows, n);
    EncodedRowsParse(n, Changed(next.rows, prev.rows, n));
    OverwriteRebuilds(next.rows, prev.rows, n);
    assert next.rows[..n] + Resize(prev.rows, n)[n..] == next.rows;
  }

  /** The diff law holds exactly inside the row cap and the 32-bit row lengths. */
  lemma DiffLaw(next: Grid, prev: Grid)
    ensures prev.ApplyDiff(next.DiffFrom(prev)) == Ok(next)
       <==> |next.rows| <= MAX_GRID_ROWS && Sendable(next, prev)
  {
    if |next.rows| <= MAX_GRID_ROWS && Sendable(next, prev) {
      DiffRebuilds(next, prev);
    } else if prev.ApplyDiff(next.DiffFrom(prev)) == Ok(next) {
      RebuiltIsSendable(next, prev);
    }
  }

  lemma RebuiltIsSendable(next: Grid, prev: Grid)
    requires prev.ApplyDiff(next.DiffFrom(prev)) == Ok(next)
    ensures |next.rows| <= MAX_GRID_ROWS && Sendable(next, prev)
  {
    var diff := next.DiffFrom(prev);
    var (count, updates) := ParseRows(diff).value;
    ParsedRowsEncode(diff);
    var resized := Resize(prev.rows, count);
    assert next.rows == Overwrite(resized, updates);
    forall u | u in Changed(next.rows, prev.rows, |next.rows|)
      ensures |u.row| < U32_SPAN
    {
      ChangedUpdates(next.rows, prev.rows, |next.rows|);
      ChangedDiffers(next.rows, prev.rows, |next.rows|, u);
      OverwriteOrigins(resized, updates, u.index);
    }
  }

  lemma {:induction false} ChangedDiffers(next: seq<Bytes>, prev: seq<Bytes>, n: nat, u: Update)
    requires n <= |next| && u in Changed(next, prev, n)
    ensures u.index < n && Differs(next, prev, u.index)
  {
    if !(Differs(next, prev, n - 1) && u == Update(n - 1, next[n - 1])) {
      ChangedDiffers(next, prev, n - 1, u);
    }
  }

  /** A grid declared taller than the cap, in the 32 bits of its row count, is refused. */
  lemma TallGridRefused(next: Grid, prev: Grid, held: Grid)
    requires |next.rows| % U32_SPAN > MAX_GRID_ROWS
    ensures held.ApplyDiff(next.DiffFrom(prev)) == Err(Malformed)
  {
    hide ReadU32, EncodeRows, Changed;
    EncodedFields(|next.rows|, Changed(next.rows, prev.rows, |next.rows|));
  }

  // ---------- the grid as the program keeps it ----------

  lemma ParseStep(diff: Bytes, offset: nat, count: nat)
    requires offset <= |diff| && count > 0
    ensures |diff| < offset + 8 ==> ParseUpdates(diff[offset..], count) == Err(Malformed)
    ensures |diff| >= offset + 8 ==>
              var end := offset + 8 + ReadU32(diff, offset + 4);
              ParseUpdates(diff[offset..], count)
              == if |diff| < end then Err(Malformed)
                 else Prepended([Update(ReadU32(diff, offset), diff[offset + 8..end])],
                                ParseUpdates(diff[end..], count - 1))
  {
    hide BigEndian, FromBigEndian;
    if |diff| >= offset + 8 {
      var end := offset + 8 + ReadU32(diff, offset + 4);
      assert diff[offset..][0..4] == diff[offset..offset + 4];
      assert diff[offset..][4..8] == diff[offset + 4..offset + 8];
      if end <= |diff| {
        assert diff[offset..][8..end - offset] == diff[offset + 8..end];
        assert diff[offset..][end - offset..] == diff[end..];
      }
    }
  }

  /** `decode_rows`: the row count is bounded before anything else is read. */
  method DecodeRows(diff: Bytes) returns (r: Result<(nat, seq<Update>), StateError>)
    ensures r == ParseRows(diff)
  {
    if |diff| < 4 {
      return Err(Malformed);
    }
    var rows := ReadU32(diff, 0);
    if rows > MAX_GRID_ROWS {
      return Err(Malformed);
    }
    if |diff| < 8 {
      return Err(Malformed);
    }
    var changed := ReadU32(diff, 4);
    var offset := 8;
    var updates: seq<Update> := [];
    ghost var whole := ParseUpdates(diff[8..], changed);
    assert whole.Ok? ==> [] + whole.value == whole.value;
    for i := 0 to changed
      invariant 8 <= offset <= |diff|
      invariant whole == Prepended(updates, ParseUpdates(diff[offset..], changed - i))
    {
      ParseStep(diff, offset, changed - i);
      if |diff| < offset + 4 {
        return Err(Malformed);
      }
      var index := ReadU32(diff, offset);
      if |diff| < offset + 8 {
        return Err(Malformed);
      }
      var len := ReadU32(diff, offset + 4);
      offset := offset + 8;
      if |diff| < offset + len {
        return Err(Malformed);
      }
      var update := Update(index, diff[offset..offset + len]);
      PrependedTwice(updates, update, ParseUpdates(diff[offset + len..], changed - i - 1));
      updates := updates + [update];
      offset := offset + len;
    }
    if offset != |diff| {
      return Err(Malformed);
    }
    assert updates + [] == updates;
    return Ok((rows, updates));
  }

  method WriteUpdates(updates: seq<Update>) returns (out: Bytes)
    ensures out == RowFrames(updates)
  {
    out := [];
    for k := 0 to |updates|
      invariant out == RowFrames(updates[..k])
    {
      assert updates[..k + 1] == updates[..k] + [updates[k]];
      RowFramesAppend(updates[..k], [updates[k]]);
      assert RowFrames([updates[k]]) == RowFrame(updates[k]);
      out := out + BeU32(updates[k].index);
      out := out + BeU32(|updates[k].row|);
      out := out + updates[k].row;
    }
    assert updates[..|updates|] == updates;
  }

  class RowGrid {
    var rows: seq<Bytes>

    function Value(): Grid
      reads this
    {
      Grid(rows)
    }

    constructor ()
      ensures Value() == EMPTY_GRID
    {
      rows := [];
    }

    /** Replace the whole grid. */
    method SetRows(rows: seq<Bytes>)
      modifies this
      ensures this.rows == rows
    {
      this.rows := rows;
    }

    /** `set_row`: rows that are missing below `index` come into being empty. */
    method SetRow(index: nat, row: Bytes)
      modifies this
      ensures |rows| == if index < |old(rows)| then |old(rows)| else index + 1
      ensures rows[index] == row
      ensures forall i | 0 <= i < |rows| && i != index ::
                rows[i] == if i < |old(rows)| then old(rows)[i] else []
    {
      if |rows| <= index {
        rows := Resize(rows, index + 1);
      }
      rows := rows[index := row];
    }

    method RebaseSteps() returns (steps: seq<Grid>)
      ensures steps == Value().RebaseSteps()
    {
      steps := [];
      var prefix: seq<Bytes> := [];
      for k := 0 to |rows|
        invariant prefix == rows[..k]
        invariant steps == Value().RebaseSteps()[..k]
      {
        prefix := prefix + [rows[k]];
        steps := steps + [Grid(prefix)];
      }
    }

    method DiffFrom(prev: Grid) returns (out: Bytes)
      ensures out == Value().DiffFrom(prev)
    {
      var changed: seq<Update> := [];
      for index := 0 to |rows|
        invariant changed == Changed(rows, prev.rows, index)
      {
        if !(index < |prev.rows| && prev.rows[index] == rows[index]) {
          changed := changed + [Update(index, rows[index])];
        }
      }
      var body := WriteUpdates(changed);
      out := BeU32(|rows|) + BeU32(|changed|) + body;
    }

    /** Everything is checked before anything is written: a refused diff changes nothing. */
    method ApplyDiff(diff: Bytes) returns (r: Result<(), StateError>)
      modifies this
      ensures r.Err? ==> Value() == old(Value())
      ensures old(Value()).ApplyDiff(diff) == if r.Ok? then Ok(Value()) else Err(r.error)
    {
      var decoded := DecodeRows(diff);
      match decoded
      case Err(e) => r := Err(e);
      case Ok((count, updates)) =>
        if !InRange(updates, count) {
          return Err(Malformed);
        }
        rows := Resize(rows, count);
        ghost var resized := rows;
        for k := 0 to |updates|
          invariant |rows| == count
          invariant rows == Overwrite(resized, updates[..k])
        {
          assert updates[..k + 1][..k] == updates[..k];
          rows := rows[updates[k].index := updates[k].row];
        }
        assert updates[..|updates|] == updates;
        r := Ok(());
    }
  }
}
