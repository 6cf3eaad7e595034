/** Channel 0: an append-only queue of opaque messages, synchronised by appending. */
module MessageQueues {
  import opened Bytes
  import opened Protocol
  import opened Wrappers

  // ---------- the wire form of a queue diff ----------

  function Frame(message: Bytes): Bytes {
    BeU32(|message|) + message
  }

  function Frames(messages: seq<Bytes>): Bytes {
    if messages == [] then [] else Frame(messages[0]) + Frames(messages[1..])
  }

  /** count, then every message behind its length. */
  function EncodeMessages(messages: seq<Bytes>): Bytes {
    BeU32(|messages|) + Frames(messages)
  }

  function Total(messages: seq<Bytes>): nat {
    if messages == [] then 0 else |messages[0]| + Total(messages[1..])
  }

  /** Every count and length fits its 32-bit field. */
  ghost predicate Framable(messages: seq<Bytes>) {
    |messages| < U32_SPAN && forall m | m in messages :: |m| < U32_SPAN
  }

  /** Read exactly `count` framed messages that use up `b`. */
  function ParseFrames(b: Bytes, count: nat): Result<seq<Bytes>, StateError>
    decreases count
  {
    if count == 0 then
      if b == [] then Ok([]) else Err(Malformed)
    else if |b| < 4 || |b| < 4 + ReadU32(b, 0) then
      Err(Malformed)
    else
      var end := 4 + ReadU32(b, 0);
      match ParseFrames(b[end..], count - 1)
      case Ok(rest) => Ok([b[4..end]] + rest)
      case Err(e) => Err(e)
  }

  function ParseMessages(diff: Bytes): Result<seq<Bytes>, StateError> {
    if |diff| < 4 then Err(Malformed) else ParseFrames(diff[4..], ReadU32(diff, 0))
  }

  lemma {:induction false} FramesAppend(a: seq<Bytes>, b: seq<Bytes>)
    ensures Frames(a + b) == Frames(a) + Frames(b)
  {
    if a == [] {
      assert a + b == b;
    } else {
      assert (a + b)[1..] == a[1..] + b;
      FramesAppend(a[1..], b);
    }
  }

  lemma {:induction false} TotalAppend(a: seq<Bytes>, b: seq<Bytes>)
    ensures Total(a + b) == Total(a) + Total(b)
  {
    if a == [] {
      assert a + b == b;
    } else {
      assert (a + b)[1..] == a[1..] + b;
      TotalAppend(a[1..], b);
    }
  }

  lemma {:induction false} FramesLength(messages: seq<Bytes>)
    ensures |Frames(messages)| == 4 * |messages| + Total(messages)
  {
    if messages != [] {
      FramesLength(messages[1..]);
    }
  }

  lemma {:induction false} FramesParse(messages: seq<Bytes>)
    requires forall m | m in messages :: |m| < U32_SPAN
    ensures ParseFrames(Frames(messages), |messages|) == Ok(messages)
  {
    if messages != [] {
      FrameParses(messages[0], Frames(messages[1..]), |messages| - 1);
      FramesParse(messages[1..]);
      assert messages == [messages[0]] + messages[1..];
    }
  }

  lemma FrameParses(m: Bytes, tail: Bytes, count: nat)
    requires |m| < U32_SPAN
    ensures ParseFrames(Frame(m) + tail, count + 1)
         == match ParseFrames(tail, count) case Ok(rest) => Ok([m] + rest) case Err(e) => Err(e)
  {
    hide BeU32, ReadU32;
    var b := Frame(m) + tail;
    assert b[0..4] == BeU32(|m|);
    U32Field(b, 0, |m|);
    assert b[4..4 + |m|] == m;
    assert b[4 + |m|..] == tail;
  }

  lemma {:induction false} ParsedFrames(b: Bytes, count: nat)
    requires ParseFrames(b, count).Ok?
    ensures var messages := ParseFrames(b, count).value;
            |messages| == count && Frames(messages) == b && forall m | m in messages :: |m| < U32_SPAN
    decreases count
  {
    hide BeU32, ReadU32;
    if count > 0 {
      var end := 4 + ReadU32(b, 0);
      ParsedFrames(b[end..], count - 1);
      U32Unread(b, 0);
      assert b == b[0..4] + b[4..end] + b[end..];
    }
  }

  /** Decoding inverts encoding. */
  lemma EncodedMessagesParse(messages: seq<Bytes>)
    requires Framable(messages)
    ensures ParseMessages(EncodeMessages(messages)) == Ok(messages)
  {
    hide BeU32, ReadU32;
    EncodedCount(messages);
    FramesParse(messages);
  }

  lemma EncodedCount(messages: seq<Bytes>)
    ensures var diff := EncodeMessages(messages);
            |diff| >= 4 && ReadU32(diff, 0) == |messages| % U32_SPAN && diff[4..] == Frames(messages)
  {
    var diff := EncodeMessages(messages);
    assert diff[0..4] == BeU32(|messages|);
    U32Field(diff, 0, |messages|);
  }

  /** What decodes is the encoding of what it decodes to: nothing else is accepted. */
  lemma ParsedMessagesEncode(diff: Bytes)
    requires ParseMessages(diff).Ok?
    ensures Framable(ParseMessages(diff).value)
    ensures EncodeMessages(ParseMessages(diff).value) == diff
  {
    hide BeU32, ReadU32;
    ParsedFrames(diff[4..], ReadU32(diff, 0));
    U32Unread(diff, 0);
    assert diff == diff[0..4] + diff[4..];
  }

  /** The decoder accepts exactly the octet strings that frame a message list. */
  lemma AcceptsExactlyEncodings(diff: Bytes)
    ensures ParseMessages(diff).Ok? <==> exists messages :: Framable(messages) && EncodeMessages(messages) == diff
  {
    if ParseMessages(diff).Ok? {
      ParsedMessagesEncode(diff);
    }
    forall messages | Framable(messages) && EncodeMessages(messages) == diff
      ensures ParseMessages(diff).Ok?
    {
      EncodedMessagesParse(messages);
    }
  }

  /** A diff that fits one datagram is far from overflowing its count and length fields. */
  lemma SmallDiffFramable(messages: seq<Bytes>)
    requires |EncodeMessages(messages)| <= MAX_DIFF_LEN
    ensures Framable(messages)
    ensures |messages| <= 318 && Total(messages) <= MAX_DIFF_LEN - 4 - 4 * |messages|
  {
    FramesLength(messages);
    forall m | m in messages
      ensures |m| <= Total(messages)
    {
      MemberWithinTotal(messages, m);
    }
  }

  lemma {:induction false} MemberWithinTotal(messages: seq<Bytes>, m: Bytes)
    requires m in messages
    ensures |m| <= Total(messages)
  {
    if m != messages[0] {
      MemberWithinTotal(messages[1..], m);
    }
  }

  // ---------- the queue as a value ----------

  datatype QueueLimits = QueueLimits(maxMessages: nat, maxBytes: nat)

  const DEFAULT_LIMITS := QueueLimits(1024, 8 * 1024 * 1024)

  /** `base` counts messages already dropped from the front, so numbering stays absolute. */
  datatype Queue = Queue(messages: seq<Bytes>, base: nat, bytes: nat, limits: QueueLimits) {
    function Num(): nat { base + |messages| }

    predicate Counted() { bytes == Total(messages) }

    /** Whether `count` more messages of `size` octets stay inside both bounds. */
    predicate HasRoom(count: nat, size: nat) {
      |messages| + count <= limits.maxMessages && bytes + size <= limits.maxBytes
    }

    function Push(message: Bytes): Result<Queue, StateError> {
      if HasRoom(1, |message|) then
        Ok(this.(messages := messages + [message], bytes := bytes + |message|))
      else
        Err(Overflow)
    }

    function PruneThrough(num: nat): Queue {
      if num <= base then this else
        var drop := if num - base <= |messages| then num - base else |messages|;
        Queue(messages[drop..], base + drop, Total(messages[drop..]), limits)
    }

    function Drain(): Queue { Queue([], Num(), 0, limits) }

    function ResetOrigin(): Queue { this.(base := 0) }

    /** The messages `prev` lacks: those numbered above it that are still held. */
    function Missing(prev: Queue): seq<Bytes> {
      var start := if prev.Num() >= base then prev.Num() else base;
      if start - base <= |messages| then messages[start - base..] else []
    }

    function DiffFrom(prev: Queue): Bytes { EncodeMessages(Missing(prev)) }

    function ApplyDiff(diff: Bytes): Result<Queue, StateError> {
      match ParseMessages(diff)
      case Err(e) => Err(e)
      case Ok(decoded) =>
        if HasRoom(|decoded|, Total(decoded)) then
          Ok(this.(messages := messages + decoded, bytes := bytes + Total(decoded)))
        else
          Err(Overflow)
    }
  }

  function EmptyQueue(limits: QueueLimits): Queue { Queue([], 0, 0, limits) }

  lemma PushKeepsCount(q: Queue, message: Bytes)
    requires q.Counted() && q.Push(message).Ok?
    ensures q.Push(message).value.Counted()
  {
    TotalAppend(q.messages, [message]);
  }

  lemma ApplyKeepsCount(q: Queue, diff: Bytes)
    requires q.Counted() && q.ApplyDiff(diff).Ok?
    ensures q.ApplyDiff(diff).value.Counted()
  {
    TotalAppend(q.messages, ParseMessages(diff).value);
  }

  /** A drained queue under the default bounds takes any diff that fits one datagram. */
  lemma DrainedHasRoom(q: Queue, messages: seq<Bytes>)
    requires q.limits == DEFAULT_LIMITS
    requires |EncodeMessages(messages)| <= MAX_DIFF_LEN
    ensures q.Drain().HasRoom(|messages|, Total(messages))
  {
    SmallDiffFramable(messages);
  }

  /** Bounds under which an empty queue takes whatever one datagram can bring. */
  predicate Suffices(limits: QueueLimits) { limits.maxMessages >= 318 && limits.maxBytes >= MAX_MESSAGE_BYTES }

  ghost predicate TakesAll(limits: QueueLimits) {
    forall messages | |EncodeMessages(messages)| <= MAX_DIFF_LEN :: EmptyQueue(limits).HasRoom(|messages|, Total(messages))
  }

  lemma ManyEmpty()
    ensures |EncodeMessages(Empties(318))| <= MAX_DIFF_LEN && |Empties(318)| == 318
  {
    TotalOfEmpty(318);
    FramesLength(Empties(318));
    hide Frames, Total;
  }

  lemma OneLarge(large: Bytes)
    requires |large| == MAX_MESSAGE_BYTES
    ensures |EncodeMessages([large])| <= MAX_DIFF_LEN && Total([large]) == MAX_MESSAGE_BYTES
  {
    assert [large][1..] == [];
    FramesLength([large]);
  }

  /** Those bounds are exact: 318 empty messages fit one datagram, and so does one of 1269 octets. */
  lemma SufficesExactly(limits: QueueLimits)
    ensures Suffices(limits) <==> TakesAll(limits)
  {
    hide EncodeMessages;
    if Suffices(limits) {
      forall messages | |EncodeMessages(messages)| <= MAX_DIFF_LEN
        ensures EmptyQueue(limits).HasRoom(|messages|, Total(messages))
      {
        SmallDiffFramable(messages);
      }
    }
    if TakesAll(limits) {
      ManyEmpty();
      var large: Bytes := seq(MAX_MESSAGE_BYTES, _ => 0);
      OneLarge(large);
      assert EmptyQueue(limits).HasRoom(318, Total(Empties(318)));
      assert EmptyQueue(limits).HasRoom(1, Total([large]));
      hide Total;
    }
  }

  function Empties(n: nat): seq<Bytes> { seq(n, _ => []) }

  lemma {:induction false} TotalOfEmpty(n: nat)
    ensures Total(Empties(n)) == 0
  {
    if n > 0 {
      TotalOfEmpty(n - 1);
      assert Empties(n)[1..] == Empties(n - 1);
    }
  }

  // ---------- the queue as the program keeps it ----------

  /** `decode_messages`: read the count, then walk the frames. */
  method DecodeMessages(diff: Bytes) returns (r: Result<seq<Bytes>, StateError>)
    ensures r == ParseMessages(diff)
    ensures r.Ok? ==> Framable(r.value) && EncodeMessages(r.value) == diff
    ensures r.Err? ==> forall ms :: Framable(ms) ==> EncodeMessages(ms) != diff
  {
    r := WalkFrames(diff);
    AcceptsExactlyEncodings(diff);
    if r.Ok? {
      ParsedMessagesEncode(diff);
    }
  }

  method WalkFrames(diff: Bytes) returns (r: Result<seq<Bytes>, StateError>)
    ensures r == ParseMessages(diff)
  {
    if |diff| < 4 {
      return Err(Malformed);
    }
    var count := ReadU32(diff, 0);
    var offset := 4;
    var out: seq<Bytes> := [];
    PrependedNothing(ParseFrames(diff[4..], count));
    for i := 0 to count
      invariant 4 <= offset <= |diff|
      invariant ParseMessages(diff) == Prepended(out, ParseFrames(diff[offset..], count - i))
    {
      ParseStep(diff, offset, count - i);
      if |diff| < offset + 4 {
        return Err(Malformed);
      }
      var len := ReadU32(diff, offset);
      offset := offset + 4;
      if |diff| < offset + len {
        return Err(Malformed);
      }
      PrependedTwice(out, diff[offset..offset + len], ParseFrames(diff[offset + len..], count - i - 1));
      out := out + [diff[offset..offset + len]];
      offset := offset + len;
    }
    if offset != |diff| {
      return Err(Malformed);
    }
    assert out + [] == out;
    return Ok(out);
  }

  lemma ParseStep(diff: Bytes, offset: nat, count: nat)
    requires offset <= |diff| && count > 0
    ensures |diff| < offset + 4 ==> ParseFrames(diff[offset..], count) == Err(Malformed)
    ensures |diff| >= offset + 4 ==>
              var end := offset + 4 + ReadU32(diff, offset);
              ParseFrames(diff[offset..], count)
              == if |diff| < end then Err(Malformed)
                 else Prepended([diff[offset + 4..end]], ParseFrames(diff[end..], count - 1))
  {
    hide BigEndian, FromBigEndian;
    if |diff| >= offset + 4 {
      var end := offset + 4 + ReadU32(diff, offset);
      assert diff[offset..][0..4] == diff[offset..offset + 4];
      if end <= |diff| {
        assert diff[offset..][4..end - offset] == diff[offset + 4..end];
        assert diff[offset..][end - offset..] == diff[end..];
      }
    }
  }

  class MessageQueue {
    var messages: seq<Bytes>
    var base: nat
    var bytes: nat
    const limits: QueueLimits

    function Value(): Queue
      reads this
    {
      Queue(messages, base, bytes, limits)
    }

    constructor (limits: QueueLimits)
      ensures Value() == EmptyQueue(limits) && Value().Counted()
    {
      messages, base, bytes := [], 0, 0;
      this.limits := limits;
    }

    /** Append, or refuse without a trace when either bound would be passed. */
    method Push(message: Bytes) returns (r: Result<(), StateError>)
      requires Value().Counted()
      modifies this
      ensures Value().Counted()
      ensures r.Ok? <==> old(Value()).HasRoom(1, |message|)
      ensures r.Ok? ==> messages == old(messages) + [message] && base == old(base)
      ensures r.Err? ==> r.error == Overflow && Value() == old(Value())
      ensures old(Value()).Push(message) == if r.Ok? then Ok(Value()) else Err(Overflow)
    {
      if Value().HasRoom(1, |message|) {
        PushKeepsCount(Value(), message);
        bytes := bytes + |message|;
        messages := messages + [message];
        r := Ok(());
      } else {
        r := Err(Overflow);
      }
    }

    /** Drop everything up to message `num`; the numbering does not move. */
    method PruneThrough(num: nat)
      requires Value().Counted()
      modifies this
      ensures Value() == old(Value()).PruneThrough(num) && Value().Counted()
      ensures Value().Num() == old(Value().Num())
    {
      if num <= base {
        return;
      }
      var drop := if num - base <= |messages| then num - base else |messages|;
      for i := 0 to drop
        invariant messages == old(messages) && base == old(base)
        invariant bytes == Total(messages[i..])
      {
        bytes := bytes - |messages[i]|;
      }
      messages := messages[drop..];
      base := base + drop;
    }

    /** Hand every held message to the caller and keep counting. */
    method Drain() returns (taken: seq<Bytes>)
      modifies this
      ensures taken == old(messages)
      ensures Value() == old(Value()).Drain() && Value().Counted()
      ensures Value().Num() == old(Value().Num())
    {
      base := base + |messages|;
      bytes := 0;
      taken := messages;
      messages := [];
    }

    method ResetOrigin() returns (num: nat)
      modifies this
      ensures Value() == old(Value()).ResetOrigin() && num == Value().Num()
    {
      base := 0;
      num := base + |messages|;
    }

    method DiffFrom(prev: Queue) returns (out: Bytes)
      ensures out == Value().DiffFrom(prev)
    {
      var start := if prev.Num() >= base then prev.Num() else base;
      var skip := start - base;
      var sending := if skip <= |messages| then messages[skip..] else [];
      out := BeU32(|sending|);
      for i := 0 to |sending|
        invariant out == BeU32(|sending|) + Frames(sending[..i])
      {
        assert sending[..i + 1] == sending[..i] + [sending[i]];
        FramesAppend(sending[..i], [sending[i]]);
        assert Frames([sending[i]]) == Frame(sending[i]);
        out := out + BeU32(|sending[i]|);
        out := out + sending[i];
      }
      assert sending[..|sending|] == sending;
    }

    /** Append the decoded messages, or leave the queue exactly as it was. */
    method ApplyDiff(diff: Bytes) returns (r: Result<(), StateError>)
      requires Value().Counted()
      modifies this
      ensures Value().Counted()
      ensures r.Err? ==> Value() == old(Value())
      ensures old(Value()).ApplyDiff(diff) == if r.Ok? then Ok(Value()) else Err(r.error)
    {
      var decoded := DecodeMessages(diff);
      match decoded
      case Err(e) => r := Err(e);
      case Ok(added) =>
        var size := 0;
        for i := 0 to |added|
          invariant Value() == old(Value()) && size == Total(added[..i])
        {
          assert added[..i + 1] == added[..i] + [added[i]];
          TotalAppend(added[..i], [added[i]]);
          size := size + |added[i]|;
        }
        assert added[..|added|] == added;
        if Value().HasRoom(|added|, size) {
          ApplyKeepsCount(Value(), diff);
          bytes := bytes + size;
          messages := messages + added;
          r := Ok(());
        } else {
          r := Err(Overflow);
        }
    }
  }
}
