/** Bridge frames cut into channel-0 messages, and the table that puts them together again. */
module Fragments {
  import opened Bytes
  import opened Protocol
  import opened Wrappers
  import opened Chunks

  const CHUNK_MAGIC: Bytes := [0x4D, 0x44, 0x4C, 0x31]
  const CHUNK_HEADER: nat := 20
  const MAX_CHUNKS: nat := 4096

  /** A peer's node id, compared only for equality. */
  type Peer = nat

  // ---------- the sending side ----------

  function Fragment(id: nat, index: nat, count: nat, chunk: Bytes): Bytes {
    CHUNK_MAGIC + BeU64(id) + BeU32(index) + BeU32(count) + chunk
  }

  function FragmentsOf(id: nat, payload: Bytes): (fs: seq<Bytes>)
    ensures |fs| == ChunkCount(|payload|)
    ensures forall k | 0 <= k < |fs| :: fs[k] == Fragment(id, k, |fs|, Chunk(payload, k))
  {
    var count := ChunkCount(|payload|);
    seq(count, k requires 0 <= k < count => Fragment(id, k, count, Chunk(payload, k)))
  }

  /** The fragmenting loop of `send`: nothing leaves when the frame needs too many chunks. */
  method Cut(id: nat, payload: Bytes) returns (r: Option<seq<Bytes>>)
    ensures r.None? <==> ChunkCount(|payload|) > MAX_CHUNKS
    ensures r.Some? ==> r.value == FragmentsOf(id, payload)
    ensures r.Some? ==> forall f | f in r.value :: |f| <= MAX_MESSAGE_BYTES
  {
    var count := ChunkCount(|payload|);
    if count > MAX_CHUNKS {
      return None;
    }
    var frames: seq<Bytes> := [];
    for index := 0 to count
      invariant frames == FragmentsOf(id, payload)[..index]
      invariant forall f | f in frames :: |f| <= MAX_MESSAGE_BYTES
    {
      var frame := CHUNK_MAGIC + BeU64(id);
      frame := frame + BeU32(index);
      frame := frame + BeU32(count);
      frame := frame + Chunk(payload, index);
      frames := frames + [frame];
    }
    r := Some(frames);
  }

  // ---------- reading a fragment ----------

  predicate IsFragment(body: Bytes) {
    |body| >= CHUNK_HEADER && body[..4] == CHUNK_MAGIC
  }

  function Id(body: Bytes): nat
    requires IsFragment(body)
  {
    ReadU64(body, 4)
  }

  function Index(body: Bytes): nat
    requires IsFragment(body)
  {
    ReadU32(body, 12)
  }

  function Count(body: Bytes): nat
    requires IsFragment(body)
  {
    ReadU32(body, 16)
  }

  function Payload(body: Bytes): Bytes
    requires IsFragment(body)
  {
    body[CHUNK_HEADER..]
  }

  predicate InRange(body: Bytes)
    requires IsFragment(body)
  {
    0 < Count(body) <= MAX_CHUNKS && Index(body) < Count(body)
  }

  lemma FragmentFields(id: nat, index: nat, count: nat, chunk: Bytes)
    requires id < U64_SPAN && index < U32_SPAN && count < U32_SPAN
    ensures var f := Fragment(id, index, count, chunk);
            && IsFragment(f) && Id(f) == id && Index(f) == index && Count(f) == count && Payload(f) == chunk
  {
    hide BigEndian, FromBigEndian;
    var f := Fragment(id, index, count, chunk);
    assert f[4..12] == BeU64(id);
    assert f[12..16] == BeU32(index);
    assert f[16..20] == BeU32(count);
    U64Field(f, 4, id);
    U32Field(f, 12, index);
    U32Field(f, 16, count);
  }

  // ---------- what reassembly means for one peer ----------

  datatype Partial = Partial(chunks: seq<Option<Bytes>>, bytes: nat, epoch: nat)

  /** One peer has at most one frame in progress. */
  datatype Slot = Idle | Busy(id: nat, partial: Partial)

  predicate AllPresent(chunks: seq<Option<Bytes>>) {
    forall k | 0 <= k < |chunks| :: chunks[k].Some?
  }

  function Gathered(chunks: seq<Option<Bytes>>): Bytes
    requires AllPresent(chunks)
  {
    Join(seq(|chunks|, k requires 0 <= k < |chunks| => chunks[k].value))
  }

  function SizeOf(chunk: Option<Bytes>): nat {
    if chunk.Some? then |chunk.value| else 0
  }

  /** Octets held in a partial's slots. */
  function Held(chunks: seq<Option<Bytes>>): nat {
    if chunks == [] then 0 else Held(chunks[..|chunks| - 1]) + SizeOf(chunks[|chunks| - 1])
  }

  function Blank(count: nat, epoch: nat): Partial {
    Partial(seq(count, _ => None), 0, epoch)
  }

  function Store(p: Partial, index: nat, payload: Bytes): Partial
    requires index < |p.chunks|
  {
    var chunks := p.chunks[index := Some(payload)];
    Partial(chunks, Held(chunks), p.epoch)
  }

  /** Put one fragment into a frame in progress: a mismatched count discards the frame. */
  function FillSlot(p: Partial, body: Bytes): (Slot, Option<Bytes>)
    requires IsFragment(body) && InRange(body)
  {
    if |p.chunks| != Count(body) then (Idle, None)
    else
      var stored := Store(p, Index(body), Payload(body));
      if AllPresent(stored.chunks) then (Idle, Some(Gathered(stored.chunks))) else (Busy(Id(body), stored), None)
  }

  /** A first fragment, or a new epoch, replaces an abandoned frame; anything else is refused. */
  function FeedSlot(slot: Slot, epoch: nat, body: Bytes): (Slot, Option<Bytes>) {
    if !IsFragment(body) then (slot, Some(body))
    else if !InRange(body) then (slot, None)
    else if slot.Busy? && slot.id == Id(body) then FillSlot(slot.partial, body)
    else if slot.Busy? && slot.partial.epoch == epoch && Index(body) != 0 then (slot, None)
    else FillSlot(Blank(Count(body), epoch), body)
  }

  // ---------- when a frame in progress is lost ----------

  /** A frame was in progress; it no longer is, and it did not come out either. */
  predicate Loses(slot: Slot, epoch: nat, body: Bytes) {
    var (next, out) := FeedSlot(slot, epoch, body);
    && slot.Busy?
    && (next.Busy? ==> next.id != slot.id)
    && !(out.Some? && IsFragment(body) && Id(body) == slot.id)
  }

  /**
   * Over every frame in progress, epoch and message: the frame is lost exactly to a fragment of
   * its own id that declares another count, or of another id that has index 0 or another epoch.
   */
  lemma LostExactly(slot: Slot, epoch: nat, body: Bytes)
    requires slot.Busy?
    ensures Loses(slot, epoch, body) <==>
            && IsFragment(body) && InRange(body)
            && if Id(body) == slot.id then Count(body) != |slot.partial.chunks|
               else Index(body) == 0 || slot.partial.epoch != epoch
  {
    hide Gathered, AllPresent, Held;
  }

  /** A frame that is not lost comes out, or keeps every chunk but the one its own fragment brings. */
  lemma KeptOtherwise(slot: Slot, epoch: nat, body: Bytes)
    requires slot.Busy? && !Loses(slot, epoch, body)
    ensures var (next, out) := FeedSlot(slot, epoch, body);
            (|| next == slot
             || (IsFragment(body) && Id(body) == slot.id && Index(body) < |slot.partial.chunks|
                 && var chunks := slot.partial.chunks[Index(body) := Some(Payload(body))];
                    if AllPresent(chunks) then next == Idle && out == Some(Gathered(chunks))
                    else next == Busy(slot.id, Partial(chunks, Held(chunks), slot.partial.epoch)) && out == None))
  {
    hide Gathered, AllPresent, Held;
  }

  /** Each of the ways a frame of two chunks is lost, and fragments like them that it survives. */
  lemma LossExamples(epoch: nat)
    ensures var slot := Busy(7, Blank(2, epoch));
            && Loses(slot, epoch, Fragment(7, 1, 3, []))
            && Loses(slot, epoch, Fragment(8, 0, 2, []))
            && Loses(slot, epoch + 1, Fragment(8, 1, 2, []))
            && !Loses(slot, epoch, Fragment(8, 1, 2, []))
            && !Loses(slot, epoch, Fragment(7, 0, 2, []))
            && !Loses(slot, epoch + 1, Fragment(7, 0, 2, []))
  {
    var slot := Busy(7, Blank(2, epoch));
    FragmentFields(7, 1, 3, []);
    FragmentFields(8, 0, 2, []);
    FragmentFields(8, 1, 2, []);
    FragmentFields(7, 0, 2, []);
    LostExactly(slot, epoch, Fragment(7, 1, 3, []));
    LostExactly(slot, epoch, Fragment(8, 0, 2, []));
    LostExactly(slot, epoch + 1, Fragment(8, 1, 2, []));
    LostExactly(slot, epoch, Fragment(8, 1, 2, []));
    LostExactly(slot, epoch, Fragment(7, 0, 2, []));
    LostExactly(slot, epoch + 1, Fragment(7, 0, 2, []));
    hide Fragment, ReadU32, ReadU64, Loses;
  }

  // ---------- runs of one peer ----------

  ghost function FeedAll(slot: Slot, epoch: nat, bodies: seq<Bytes>): (Slot, seq<Bytes>)
    decreases bodies
  {
    if bodies == [] then (slot, [])
    else
      var (next, out) := FeedSlot(slot, epoch, bodies[0]);
      var (last, rest) := FeedAll(next, epoch, bodies[1..]);
      (last, (if out.Some? then [out.value] else []) + rest)
  }

  lemma {:induction false} FeedAllAppends(slot: Slot, epoch: nat, a: seq<Bytes>, b: seq<Bytes>)
    ensures var (mid, first) := FeedAll(slot, epoch, a);
            var (last, second) := FeedAll(mid, epoch, b);
            FeedAll(slot, epoch, a + b) == (last, first + second)
    decreases a
  {
    if a == [] {
      assert a + b == b;
      var (last, second) := FeedAll(slot, epoch, b);
      assert [] + second == second;
    } else {
      assert (a + b)[0] == a[0] && (a + b)[1..] == a[1..] + b;
      var (next, out) := FeedSlot(slot, epoch, a[0]);
      FeedAllAppends(next, epoch, a[1..], b);
      var (mid, rest) := FeedAll(next, epoch, a[1..]);
      var (last, second) := FeedAll(mid, epoch, b);
      var head := if out.Some? then [out.value] else [];
      assert head + (rest + second) == head + rest + second;
    }
  }

  ghost predicate Sendable(id: nat, payload: Bytes) {
    id < U64_SPAN && ChunkCount(|payload|) <= MAX_CHUNKS
  }

  /** The slot after the first `k` fragments of a frame, for `k` short of all of them. */
  function InProgress(id: nat, payload: Bytes, epoch: nat, k: nat): Slot
    requires k <= ChunkCount(|payload|)
  {
    var count := ChunkCount(|payload|);
    var chunks := seq(count, j requires 0 <= j < count => if j < k then Some(Chunk(payload, j)) else None);
    Busy(id, Partial(chunks, Held(chunks), epoch))
  }

  lemma FragmentAt(id: nat, payload: Bytes, k: nat)
    requires Sendable(id, payload) && k < ChunkCount(|payload|)
    ensures var f := FragmentsOf(id, payload)[k];
            && IsFragment(f) && InRange(f) && Id(f) == id && Index(f) == k
            && Count(f) == ChunkCount(|payload|) && Payload(f) == Chunk(payload, k)
  {
    FragmentFields(id, k, ChunkCount(|payload|), Chunk(payload, k));
  }

  /** A frame's first fragment starts it, whatever other frame was left unfinished. */
  lemma FirstStarts(slot: Slot, epoch: nat, id: nat, payload: Bytes)
    requires Sendable(id, payload) && (slot.Busy? ==> slot.id != id)
    ensures FeedSlot(slot, epoch, FragmentsOf(id, payload)[0])
         == if ChunkCount(|payload|) == 1 then (Idle, Some(payload)) else (InProgress(id, payload, epoch, 1), None)
  {
    FragmentAt(id, payload, 0);
    var body := FragmentsOf(id, payload)[0];
    StoreGrows(id, payload, epoch, 0);
    assert Blank(Count(body), epoch).chunks == InProgress(id, payload, epoch, 0).partial.chunks;
    StoresNext(Blank(Count(body), epoch), id, payload, epoch, 0);
  }

  lemma StoreGrows(id: nat, payload: Bytes, epoch: nat, k: nat)
    requires k < ChunkCount(|payload|)
    ensures InProgress(id, payload, epoch, k).partial.chunks[k := Some(Chunk(payload, k))]
         == InProgress(id, payload, epoch, k + 1).partial.chunks
  {
  }

  lemma StoresNext(p: Partial, id: nat, payload: Bytes, epoch: nat, k: nat)
    requires Sendable(id, payload) && k < ChunkCount(|payload|)
    requires p.chunks == InProgress(id, payload, epoch, k).partial.chunks && p.epoch == epoch
    ensures FragmentsOf(id, payload)[k] == Fragment(id, k, ChunkCount(|payload|), Chunk(payload, k))
    ensures var f := FragmentsOf(id, payload)[k];
            && IsFragment(f) && InRange(f)
            && FillSlot(p, f) == if k + 1 == ChunkCount(|payload|) then (Idle, Some(payload))
                                 else (InProgress(id, payload, epoch, k + 1), None)
  {
    FragmentAt(id, payload, k);
    StoreGrows(id, payload, epoch, k);
    var chunks := InProgress(id, payload, epoch, k + 1).partial.chunks;
    if k + 1 == ChunkCount(|payload|) {
      assert AllPresent(chunks);
      assert seq(|chunks|, j requires 0 <= j < |chunks| => chunks[j].value) == ChunksOf(payload);
      ChunksJoin(payload);
    } else {
      assert chunks[k + 1].None?;
    }
  }

  lemma NextContinues(epoch: nat, id: nat, payload: Bytes, k: nat)
    requires Sendable(id, payload) && 0 < k < ChunkCount(|payload|)
    ensures FeedSlot(InProgress(id, payload, epoch, k), epoch, FragmentsOf(id, payload)[k])
         == if k + 1 == ChunkCount(|payload|) then (Idle, Some(payload))
            else (InProgress(id, payload, epoch, k + 1), None)
  {
    FragmentAt(id, payload, k);
    StoresNext(InProgress(id, payload, epoch, k).partial, id, payload, epoch, k);
  }

  lemma FeedOne(slot: Slot, epoch: nat, body: Bytes)
    ensures var (next, out) := FeedSlot(slot, epoch, body);
            FeedAll(slot, epoch, [body]) == (next, if out.Some? then [out.value] else [])
  {
    hide FeedSlot;
    var (next, out) := FeedSlot(slot, epoch, body);
    var head := if out.Some? then [out.value] else [];
    assert [body][1..] == [];
    assert FeedAll(next, epoch, []) == (next, []);
    assert head + [] == head;
  }

  /** The first `k` fragments of a frame in order: silence, until the last one yields the payload. */
  lemma {:induction false} FramePrefix(slot: Slot, epoch: nat, id: nat, payload: Bytes, k: nat)
    requires Sendable(id, payload) && (slot.Busy? ==> slot.id != id)
    requires 0 < k <= ChunkCount(|payload|)
    ensures FeedAll(slot, epoch, FragmentsOf(id, payload)[..k])
         == if k == ChunkCount(|payload|) then (Idle, [payload]) else (InProgress(id, payload, epoch, k), [])
  {
    hide FeedSlot, FragmentsOf, InProgress;
    var fs := FragmentsOf(id, payload);
    assert fs[..k] == fs[..k - 1] + [fs[k - 1]];
    FeedAllAppends(slot, epoch, fs[..k - 1], [fs[k - 1]]);
    if k == 1 {
      assert FeedAll(slot, epoch, fs[..0]) == (slot, []);
      FirstStarts(slot, epoch, id, payload);
    } else {
      FramePrefix(slot, epoch, id, payload, k - 1);
      NextContinues(epoch, id, payload, k - 1);
    }
    var (mid, first) := FeedAll(slot, epoch, fs[..k - 1]);
    FeedOne(mid, epoch, fs[k - 1]);
    var (last, second) := FeedAll(mid, epoch, [fs[k - 1]]);
    assert first == [] && first + second == second;
  }

  // ---------- a stream of frames ----------

  lemma ProgressKeepsId(id: nat, payload: Bytes, epoch: nat, k: nat)
    requires k <= ChunkCount(|payload|)
    ensures InProgress(id, payload, epoch, k).Busy? && InProgress(id, payload, epoch, k).id == id
  {
  }

  lemma NothingFed(slot: Slot, epoch: nat)
    ensures FeedAll(slot, epoch, []) == (slot, [])
  {
  }

  /** One call of `send`: a frame and how many of its fragments left before it was abandoned. */
  datatype Sending = Sending(id: nat, payload: Bytes, left: nat)

  ghost predicate AllSendable(sendings: seq<Sending>) {
    forall s | s in sendings :: Sendable(s.id, s.payload) && 0 < s.left <= ChunkCount(|s.payload|)
  }

  /** Frame ids are minted fresh, so no two calls share one. */
  ghost predicate DistinctIds(sendings: seq<Sending>) {
    forall i, j | 0 <= i < j < |sendings| :: sendings[i].id != sendings[j].id
  }

  ghost function Stream(sendings: seq<Sending>): seq<Bytes>
    requires AllSendable(sendings)
  {
    if sendings == [] then []
    else FragmentsOf(sendings[0].id, sendings[0].payload)[..sendings[0].left] + Stream(sendings[1..])
  }

  /** The payloads of the frames wholly inside the first `n` fragments of the stream. */
  ghost function Finished(sendings: seq<Sending>, n: nat): seq<Bytes> {
    if sendings == [] || n < sendings[0].left then []
    else
      (if sendings[0].left == ChunkCount(|sendings[0].payload|) then [sendings[0].payload] else [])
      + Finished(sendings[1..], n - sendings[0].left)
  }

  lemma StreamSplits(sendings: seq<Sending>, n: nat)
    requires AllSendable(sendings) && sendings != [] && n <= |Stream(sendings)|
    ensures AllSendable(sendings[1..])
    ensures var s := sendings[0];
            var fs := FragmentsOf(s.id, s.payload);
            if n < s.left then Stream(sendings)[..n] == fs[..n]
            else n - s.left <= |Stream(sendings[1..])|
                 && Stream(sendings)[..n] == fs[..s.left] + Stream(sendings[1..])[..n - s.left]
  {
    hide FragmentsOf;
  }

  /** One whole sending: its payload when complete, and at most its own frame left in the slot. */
  lemma SendingFeeds(slot: Slot, epoch: nat, s: Sending, n: nat)
    requires AllSendable([s]) && (slot.Busy? ==> slot.id != s.id) && 0 < n <= s.left
    requires n <= ChunkCount(|s.payload|)
    ensures var (mid, outs) := FeedAll(slot, epoch, FragmentsOf(s.id, s.payload)[..n]);
            && outs == (if n == ChunkCount(|s.payload|) then [s.payload] else [])
            && (mid.Busy? ==> mid.id == s.id)
  {
    assert s in [s];
    FramePrefix(slot, epoch, s.id, s.payload, n);
    ProgressKeepsId(s.id, s.payload, epoch, n);
  }

  /**
   * Fed any prefix of a stream of frames, some abandoned part-way, a peer's slot puts out
   * exactly the payloads of the frames that are complete in that prefix, in order.
   */
  lemma {:induction false} StreamReassembles(slot: Slot, epoch: nat, sendings: seq<Sending>, n: nat)
    requires AllSendable(sendings) && DistinctIds(sendings) && n <= |Stream(sendings)|
    requires slot.Busy? ==> forall s | s in sendings :: s.id != slot.id
    ensures FeedAll(slot, epoch, Stream(sendings)[..n]).1 == Finished(sendings, n)
    decreases sendings
  {
    hide FeedSlot, FragmentsOf, InProgress, ChunkCount, FeedAll, Stream;
    if sendings == [] || n == 0 {
      assert Stream(sendings)[..n] == [] by { EmptyStream(sendings, n); }
      NothingFed(slot, epoch);
    } else {
      var s, rest := sendings[0], sendings[1..];
      var fs := FragmentsOf(s.id, s.payload);
      StreamSplits(sendings, n);
      if n < s.left {
        SendingFeeds(slot, epoch, s, n);
      } else {
        var own, later := fs[..s.left], Stream(rest)[..n - s.left];
        SendingFeeds(slot, epoch, s, s.left);
        FeedAllAppends(slot, epoch, own, later);
        StreamReassembles(FeedAll(slot, epoch, own).0, epoch, rest, n - s.left);
      }
    }
  }

  lemma EmptyStream(sendings: seq<Sending>, n: nat)
    requires AllSendable(sendings) && n <= |Stream(sendings)| && (sendings == [] || n == 0)
    ensures Stream(sendings)[..n] == []
  {
  }

  // ---------- the shared table ----------

  type Key = (Peer, nat)

  ghost predicate OnePerPeer(partials: map<Key, Partial>) {
    forall k, l | k in partials && l in partials && k.0 == l.0 :: k == l
  }

  /** Octets counted over all partials. */
  ghost function Sum(partials: map<Key, Partial>): nat
    decreases |partials|
  {
    if partials == map[] then 0
    else
      var k :| k in partials;
      partials[k].bytes + Sum(partials - {k})
  }

  lemma {:induction false} SumWithout(partials: map<Key, Partial>, key: Key)
    requires key in partials
    ensures Sum(partials) == partials[key].bytes + Sum(partials - {key})
    decreases |partials|
  {
    var k :| k in partials && Sum(partials) == partials[k].bytes + Sum(partials - {k});
    if k != key {
      SumWithout(partials - {k}, key);
      SumWithout(partials - {key}, k);
      assert partials - {k} - {key} == partials - {key} - {k};
    }
  }

  lemma SumUpdated(partials: map<Key, Partial>, key: Key, p: Partial)
    ensures Sum(partials[key := p]) == p.bytes + Sum(partials - {key})
  {
    SumWithout(partials[key := p], key);
    assert partials[key := p] - {key} == partials - {key};
  }

  lemma {:induction false} HeldUpdated(chunks: seq<Option<Bytes>>, index: nat, chunk: Option<Bytes>)
    requires index < |chunks|
    ensures Held(chunks[index := chunk]) + SizeOf(chunks[index]) == Held(chunks) + SizeOf(chunk)
  {
    var last := |chunks| - 1;
    var after := chunks[index := chunk];
    if index == last {
      assert after[..last] == chunks[..last];
    } else {
      HeldUpdated(chunks[..last], index, chunk);
      assert after[..last] == chunks[..last][index := chunk];
    }
  }

  lemma {:induction false} BlankHoldsNothing(count: nat)
    ensures Held(Blank(count, 0).chunks) == 0
  {
    if count > 0 {
      BlankHoldsNothing(count - 1);
      assert Blank(count, 0).chunks[..count - 1] == Blank(count - 1, 0).chunks;
    }
  }

  ghost function SlotIn(partials: map<Key, Partial>, peer: Peer): Slot {
    if exists id :: (peer, id) in partials
    then var id :| (peer, id) in partials; Busy(id, partials[(peer, id)])
    else Idle
  }

  lemma SlotIs(partials: map<Key, Partial>, key: Key)
    requires OnePerPeer(partials) && key in partials
    ensures SlotIn(partials, key.0) == Busy(key.1, partials[key])
  {
    assert (key.0, key.1) in partials;
    var slot := SlotIn(partials, key.0);
    assert (key.0, slot.id) in partials;
  }

  lemma SlotIsIdle(partials: map<Key, Partial>, peer: Peer)
    requires forall k | k in partials :: k.0 != peer
    ensures SlotIn(partials, peer) == Idle
  {
    assert forall id :: (peer, id) in partials ==> (peer, id).0 == peer;
  }

  /** Entries of other peers decide other peers' slots. */
  lemma SlotsElsewhere(before: map<Key, Partial>, after: map<Key, Partial>, peer: Peer)
    requires OnePerPeer(before) && OnePerPeer(after)
    requires forall k: Key | k.0 != peer :: (k in before <==> k in after) && (k in before ==> before[k] == after[k])
    ensures forall q | q != peer :: SlotIn(before, q) == SlotIn(after, q)
  {
    forall q | q != peer
      ensures SlotIn(before, q) == SlotIn(after, q)
    {
      if id :| (q, id) in before {
        SlotIs(before, (q, id));
        SlotIs(after, (q, id));
      } else {
        assert forall id :: (q, id) in after <==> (q, id) in before;
      }
    }
  }

  class Reassembly {
    var partials: map<Key, Partial>
    var bytes: nat

    /** One partial per peer, and both byte counters equal what is stored. */
    ghost predicate Valid()
      reads this
    {
      && OnePerPeer(partials)
      && (forall k | k in partials :: partials[k].bytes == Held(partials[k].chunks))
      && bytes == Sum(partials)
    }

    ghost function SlotOf(peer: Peer): Slot
      reads this
    {
      SlotIn(partials, peer)
    }

    constructor ()
      ensures Valid() && forall peer :: SlotOf(peer) == Idle
    {
      partials, bytes := map[], 0;
    }

    method Remove(key: Key)
      requires Valid()
      modifies this
      ensures Valid() && partials == old(partials) - {key}
    {
      if key in partials {
        SumWithout(partials, key);
        // The program saturates here; with exact counters there is nothing to saturate.
        bytes := bytes - partials[key].bytes;
        partials := partials - {key};
      } else {
        assert partials - {key} == partials;
      }
    }

    method Put(key: Key, p: Partial)
      requires Valid() && p.bytes == Held(p.chunks)
      requires forall k | k in partials && k.0 == key.0 :: k == key
      requires bytes + p.bytes >= if key in partials then partials[key].bytes else 0
      modifies this
      ensures Valid() && partials == old(partials)[key := p]
    {
      SumUpdated(partials, key, p);
      if key in partials {
        SumWithout(partials, key);
        bytes := bytes + p.bytes - partials[key].bytes;
      } else {
        assert partials - {key} == partials;
        bytes := bytes + p.bytes;
      }
      partials := partials[key := p];
    }

    /** Store one chunk and hand out the frame when it was the last one missing. */
    method Fill(peer: Peer, body: Bytes) returns (r: Option<Bytes>)
      requires Valid() && IsFragment(body) && InRange(body) && (peer, Id(body)) in partials
      modifies this
      ensures Valid()
      ensures (SlotOf(peer), r) == FillSlot(old(partials[(peer, Id(body))]), body)
      ensures forall k: Key | k.0 != peer :: (k in partials <==> k in old(partials))
      ensures forall k: Key | k.0 != peer && k in partials :: partials[k] == old(partials)[k]
    {
      var key := (peer, Id(body));
      var partial := partials[key];
      if |partial.chunks| != Count(body) {
        Remove(key);
        SlotIsIdle(partials, peer);
        return None;
      }
      var payload, index := Payload(body), Index(body);
      var oldLen := SizeOf(partial.chunks[index]);
      HeldUpdated(partial.chunks, index, Some(payload));
      var chunks := partial.chunks[index := Some(payload)];
      SumWithout(partials, key);
      var stored := Partial(chunks, partial.bytes + |payload| - oldLen, partial.epoch);
      Put(key, stored);
      SlotIs(partials, key);
      if !AllPresent(chunks) {
        return None;
      }
      Remove(key);
      SlotIsIdle(partials, peer);
      r := Some(Gathered(chunks));
    }

    /**
     * `reassemble`: over the shared table, every peer sees its own single slot and nobody
     * else's, and the counters stay exact.
     */
    method Reassemble(peer: Peer, epoch: nat, body: Bytes) returns (r: Option<Bytes>)
      requires Valid()
      modifies this
      ensures Valid()
      ensures (SlotOf(peer), r) == FeedSlot(old(SlotOf(peer)), epoch, body)
      ensures forall q | q != peer :: SlotOf(q) == old(SlotOf(q))
    {
      hide Sum, Held, FillSlot, Id, Index, Count;
      if !IsFragment(body) {
        return Some(body);
      }
      if !InRange(body) {
        return None;
      }
      var key := (peer, Id(body));
      ghost var before := partials;
      if key in partials {
        SlotIs(partials, key);
      } else {
        if existing :| existing in partials && existing.0 == peer {
          SlotIs(partials, existing);
          if partials[existing].epoch == epoch && Index(body) != 0 {
            return None;
          }
          Remove(existing);
        } else {
          SlotIsIdle(partials, peer);
        }
        BlankHoldsNothing(Count(body));
        assert Blank(Count(body), epoch).chunks == Blank(Count(body), 0).chunks;
        Put(key, Blank(Count(body), epoch));
      }
      r := Fill(peer, body);
      SlotsElsewhere(before, partials, peer);
    }
  }

  // ---------- the pump ----------

  /** What a peer's link hands up: the peer's epoch and one channel-0 message. */
  datatype Arrival = Arrival(epoch: nat, body: Bytes)

  datatype Event = Event(peer: Peer, arrival: Arrival)

  function Single(out: Option<Bytes>): seq<Bytes> {
    if out.Some? then [out.value] else []
  }

  ghost function FeedArrivals(slot: Slot, arrivals: seq<Arrival>): (Slot, seq<Bytes>)
    decreases |arrivals|
  {
    if arrivals == [] then (slot, [])
    else
      var (mid, outs) := FeedArrivals(slot, arrivals[..|arrivals| - 1]);
      var last := arrivals[|arrivals| - 1];
      var (next, out) := FeedSlot(mid, last.epoch, last.body);
      (next, outs + Single(out))
  }

  function OfPeer(events: seq<Event>, peer: Peer): seq<Arrival> {
    if events == [] then []
    else
      var front, last := OfPeer(events[..|events| - 1], peer), events[|events| - 1];
      if last.peer == peer then front + [last.arrival] else front
  }

  function InboxOf(inbox: seq<(Peer, Bytes)>, peer: Peer): seq<Bytes> {
    if inbox == [] then []
    else
      var front, last := InboxOf(inbox[..|inbox| - 1], peer), inbox[|inbox| - 1];
      if last.0 == peer then front + [last.1] else front
  }

  /**
   * The pump: every message of every peer goes through the one table. Each peer's share of
   * the inbox is what its own messages alone would have produced.
   */
  method Pump(table: Reassembly, events: seq<Event>) returns (inbox: seq<(Peer, Bytes)>)
    requires table.Valid()
    modifies table
    ensures table.Valid()
    ensures forall p :: (table.SlotOf(p), InboxOf(inbox, p)) == FeedArrivals(old(table.SlotOf(p)), OfPeer(events, p))
  {
    hide FeedSlot, SlotIn, Sum, Held, OfPeer, InboxOf, FeedArrivals;
    inbox := [];
    forall p
      ensures InboxOf([], p) == [] && FeedArrivals(table.SlotOf(p), OfPeer(events[..0], p)) == (table.SlotOf(p), [])
    {
      NothingArrived(table.SlotOf(p), events, p);
    }
    for k := 0 to |events|
      invariant table.Valid()
      invariant forall p ::
                  (table.SlotOf(p), InboxOf(inbox, p)) == FeedArrivals(old(table.SlotOf(p)), OfPeer(events[..k], p))
    {
      var e := events[k];
      ghost var before := inbox;
      var out := table.Reassemble(e.peer, e.arrival.epoch, e.arrival.body);
      if out.Some? {
        inbox := inbox + [(e.peer, out.value)];
      }
      forall p
        ensures (table.SlotOf(p), InboxOf(inbox, p)) == FeedArrivals(old(table.SlotOf(p)), OfPeer(events[..k + 1], p))
      {
        EventArrives(events, k, p);
        InboxGrows(before, e.peer, out, p);
        ArrivalFeeds(old(table.SlotOf(p)), OfPeer(events[..k], p), e.arrival);
      }
    }
    assert events[..|events|] == events;
  }

  lemma NothingArrived(slot: Slot, events: seq<Event>, p: Peer)
    ensures InboxOf([], p) == [] && FeedArrivals(slot, OfPeer(events[..0], p)) == (slot, [])
  {
  }

  lemma EventArrives(events: seq<Event>, k: nat, p: Peer)
    requires k < |events|
    ensures OfPeer(events[..k + 1], p)
         == if events[k].peer == p then OfPeer(events[..k], p) + [events[k].arrival] else OfPeer(events[..k], p)
  {
    assert events[..k + 1][..k] == events[..k];
  }

  lemma InboxGrows(inbox: seq<(Peer, Bytes)>, peer: Peer, out: Option<Bytes>, p: Peer)
    ensures InboxOf(if out.Some? then inbox + [(peer, out.value)] else inbox, p)
         == if peer == p then InboxOf(inbox, p) + Single(out) else InboxOf(inbox, p)
  {
    if out.Some? {
      assert (inbox + [(peer, out.value)])[..|inbox|] == inbox;
    } else {
      assert InboxOf(inbox, p) + [] == InboxOf(inbox, p);
    }
  }

  lemma ArrivalFeeds(slot: Slot, arrivals: seq<Arrival>, a: Arrival)
    ensures var (mid, outs) := FeedArrivals(slot, arrivals);
            var (next, out) := FeedSlot(mid, a.epoch, a.body);
            FeedArrivals(slot, arrivals + [a]) == (next, outs + Single(out))
  {
    hide FeedSlot;
    assert (arrivals + [a])[..|arrivals|] == arrivals;
  }

  /** Messages that all carry one epoch. */
  function Tagged(epoch: nat, bodies: seq<Bytes>): seq<Arrival> {
    seq(|bodies|, k requires 0 <= k < |bodies| => Arrival(epoch, bodies[k]))
  }

  lemma {:induction false} TaggedFeeds(slot: Slot, epoch: nat, bodies: seq<Bytes>)
    ensures FeedArrivals(slot, Tagged(epoch, bodies)) == FeedAll(slot, epoch, bodies)
    decreases |bodies|
  {
    hide FeedSlot;
    if bodies != [] {
      var front, last := bodies[..|bodies| - 1], bodies[|bodies| - 1];
      assert bodies == front + [last];
      assert Tagged(epoch, bodies)[..|bodies| - 1] == Tagged(epoch, front);
      TaggedFeeds(slot, epoch, front);
      FeedAllAppends(slot, epoch, front, [last]);
      FeedOne(FeedAll(slot, epoch, front).0, epoch, last);
    }
  }

  // ---------- soundness under any interleaving ----------

  /** Some fragment of some frame that was sent, in any order and any number of times. */
  ghost predicate Genuine(body: Bytes, frames: map<nat, Bytes>) {
    exists id, k: nat :: id in frames && IsFragmentOf(body, id, frames[id], k)
  }

  ghost predicate IsFragmentOf(body: Bytes, id: nat, payload: Bytes, k: nat) {
    Sendable(id, payload) && k < ChunkCount(|payload|) && body == FragmentsOf(id, payload)[k]
  }

  /** Everything in the slot came from one sent frame. */
  ghost predicate Backed(slot: Slot, frames: map<nat, Bytes>) {
    slot.Busy? ==> slot.id in frames && BackedBy(slot.partial.chunks, frames[slot.id])
  }

  ghost predicate BackedBy(chunks: seq<Option<Bytes>>, payload: Bytes) {
    && |chunks| == ChunkCount(|payload|)
    && forall k | 0 <= k < |chunks| && chunks[k].Some? :: chunks[k].value == Chunk(payload, k)
  }

  lemma FillIsSound(p: Partial, id: nat, payload: Bytes, k: nat, body: Bytes, frames: map<nat, Bytes>)
    requires id in frames && frames[id] == payload && IsFragmentOf(body, id, payload, k)
    requires BackedBy(p.chunks, payload)
    ensures IsFragment(body) && InRange(body)
    ensures var (next, out) := FillSlot(p, body); Backed(next, frames) && (out.Some? ==> out.value == payload)
  {
    FragmentAt(id, payload, k);
    var chunks := p.chunks[k := Some(Chunk(payload, k))];
    if AllPresent(chunks) {
      assert seq(|chunks|, j requires 0 <= j < |chunks| => chunks[j].value) == ChunksOf(payload);
      ChunksJoin(payload);
    }
  }

  lemma FeedIsSound(slot: Slot, epoch: nat, body: Bytes, frames: map<nat, Bytes>)
    requires Backed(slot, frames) && Genuine(body, frames)
    ensures var (next, out) := FeedSlot(slot, epoch, body);
            Backed(next, frames) && (out.Some? ==> out.value in frames.Values)
  {
    var id, k: nat :| id in frames && IsFragmentOf(body, id, frames[id], k);
    FragmentAt(id, frames[id], k);
    if slot.Busy? && slot.id == id {
      FillIsSound(slot.partial, id, frames[id], k, body, frames);
    } else {
      FillIsSound(Blank(Count(body), epoch), id, frames[id], k, body, frames);
    }
  }

  /**
   * Whatever the order, the repetitions and the epochs of genuine fragments, every frame a
   * peer's slot puts out is the full payload of one frame that peer sent.
   */
  lemma {:induction false} OnlySentFrames(slot: Slot, arrivals: seq<Arrival>, frames: map<nat, Bytes>)
    requires Backed(slot, frames) && forall a | a in arrivals :: Genuine(a.body, frames)
    ensures var (last, outs) := FeedArrivals(slot, arrivals);
            Backed(last, frames) && forall out | out in outs :: out in frames.Values
    decreases |arrivals|
  {
    if arrivals != [] {
      hide FeedSlot, Backed, Genuine;
      var front, last := arrivals[..|arrivals| - 1], arrivals[|arrivals| - 1];
      OnlySentFrames(slot, front, frames);
      FeedIsSound(FeedArrivals(slot, front).0, last.epoch, last.body, frames);
    }
  }
}
