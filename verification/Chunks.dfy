/** Cutting an application frame into pieces that fit one message, and joining them again. */
module Chunks {
  import opened Bytes
  import opened Protocol

  /** Octets of an application frame one message carries, on either channel. */
  const CAPACITY: nat := MAX_MESSAGE_BYTES - 20

  /** `len.div_ceil(capacity).max(1)`. */
  function ChunkCount(len: nat): (n: nat)
    ensures n >= 1 && len <= n * CAPACITY
    ensures if len == 0 then n == 1 else (n - 1) * CAPACITY < len
  {
    if len == 0 then 1 else (len + CAPACITY - 1) / CAPACITY
  }

  function Chunk(payload: Bytes, k: nat): (c: Bytes)
    requires k < ChunkCount(|payload|)
    ensures |c| <= CAPACITY
  {
    payload[k * CAPACITY..if (k + 1) * CAPACITY <= |payload| then (k + 1) * CAPACITY else |payload|]
  }

  function ChunksOf(payload: Bytes): (cs: seq<Bytes>)
    ensures |cs| == ChunkCount(|payload|)
    ensures forall k | 0 <= k < |cs| :: cs[k] == Chunk(payload, k)
  {
    seq(ChunkCount(|payload|), k requires 0 <= k < ChunkCount(|payload|) => Chunk(payload, k))
  }

  function Join(chunks: seq<Bytes>): Bytes {
    if chunks == [] then [] else Join(chunks[..|chunks| - 1]) + chunks[|chunks| - 1]
  }

  lemma {:induction false} JoinPrefix(payload: Bytes, k: nat)
    requires k <= ChunkCount(|payload|)
    ensures Join(ChunksOf(payload)[..k]) == payload[..if k * CAPACITY <= |payload| then k * CAPACITY else |payload|]
  {
    if k > 0 {
      var cs := ChunksOf(payload);
      JoinPrefix(payload, k - 1);
      assert cs[..k][..k - 1] == cs[..k - 1];
      assert cs[..k][k - 1] == Chunk(payload, k - 1);
    }
  }

  /** Joining all chunks of a payload gives the payload. */
  lemma ChunksJoin(payload: Bytes)
    ensures Join(ChunksOf(payload)) == payload
  {
    var cs := ChunksOf(payload);
    JoinPrefix(payload, |cs|);
    assert cs[..|cs|] == cs;
  }
}
