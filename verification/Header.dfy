/** The cleartext outer header, the only octets a forwarder reads. */
module Headers {
  import opened Bytes
  import opened Protocol
  import opened Wrappers

  const VERSION: nat := 2
  const FLAG_HEARTBEAT: nat := 1
  const NODE_ID_LEN: nat := 16
  const TAG_OFFSET: nat := 50

  type NodeId = Bytes

  datatype OuterHeader = OuterHeader(flags: nat, src: NodeId, dst: NodeId, seq': nat, epoch: nat)

  /** The octets the tag and the AEAD both cover. */
  function SignedBytes(h: OuterHeader): Bytes {
    BigEndian(VERSION, 1) + BigEndian(h.flags, 1) + h.src + h.dst + BeU64(h.seq') + BeU64(h.epoch)
  }

  /** `OuterHeader::decode`: length, version and reserved flags, then the fixed fields. */
  function DecodeHeader(datagram: Bytes): Option<OuterHeader> {
    if |datagram| < HEADER_LEN || datagram[0] != VERSION || datagram[1] > FLAG_HEARTBEAT then None
    else Some(OuterHeader(datagram[1], datagram[2..18], datagram[18..34], ReadU64(datagram, 34), ReadU64(datagram, 42)))
  }

  predicate Representable(h: OuterHeader) {
    && h.flags <= FLAG_HEARTBEAT
    && |h.src| == NODE_ID_LEN && |h.dst| == NODE_ID_LEN
    && h.seq' < U64_SPAN && h.epoch < U64_SPAN
  }

  lemma SignedFields(h: OuterHeader)
    requires Representable(h)
    ensures var b := SignedBytes(h);
            && |b| == TAG_OFFSET
            && b[0] == VERSION && b[1] == h.flags && b[2..18] == h.src && b[18..34] == h.dst
            && b[34..42] == BeU64(h.seq') && b[42..50] == BeU64(h.epoch)
  {
    hide BeU64;
    assert BigEndian(VERSION / 256, 0) == [] && BigEndian(h.flags / 256, 0) == [];
  }

  /** A datagram decodes to a header exactly when it is long enough and starts with that header's signed octets. */
  lemma HeaderCodec(datagram: Bytes, h: OuterHeader)
    ensures DecodeHeader(datagram) == Some(h)
       <==> |datagram| >= HEADER_LEN && Representable(h) && datagram[..TAG_OFFSET] == SignedBytes(h)
  {
    if |datagram| >= HEADER_LEN && Representable(h) && datagram[..TAG_OFFSET] == SignedBytes(h) {
      EncodedHeaderDecodes(datagram, h);
    }
    if DecodeHeader(datagram) == Some(h) {
      DecodedHeaderEncodes(datagram, h);
    }
  }

  lemma EncodedHeaderDecodes(datagram: Bytes, h: OuterHeader)
    requires |datagram| >= HEADER_LEN && Representable(h) && datagram[..TAG_OFFSET] == SignedBytes(h)
    ensures DecodeHeader(datagram) == Some(h)
  {
    SignedFields(h);
    hide SignedBytes, BeU64, ReadU64;
    var b := datagram[..TAG_OFFSET];
    SliceOfPrefix(datagram, 2, 18);
    SliceOfPrefix(datagram, 18, 34);
    SliceOfPrefix(datagram, 34, 42);
    SliceOfPrefix(datagram, 42, 50);
    SeqFieldReads(datagram, 34, h.seq');
    SeqFieldReads(datagram, 42, h.epoch);
    assert datagram[0] == b[0] && datagram[1] == b[1];
  }

  lemma SliceOfPrefix(datagram: Bytes, lo: nat, hi: nat)
    requires lo <= hi <= TAG_OFFSET <= |datagram|
    ensures datagram[lo..hi] == datagram[..TAG_OFFSET][lo..hi]
  {
  }

  lemma SeqFieldReads(datagram: Bytes, at: nat, n: nat)
    requires at + 8 <= |datagram| && datagram[at..at + 8] == BeU64(n) && n < U64_SPAN
    ensures ReadU64(datagram, at) == n
  {
    U64Field(datagram, at, n);
  }

  lemma DecodedHeaderEncodes(datagram: Bytes, h: OuterHeader)
    requires DecodeHeader(datagram) == Some(h)
    ensures Representable(h) && datagram[..TAG_OFFSET] == SignedBytes(h)
  {
    U64Unread(datagram, 34);
    U64Unread(datagram, 42);
    SignedFields(h);
    hide SignedBytes, BeU64, ReadU64;
    var b := SignedBytes(h);
    assert datagram[..TAG_OFFSET] == [datagram[0]] + [datagram[1]] + datagram[2..18] + datagram[18..34]
                                     + datagram[34..42] + datagram[42..50];
    assert b == [b[0]] + [b[1]] + b[2..18] + b[18..34] + b[34..42] + b[42..50];
  }
}
