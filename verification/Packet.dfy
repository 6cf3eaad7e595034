/** The plaintext of one datagram: two 16-bit timestamps and an Instruction. */
module Packets {
  import opened Bytes
  import opened Protocol
  import opened Wrappers

  /** One channel's state-synchronisation step. */
  datatype Instruction = Instruction(channel: nat, oldNum: nat, newNum: nat, ackNum: nat, throwawayNum: nat, diff: Bytes)

  datatype Packet = Packet(sendTs: nat, replyTs: nat, instruction: Instruction)

  datatype PacketError = Truncated | DiffLength | Oversized(size: nat)

  const U16_SPAN: nat := 0x1_0000

  /** Every field fits the width the program's types give it. */
  predicate Representable(i: Instruction) {
    && i.channel < 256
    && i.oldNum < U64_SPAN && i.newNum < U64_SPAN && i.ackNum < U64_SPAN && i.throwawayNum < U64_SPAN
  }

  function InstructionHead(i: Instruction): (b: Bytes)
    ensures |b| == INSTRUCTION_HEADER_LEN
  {
    BigEndian(i.channel, 1) + BeU64(i.oldNum) + BeU64(i.newNum) + BeU64(i.ackNum) + BeU64(i.throwawayNum)
    + BeU32(|i.diff|)
  }

  function InstructionBytes(i: Instruction): Bytes {
    InstructionHead(i) + i.diff
  }

  function EncodeInstruction(i: Instruction): Result<Bytes, PacketError> {
    if |i.diff| > MAX_DIFF_LEN then Err(Oversized(|i.diff|)) else Ok(InstructionBytes(i))
  }

  function DecodeInstruction(b: Bytes): Result<Instruction, PacketError> {
    if |b| < INSTRUCTION_HEADER_LEN then Err(Truncated)
    else if ReadU32(b, 33) != |b| - INSTRUCTION_HEADER_LEN then Err(DiffLength)
    else Ok(Instruction(b[0], ReadU64(b, 1), ReadU64(b, 9), ReadU64(b, 17), ReadU64(b, 25), b[INSTRUCTION_HEADER_LEN..]))
  }

  function EncodePacket(p: Packet): Result<Bytes, PacketError> {
    match EncodeInstruction(p.instruction)
    case Ok(b) => Ok(BigEndian(p.sendTs, 2) + BigEndian(p.replyTs, 2) + b)
    case Err(e) => Err(e)
  }

  function DecodePacket(b: Bytes): Result<Packet, PacketError> {
    if |b| < TIMESTAMP_LEN then Err(Truncated)
    else
      match DecodeInstruction(b[TIMESTAMP_LEN..])
      case Ok(i) => Ok(Packet(FromBigEndian(b[0..2]), FromBigEndian(b[2..4]), i))
      case Err(e) => Err(e)
  }

  lemma HeadFields(i: Instruction)
    ensures var b := InstructionHead(i);
            && b[0..1] == BigEndian(i.channel, 1)
            && b[1..9] == BeU64(i.oldNum) && b[9..17] == BeU64(i.newNum)
            && b[17..25] == BeU64(i.ackNum) && b[25..33] == BeU64(i.throwawayNum)
            && b[33..37] == BeU32(|i.diff|)
  {
  }

  lemma OctetReads(n: nat)
    requires n < 256
    ensures BigEndian(n, 1) == [n]
  {
    assert BigEndian(n / 256, 0) == [];
  }

  lemma FieldsOfBytes(i: Instruction)
    requires Representable(i)
    ensures var b := InstructionBytes(i);
            && |b| == INSTRUCTION_HEADER_LEN + |i.diff| && b[INSTRUCTION_HEADER_LEN..] == i.diff
            && b[0] == i.channel && ReadU64(b, 1) == i.oldNum && ReadU64(b, 9) == i.newNum
            && ReadU64(b, 17) == i.ackNum && ReadU64(b, 25) == i.throwawayNum
            && ReadU32(b, 33) == |i.diff| % U32_SPAN
  {
    hide BigEndian, FromBigEndian;
    var head, b := InstructionHead(i), InstructionBytes(i);
    FieldsOfHead(i);
    assert b[..INSTRUCTION_HEADER_LEN] == head;
    assert b[0] == head[0];
    assert b[1..9] == head[1..9] && b[9..17] == head[9..17];
    assert b[17..25] == head[17..25] && b[25..33] == head[25..33];
    assert b[33..37] == head[33..37];
  }

  lemma FieldsOfHead(i: Instruction)
    requires Representable(i)
    ensures var b := InstructionHead(i);
            && b[0] == i.channel && ReadU64(b, 1) == i.oldNum && ReadU64(b, 9) == i.newNum
            && ReadU64(b, 17) == i.ackNum && ReadU64(b, 25) == i.throwawayNum
            && ReadU32(b, 33) == |i.diff| % U32_SPAN
  {
    hide BeU32, ReadU32, BeU64, ReadU64;
    var b := InstructionHead(i);
    HeadFields(i);
    hide InstructionHead;
    OctetReads(i.channel);
    assert b[0] == b[0..1][0];
    U64Field(b, 1, i.oldNum);
    U64Field(b, 9, i.newNum);
    U64Field(b, 17, i.ackNum);
    U64Field(b, 25, i.throwawayNum);
    U32Field(b, 33, |i.diff|);
  }

  lemma SlicesAgree(head: Bytes, b: Bytes)
    requires |head| == 37 <= |b|
    requires head[0..1] == b[0..1] && head[1..9] == b[1..9] && head[9..17] == b[9..17]
    requires head[17..25] == b[17..25] && head[25..33] == b[25..33] && head[33..37] == b[33..37]
    ensures head == b[..37]
  {
    assert head == head[0..1] + head[1..9] + head[9..17] + head[17..25] + head[25..33] + head[33..37];
    assert b[..37] == b[0..1] + b[1..9] + b[9..17] + b[17..25] + b[25..33] + b[33..37];
  }

  lemma DecodedIsRepresentable(b: Bytes)
    requires DecodeInstruction(b).Ok?
    ensures var i := DecodeInstruction(b).value;
            Representable(i) && |i.diff| < U32_SPAN && InstructionBytes(i) == b
  {
    hide BeU32, ReadU32, BeU64, ReadU64;
    var i := DecodeInstruction(b).value;
    OctetReads(i.channel);
    U64Unread(b, 1);
    U64Unread(b, 9);
    U64Unread(b, 17);
    U64Unread(b, 25);
    U32Unread(b, 33);
    HeadFields(i);
    var head := InstructionHead(i);
    SlicesAgree(head, b);
  }

  /** Octets decode to an Instruction exactly when they are its encoding. */
  lemma InstructionCodec(b: Bytes, i: Instruction)
    ensures DecodeInstruction(b) == Ok(i)
       <==> Representable(i) && |i.diff| < U32_SPAN && InstructionBytes(i) == b
  {
    hide BeU32, ReadU32, BeU64, ReadU64;
    if DecodeInstruction(b) == Ok(i) {
      DecodedIsRepresentable(b);
    }
    if Representable(i) && |i.diff| < U32_SPAN && InstructionBytes(i) == b {
      FieldsOfBytes(i);
    }
  }

  /** Whatever `encode` emits, `decode` gives back, and it fits one plaintext. */
  lemma PacketRoundTrip(p: Packet)
    requires p.sendTs < U16_SPAN && p.replyTs < U16_SPAN && Representable(p.instruction)
    ensures EncodePacket(p).Ok? <==> |p.instruction.diff| <= MAX_DIFF_LEN
    ensures EncodePacket(p).Ok? ==>
              |EncodePacket(p).value| <= MAX_PLAINTEXT && DecodePacket(EncodePacket(p).value) == Ok(p)
  {
    if EncodePacket(p).Ok? {
      var b := EncodePacket(p).value;
      var i := p.instruction;
      InstructionCodec(InstructionBytes(i), i);
      hide DecodeInstruction, InstructionHead, Representable, BigEndian, FromBigEndian;
      assert b[TIMESTAMP_LEN..] == InstructionBytes(i);
      assert b[0..2] == BigEndian(p.sendTs, 2) && b[2..4] == BigEndian(p.replyTs, 2);
      assert Span(2) == U16_SPAN by { assert Span(1) == 256; }
      BigEndianReads(p.sendTs, 2);
      BigEndianReads(p.replyTs, 2);
    }
  }

  /** `Instruction::encode_into`: append to `out`, or leave it alone when the diff is too large. */
  method EncodeInto(i: Instruction, out: Bytes) returns (r: Result<Bytes, PacketError>)
    ensures r == if EncodeInstruction(i).Ok? then Ok(out + EncodeInstruction(i).value) else Err(Oversized(|i.diff|))
  {
    if |i.diff| > MAX_DIFF_LEN {
      return Err(Oversized(|i.diff|));
    }
    var head := BigEndian(i.channel, 1) + BeU64(i.oldNum);
    head := head + BeU64(i.newNum);
    head := head + BeU64(i.ackNum);
    head := head + BeU64(i.throwawayNum);
    head := head + BeU32(|i.diff|);
    assert out + head + i.diff == out + InstructionBytes(i);
    r := Ok(out + head + i.diff);
  }

  // ---------- 16-bit clocks ----------

  function Timestamp16(nowMs: nat): nat { nowMs % U16_SPAN }

  /** `timestamp16(now).wrapping_sub(echoed)`. */
  function Elapsed16(nowMs: nat, echoed: nat): nat
    requires echoed < U16_SPAN
  {
    (Timestamp16(nowMs) + U16_SPAN - echoed) % U16_SPAN
  }

  /** The echoed clock measures real elapsed time as long as that is below one wrap. */
  lemma ElapsedMeasures(sentMs: nat, nowMs: nat)
    requires sentMs <= nowMs
    ensures Elapsed16(nowMs, Timestamp16(sentMs)) == nowMs - sentMs <==> nowMs - sentMs < U16_SPAN
  {
    var gap := nowMs - sentMs;
    assert (Timestamp16(nowMs) + U16_SPAN - Timestamp16(sentMs) - gap) % U16_SPAN == 0;
  }
}
