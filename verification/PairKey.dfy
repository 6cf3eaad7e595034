/** The pair key and the 28 characters it is carried in. */
module PairKeys {
  import BitPacking
  import opened Bytes
  import opened Crockford
  import opened Words
  import opened Wrappers

  const KEY_LEN: nat := 16
  const PAYLOAD_BITS: nat := 140
  const ENCODED_CHARS: nat := 28

  /** The first two octets of SHA-256, a function this model knows nothing else about. */
  type Digest = Bytes -> (byte, byte)

  datatype PairKeyError = Length(got: nat) | InvalidCharacter(c: char) | Checksum

  function FromCrockford(e: CrockfordError): PairKeyError {
    match e
    case Length(got) => PairKeyError.Length(got)
    case InvalidCharacter(c) => PairKeyError.InvalidCharacter(c)
  }

  /** The top 12 bits of the digest. */
  function ChecksumOf(digest: Digest, key: Bytes): (sum: nat)
    ensures sum < 4096
  {
    digest(key).0 * 16 + digest(key).1 / 16
  }

  /** The key and its checksum, left aligned in 18 octets. */
  function Payload(digest: Digest, key: Bytes): Bytes {
    key + [ChecksumOf(digest, key) / 16, ChecksumOf(digest, key) % 16 * 16]
  }

  function Compact(digest: Digest, key: Bytes): string
    requires |key| == KEY_LEN
  {
    Encoded(Payload(digest, key), PAYLOAD_BITS)
  }

  function Display(digest: Digest, key: Bytes): string
    requires |key| == KEY_LEN
  {
    Grouped(Compact(digest, key))
  }

  /** The checksum in a decoded payload. */
  function FoundChecksum(payload: Bytes): nat
    requires |payload| == 18
  {
    var high: nat, low: nat := payload[16], payload[17];
    high * 16 + low / 16
  }

  function DecodeKey(digest: Digest, text: string): Result<Bytes, PairKeyError> {
    match Decoded(text, PAYLOAD_BITS)
    case Err(e) => Err(FromCrockford(e))
    case Ok(payload) =>
      var key := payload[..KEY_LEN];
      if FoundChecksum(payload) != ChecksumOf(digest, key) then Err(Checksum) else Ok(key)
  }

  /** `(high << 4) | low` of a nibble. */
  lemma {:induction false} OrNibble(high: nat, low: nat)
    requires low < 16
    ensures Or(16 * high, low) == 16 * high + low
  {
    hide Or;
    OrSplits(16 * high, low);
    OrSplits(8 * high, low / 2);
    OrSplits(4 * high, low / 4);
    OrSplits(2 * high, low / 8);
    OrWithZero(high);
    assert low / 2 / 2 == low / 4 && low / 4 / 2 == low / 8 && low / 8 / 2 == 0;
  }

  method EncodeCompact(digest: Digest, key: Bytes) returns (text: string)
    requires |key| == KEY_LEN
    ensures text == Compact(digest, key)
  {
    var checksum := ChecksumOf(digest, key);
    var payload := new byte[18](_ => 0);
    forall i | 0 <= i < KEY_LEN {
      payload[i] := key[i];
    }
    payload[16] := checksum / 16;
    payload[17] := checksum % 16 * 16;
    assert payload[..] == Payload(digest, key);
    text := EncodeBits(payload[..], PAYLOAD_BITS);
  }

  method Decode(digest: Digest, text: string) returns (r: Result<Bytes, PairKeyError>)
    ensures r == DecodeKey(digest, text)
  {
    var payload := DecodeBits(text, PAYLOAD_BITS);
    if payload.Err? {
      return Err(FromCrockford(payload.error));
    }
    var key := payload.value[..KEY_LEN];
    var high: nat, low: nat := payload.value[16], payload.value[17];
    var found := Or(16 * high, low / 16);
    OrNibble(high, low / 16);
    if found != ChecksumOf(digest, key) {
      return Err(Checksum);
    }
    r := Ok(key);
  }

  // ---------- which texts are a key ----------

  lemma NibbleBits(x: nat)
    ensures Bit(x, 0) == (x % 2 == 1)
    ensures Bit(x, 1) == (x / 2 % 2 == 1)
    ensures Bit(x, 2) == (x / 2 / 2 % 2 == 1)
    ensures Bit(x, 3) == (x / 2 / 2 / 2 % 2 == 1)
  {
    assert Bit(x, 2) == Bit(x / 2, 1);
    assert Bit(x, 3) == Bit(x / 2, 2) == Bit(x / 2 / 2, 1);
  }

  /** Four zero bits at the bottom of an octet. */
  lemma LowNibble(x: nat)
    ensures x % 16 == 0 <==> !Bit(x, 0) && !Bit(x, 1) && !Bit(x, 2) && !Bit(x, 3)
  {
    NibbleBits(x);
    hide Bit;
    var x0, a := x % 2, x / 2;
    var x1, b := a % 2, a / 2;
    var x2, c := b % 2, b / 2;
    var x3, d := c % 2, c / 2;
    UniqueRemainder(x, 16, d, 8 * x3 + 4 * x2 + 2 * x1 + x0);
  }

  lemma PaddedNibble(payload: Bytes)
    requires |payload| == 18
    ensures Padded(payload, PAYLOAD_BITS) <==> payload[17] % 16 == 0
  {
    LowNibble(payload[17]);
    hide Bit;
    assert BitPacking.WordBit(payload, 8, 140) == Bit(payload[17], 3) && BitPacking.WordBit(payload, 8, 141) == Bit(payload[17], 2);
    assert BitPacking.WordBit(payload, 8, 142) == Bit(payload[17], 1) && BitPacking.WordBit(payload, 8, 143) == Bit(payload[17], 0);
  }

  /** A key is accepted from exactly those payloads that its encoder writes. */
  lemma AcceptedPayload(digest: Digest, payload: Bytes, key: Bytes)
    requires |payload| == 18 && payload[17] % 16 == 0
    ensures payload == Payload(digest, key)
       <==> payload[..KEY_LEN] == key && FoundChecksum(payload) == ChecksumOf(digest, key)
  {
    assert payload == payload[..KEY_LEN] + [payload[16], payload[17]];
  }

  /**
   * Over every text and every hash function: a text decodes to a key exactly when, folded, it
   * spells that key's own encoding.
   */
  lemma DecodesExactly(digest: Digest, text: string, key: Bytes)
    requires |key| == KEY_LEN
    ensures DecodeKey(digest, text) == Ok(key) <==> Folded(text) == Compact(digest, key)
  {
    hide Padded, Encoded, Octets, Values, Folded, ChecksumOf;
    var own := Payload(digest, key);
    PaddedNibble(own);
    OneSpelling(text, PAYLOAD_BITS, own);
    AcceptedPayload(digest, own, key);
    if DecodeKey(digest, text).Ok? {
      var payload := Decoded(text, PAYLOAD_BITS).value;
      OctetsExactly(Values(text).value, PAYLOAD_BITS, payload);
      PaddedNibble(payload);
      AcceptedPayload(digest, payload, key);
    }
  }

  /** A key's own display form decodes to it. */
  lemma DisplayDecodes(digest: Digest, key: Bytes)
    requires |key| == KEY_LEN
    ensures DecodeKey(digest, Display(digest, key)) == Ok(key)
  {
    hide DecodeKey, Folded, Grouped, Encoded;
    GroupedFolds(Compact(digest, key));
    LettersFold(OwnValues(Payload(digest, key), PAYLOAD_BITS));
    DecodesExactly(digest, Display(digest, key), key);
  }

  /** What each refusal says about the text. */
  lemma RefusalsExplained(digest: Digest, text: string)
    ensures var r, folded := DecodeKey(digest, text), Folded(text);
            && (r.Err? && r.error.InvalidCharacter? <==> !AllLetters(folded))
            && (forall got :: r == Err(PairKeyError.Length(got)) <==> AllLetters(folded) && |folded| == got != ENCODED_CHARS)
            && (r == Err(Checksum) ==> AllLetters(folded) && |folded| == ENCODED_CHARS)
  {
    ValuesAreFolded(text);
    ErrorsNameCharacters(text);
    hide AllLetters, Folded, Values, ChecksumOf, Octets;
  }
}
