/** Crockford base32: bit strings as text a person can carry between machines. */
module Crockford {
  import opened BitPacking
  import opened Bytes
  import Text
  import opened Words
  import opened Wrappers

  const ALPHABET: string := "0123456789ABCDEFGHJKMNPQRSTVWXYZ"

  const GROUP: nat := 4

  datatype CrockfordError = Length(got: nat) | InvalidCharacter(c: char)

  // ---------- characters ----------

  /** `to_ascii_uppercase`. */
  function Upper(c: char): char {
    if 'a' <= c <= 'z' then c - 'a' + 'A' else c
  }

  function Fold(c: char): char {
    var upper := Upper(c);
    if upper == 'O' then '0' else if upper == 'I' || upper == 'L' then '1' else upper
  }

  /** Position of the first `c` in `s`. */
  function Position(s: string, c: char): (r: Option<nat>)
    ensures match r case None => c !in s case Some(i) => i < |s| && s[i] == c
  {
    if s == "" then None
    else if s[0] == c then Some(0)
    else match Position(s[1..], c) case None => None case Some(i) => Some(i + 1)
  }

  function DecodeChar(c: char): Option<nat> { Position(ALPHABET, Fold(c)) }

  predicate IsSeparator(c: char) { c == '-' || Text.IsWhitespace(c) }

  function Letter(v: nat): char
    requires v < 32
  {
    ALPHABET[v]
  }

  lemma AlphabetIsFolded(v: nat)
    requires v < 32
    ensures Fold(Letter(v)) == Letter(v) && !IsSeparator(Letter(v))
  {
  }

  lemma AlphabetIncreases(v: nat)
    requires v < 31
    ensures Letter(v) < Letter(v + 1)
  {
  }

  lemma {:induction false} AlphabetOrdered(v: nat, w: nat)
    requires v < w < 32
    ensures Letter(v) < Letter(w)
  {
    AlphabetIncreases(w - 1);
    if v < w - 1 {
      AlphabetOrdered(v, w - 1);
    }
  }

  /** Each letter reads as its own value. */
  lemma LetterReads(v: nat)
    requires v < 32
    ensures DecodeChar(Letter(v)) == Some(v)
  {
    AlphabetIsFolded(v);
    var p := DecodeChar(Letter(v));
    assert p.Some?;
    if p.value < v {
      AlphabetOrdered(p.value, v);
    } else if v < p.value {
      AlphabetOrdered(v, p.value);
    }
  }

  // ---------- encoding ----------

  function Letters(values: seq<nat>): (s: string)
    requires Narrow(values, 5)
    ensures |s| == |values|
  {
    Pow2Of5();
    seq(|values|, k requires 0 <= k < |values| => Letter(values[k]))
  }

  lemma Pow2Of5()
    ensures Pow2(5) == 32 && Pow2(8) == 256
  {
    assert Pow2(3) == 8;
    assert Pow2(5) == 32;
    assert Pow2(7) == 128;
  }

  function BitsOf(bytes: Bytes): (b: seq<bool>)
    ensures |b| == 8 * |bytes|
  {
    Unpack(bytes, 8)
  }

  /** The five-bit groups of the first `bits` bits, as letters. */
  function Encoded(bytes: Bytes, bits: nat): string
    requires bits <= 8 * |bytes|
  {
    PackNarrow(BitsOf(bytes)[..bits], 5, CeilDiv(bits, 5));
    Letters(Pack(BitsOf(bytes)[..bits], 5))
  }

  /** `(chunk << 1) | bit`, while the chunk has room. */
  lemma PushBit(chunk: nat, bit: nat)
    requires chunk < 128 && bit < 2
    ensures Or(2 * chunk % 256, bit) == 2 * chunk + bit
  {
    hide Or;
    OrSplits(2 * chunk, bit);
    OrWithZero(chunk);
    assert 2 * chunk % 256 == 2 * chunk;
    assert bit / 2 == 0;
  }

  lemma {:induction false} OrWithZero(x: nat)
    ensures Or(x, 0) == x
  {
    if x > 0 {
      OrWithZero(x / 2);
    }
  }

  lemma FromBitsPush(bits: seq<bool>, b: bool)
    ensures FromBits(bits + [b]) == 2 * FromBits(bits) + if b then 1 else 0
  {
    assert (bits + [b])[..|bits|] == bits;
  }

  /** Bits read so far, with zeros to fill the group. */
  lemma {:induction false} FromBitsZeros(bits: seq<bool>, zeros: seq<bool>)
    requires forall i | 0 <= i < |zeros| :: !zeros[i]
    ensures FromBits(bits + zeros) == FromBits(bits) * Pow2(|zeros|)
    decreases |zeros|
  {
    if zeros == [] {
      assert bits + zeros == bits;
    } else {
      var fewer := zeros[..|zeros| - 1];
      FromBitsZeros(bits, fewer);
      assert bits + zeros == bits + fewer + [false];
      FromBitsPush(bits + fewer, false);
      hide FromBits;
      assert 2 * (FromBits(bits) * Pow2(|fewer|)) == FromBits(bits) * (2 * Pow2(|fewer|));
    }
  }

  /** The letter the loop emits is the group's. */
  lemma PartialGroup(bits: seq<bool>, k: nat)
    requires 5 * k < |bits|
    ensures var end := if 5 * k + 5 <= |bits| then 5 * k + 5 else |bits|;
            Group(bits, 5, k) == FromBits(bits[5 * k..end]) * Pow2(5 * k + 5 - end)
  {
    var end := if 5 * k + 5 <= |bits| then 5 * k + 5 else |bits|;
    var zeros := seq(5 * k + 5 - end, _ => false);
    FromBitsZeros(bits[5 * k..end], zeros);
    assert GroupBits(bits, 5, k) == bits[5 * k..end] + zeros;
  }

  /** One turn of the loop: the chunk takes the next bit. */
  lemma TakeBit(all: seq<bool>, start: nat, index: nat)
    requires start <= index < |all| && index < start + 5
    ensures var bit := if all[index] then 1 else 0;
            Or(2 * FromBits(all[start..index]) % 256, bit) == FromBits(all[start..index + 1])
    ensures FromBits(all[start..index + 1]) < Pow2(index + 1 - start)
  {
    var taken := all[start..index];
    ChunkFits(index - start);
    FromBitsFits(taken);
    PushBit(FromBits(taken), if all[index] then 1 else 0);
    FromBitsPush(taken, all[index]);
    assert all[start..index + 1] == taken + [all[index]];
    FromBitsFits(taken + [all[index]]);
    hide FromBits, Or, Pow2;
  }

  /** What is flushed after `filled` bits is the group's letter. */
  lemma Flush(bytes: Bytes, bits: nat, k: nat, filled: nat)
    requires bits <= 8 * |bytes| && 0 < filled <= 5 && 5 * k + filled <= bits
    requires filled == 5 || 5 * k + filled == bits
    ensures var v := FromBits(BitsOf(bytes)[..bits][5 * k..5 * k + filled]) * Pow2(5 - filled);
            k < |Encoded(bytes, bits)| && v < 32 && Letter(v) == Encoded(bytes, bits)[k]
  {
    var all := BitsOf(bytes)[..bits];
    PartialGroup(all, k);
    PackNarrow(all, 5, CeilDiv(bits, 5));
    LettersAt(Pack(all, 5), k);
    hide FromBits, Pow2, Group, Letter;
  }

  method EncodeBits(bytes: Bytes, bits: nat) returns (out: string)
    requires bits <= 8 * |bytes|
    ensures out == Encoded(bytes, bits)
  {
    hide Or, FromBits, Pow2, Letter, Encoded, Bit, BitsOf, CeilDiv;
    ghost var all := BitsOf(bytes)[..bits];
    out := "";
    var chunk, filled := 0, 0;
    NoBits(all, 0);
    for index := 0 to bits
      invariant filled < 5 && index == 5 * |out| + filled
      invariant out <= Encoded(bytes, bits)
      invariant chunk == FromBits(all[index - filled..index])
    {
      TakeBit(all, index - filled, index);
      SourceBit(bytes, index);
      chunk := Or(2 * chunk % 256, if Bit(bytes[index / 8], 7 - index % 8) then 1 else 0);
      filled := filled + 1;
      if filled == 5 {
        Flush(bytes, bits, |out|, 5);
        OneShift(chunk);
        NoBits(all, index + 1);
        out := out + [Letter(chunk)];
        chunk := 0;
        filled := 0;
      }
    }
    EncodedLength(bytes, bits, |out|, filled);
    if filled > 0 {
      Flush(bytes, bits, |out|, filled);
      out := out + [Letter(chunk * Pow2(5 - filled))];
    }
  }

  lemma SourceBit(bytes: Bytes, index: nat)
    requires index < 8 * |bytes|
    ensures BitsOf(bytes)[index] == Bit(bytes[index / 8], 7 - index % 8)
  {
    hide Bit;
  }

  lemma OneShift(chunk: nat)
    ensures chunk * Pow2(0) == chunk
  {
  }

  lemma NoBits(all: seq<bool>, at: nat)
    requires at <= |all|
    ensures FromBits(all[at..at]) == 0
  {
  }

  lemma EncodedLength(bytes: Bytes, bits: nat, whole: nat, filled: nat)
    requires bits <= 8 * |bytes| && filled < 5 && bits == 5 * whole + filled
    ensures |Encoded(bytes, bits)| == whole + if filled > 0 then 1 else 0
  {
    hide Pow2, Group, Letter;
  }

  lemma ChunkFits(filled: nat)
    requires filled < 5
    ensures Pow2(filled) <= 16
  {
    assert Pow2(1) == 2 && Pow2(2) == 4 && Pow2(3) == 8;
    assert Pow2(4) == 16;
  }

  lemma LettersAt(values: seq<nat>, k: nat)
    requires Narrow(values, 5) && k < |values|
    ensures values[k] < 32 && Letters(values)[k] == Letter(values[k])
  {
    Pow2Of5();
  }

  // ---------- decoding ----------

  /** The values of the significant characters; the first character that has none is the error. */
  function Values(text: string): (r: Result<seq<nat>, CrockfordError>)
    ensures r.Ok? ==> Narrow(r.value, 5)
  {
    Pow2Of5();
    if text == "" then Ok([])
    else
      match Values(text[..|text| - 1])
      case Err(e) => Err(e)
      case Ok(values) =>
        var c := text[|text| - 1];
        if IsSeparator(c) then Ok(values)
        else match DecodeChar(c) case None => Err(InvalidCharacter(c)) case Some(v) => Ok(values + [v])
  }

  function Decoded(text: string, bits: nat): Result<Bytes, CrockfordError> {
    match Values(text)
    case Err(e) => Err(e)
    case Ok(values) => if |values| != CeilDiv(bits, 5) then Err(Length(|values|)) else Ok(Octets(values, bits))
  }

  /** The first `bits` bits of the values, packed into octets. */
  function Octets(values: seq<nat>, bits: nat): (r: Bytes)
    requires |values| == CeilDiv(bits, 5)
    ensures |r| == CeilDiv(bits, 8)
  {
    CeilCovers(bits, 5);
    PackNarrow(Unpack(values, 5)[..bits], 8, CeilDiv(bits, 8));
    Pow2Of5();
    Pack(Unpack(values, 5)[..bits], 8)
  }

  lemma {:induction false} FirstErrorStays(text: string, i: nat)
    requires i <= |text| && Values(text[..i]).Err?
    ensures Values(text) == Values(text[..i])
    decreases |text|
  {
    if i < |text| {
      assert text[..|text| - 1][..i] == text[..i];
      FirstErrorStays(text[..|text| - 1], i);
    } else {
      assert text[..i] == text;
    }
  }

  method ReadValues(text: string) returns (r: Result<seq<nat>, CrockfordError>)
    ensures r == Values(text)
  {
    var values: seq<nat> := [];
    for i := 0 to |text|
      invariant Values(text[..i]) == Ok(values)
    {
      var ch := text[i];
      assert text[..i + 1][..i] == text[..i];
      if !IsSeparator(ch) {
        var v := DecodeChar(ch);
        if v.None? {
          FirstErrorStays(text, i + 1);
          return Err(InvalidCharacter(ch));
        }
        values := values + [v.value];
      }
    }
    assert text[..|text|] == text;
    return Ok(values);
  }

  lemma BytesStay(x: byte, b: bool, at: nat)
    requires at < 8
    ensures Or(x, Mask(b, at)) < 256
  {
    Pow2Of5();
    SmallerPower(at, 8);
    OrFits(x, Mask(b, at), 8);
  }

  lemma NothingPlaced(count: nat)
    ensures PackTo([], 8, count) == seq(count, _ => 0)
  {
    forall k: nat | k < count
      ensures Group([], 8, k) == 0
    {
      FromBitsZeros([], GroupBits([], 8, k));
      assert [] + GroupBits([], 8, k) == GroupBits([], 8, k);
    }
  }

  method DecodeBits(text: string, bits: nat) returns (r: Result<Bytes, CrockfordError>)
    ensures r == Decoded(text, bits)
  {
    var expected := CeilDiv(bits, 5);
    var read := ReadValues(text);
    if read.Err? {
      return Err(read.error);
    }
    var values := read.value;
    if |values| != expected {
      return Err(Length(|values|));
    }
    var bytes := Assemble(values, bits);
    r := Ok(bytes);
  }

  /** The assembly loop of `decode_bits`: every bit is or-ed into its octet. */
  method Assemble(values: seq<nat>, bits: nat) returns (r: Bytes)
    requires |values| == CeilDiv(bits, 5)
    ensures r == Octets(values, bits)
  {
    hide Or, Mask, Bit, Pow2, Group, CeilDiv, PackTo;
    var count := CeilDiv(bits, 8);
    CeilCovers(bits, 5);
    CeilCovers(bits, 8);
    ghost var flat := Unpack(values, 5)[..bits];
    var bytes := new byte[count](_ => 0);
    NothingPlaced(count);
    ghost var placed := 0;
    assert flat[..placed] == [];
    for index := 0 to |values|
      invariant placed == (if 5 * index <= bits then 5 * index else bits)
      invariant bytes[..] == PackTo(flat[..placed], 8, count)
    {
      for offset := 0 to 5
        invariant placed == 5 * index + offset <= bits
        invariant bytes[..] == PackTo(flat[..placed], 8, count)
      {
        var bitIndex := index * 5 + offset;
        if bitIndex >= bits {
          break;
        }
        var bit := Bit(values[index], 4 - offset);
        FlatBit(values, index, offset);
        Place(flat, bitIndex, count);
        BytesStay(bytes[bitIndex / 8], bit, 7 - bitIndex % 8);
        bytes[bitIndex / 8] := Or(bytes[bitIndex / 8], Mask(bit, 7 - bitIndex % 8));
        placed := placed + 1;
      }
    }
    assert flat[..placed] == flat;
    r := bytes[..];
  }

  lemma FlatBit(values: seq<nat>, index: nat, offset: nat)
    requires index < |values| && offset < 5
    ensures Unpack(values, 5)[index * 5 + offset] == Bit(values[index], 4 - offset)
  {
    hide Bit;
  }

  lemma Place(flat: seq<bool>, i: nat, count: nat)
    requires i < |flat| <= 8 * count
    ensures i / 8 < count
    ensures PackTo(flat[..i + 1], 8, count) == OrAt(PackTo(flat[..i], 8, count), i / 8, Mask(flat[i], 7 - i % 8))
  {
    PackOneMore(flat[..i], flat[i], 8, count);
    assert flat[..i + 1] == flat[..i] + [flat[i]];
  }

  // ---------- what decoding sees ----------

  /** The significant characters, upper-cased and with the confusables folded. */
  function Folded(text: string): string {
    if text == "" then ""
    else Folded(text[..|text| - 1]) + if IsSeparator(text[|text| - 1]) then "" else [Fold(text[|text| - 1])]
  }

  lemma {:induction false} FoldedJoins(a: string, b: string)
    ensures Folded(a + b) == Folded(a) + Folded(b)
    decreases |b|
  {
    if b == "" {
      assert a + b == a;
    } else {
      assert (a + b)[..|a + b| - 1] == a + b[..|b| - 1];
      FoldedJoins(a, b[..|b| - 1]);
    }
  }

  /** Inserting a hyphen or whitespace anywhere changes nothing. */
  lemma SeparatorsIgnored(a: string, c: char, b: string)
    requires IsSeparator(c)
    ensures Folded(a + [c] + b) == Folded(a + b)
  {
    FoldedJoins(a + [c], b);
    FoldedJoins(a, [c]);
    FoldedJoins(a, b);
    assert [c][..0] == "";
  }

  /** Replacing a character by one that folds alike changes nothing. */
  lemma AlikeIgnored(a: string, c: char, d: char, b: string)
    requires Fold(c) == Fold(d) && !IsSeparator(c) && !IsSeparator(d)
    ensures Folded(a + [c] + b) == Folded(a + [d] + b)
  {
    FoldedJoins(a + [c], b);
    FoldedJoins(a, [c]);
    FoldedJoins(a + [d], b);
    FoldedJoins(a, [d]);
    assert [c][..0] == "" && [d][..0] == "";
  }

  /** `O` reads as `0`, `I` and `L` as `1`, in either case; `U` reads as nothing. */
  lemma Confusables()
    ensures Fold('o') == Fold('O') == Fold('0') == '0'
    ensures Fold('i') == Fold('I') == Fold('l') == Fold('L') == Fold('1') == '1'
    ensures DecodeChar('u') == DecodeChar('U') == None
  {
    forall v: nat | v < 32
      ensures ALPHABET[v] != 'U'
    {
      LetterOrder(v, 26);
      LetterOrder(v, 27);
    }
  }

  lemma LetterOrder(v: nat, w: nat)
    requires v < 32 && w < 32
    ensures v < w ==> Letter(v) < Letter(w)
    ensures v > w ==> Letter(v) > Letter(w)
  {
    if v < w {
      AlphabetOrdered(v, w);
    } else if v > w {
      AlphabetOrdered(w, v);
    }
  }

  lemma CaseIgnored(c: char)
    requires 'a' <= c <= 'z'
    ensures Fold(c) == Fold(c - 'a' + 'A')
  {
  }

  lemma LetterFolds(c: char, v: nat)
    requires v < 32
    ensures DecodeChar(c) == Some(v) <==> Fold(c) == Letter(v)
  {
    LetterReads(v);
    AlphabetIsFolded(v);
  }

  /** The values read are exactly those whose letters the folded text spells. */
  lemma {:induction false} ValuesSpellFolded(text: string, values: seq<nat>)
    requires Narrow(values, 5)
    ensures Values(text) == Ok(values) <==> Folded(text) == Letters(values)
    decreases |text|
  {
    Pow2Of5();
    hide DecodeChar, Fold, Letter, IsSeparator, Pow2;
    if text != "" {
      var front, c := text[..|text| - 1], text[|text| - 1];
      if IsSeparator(c) {
        ValuesSpellFolded(front, values);
      } else if values != [] {
        var init, v := values[..|values| - 1], values[|values| - 1];
        ValuesSpellFolded(front, init);
        LetterFolds(c, v);
        assert values == init + [v];
        LastLetter(init, v);
        if Folded(text) == Letters(values) {
          assert Folded(text)[..|values| - 1] == Folded(front);
          assert Letters(values)[..|values| - 1] == Letters(init);
        }
      }
    }
  }

  lemma LastLetter(init: seq<nat>, v: nat)
    requires Narrow(init + [v], 5)
    ensures Narrow(init, 5) && v < 32 && Letters(init + [v]) == Letters(init) + [Letter(v)]
  {
    Pow2Of5();
    var whole := init + [v];
    assert whole[|init|] == v;
    assert forall k | 0 <= k < |init| :: init[k] == whole[k];
  }

  predicate AllLetters(s: string) { forall k | 0 <= k < |s| :: s[k] in ALPHABET }

  lemma AllLettersPush(s: string, c: char)
    ensures AllLetters(s + [c]) <==> AllLetters(s) && c in ALPHABET
  {
    var whole := s + [c];
    assert whole[|s|] == c;
    assert forall k | 0 <= k < |s| :: s[k] == whole[k];
  }

  /** Text has values exactly when everything in it that counts is a letter of the alphabet. */
  lemma {:induction false} ValuesAreFolded(text: string)
    ensures Values(text).Ok? <==> AllLetters(Folded(text))
    ensures Values(text).Ok? ==> |Values(text).value| == |Folded(text)|
  {
    hide Fold, IsSeparator, AllLetters;
    if text != "" {
      var front, c := text[..|text| - 1], text[|text| - 1];
      ValuesAreFolded(front);
      AllLettersPush(Folded(front), Fold(c));
      assert Folded(front) + "" == Folded(front);
    } else {
      NothingIsLetters();
    }
  }

  lemma NothingIsLetters()
    ensures AllLetters("")
  {
  }

  /** Two texts that fold alike decode alike, but for the character an error names. */
  lemma DecodingFolds(t: string, u: string, bits: nat)
    requires Folded(t) == Folded(u)
    ensures Decoded(t, bits) == Decoded(u, bits)
         || (Decoded(t, bits).Err? && Decoded(t, bits).error.InvalidCharacter?
             && Decoded(u, bits).Err? && Decoded(u, bits).error.InvalidCharacter?)
  {
    ValuesAreFolded(t);
    ValuesAreFolded(u);
    hide Folded, DecodeChar, Octets;
    if Values(t).Ok? {
      ValuesSpellFolded(t, Values(t).value);
      ValuesSpellFolded(u, Values(t).value);
    } else {
      ErrorsNameCharacters(t);
      ErrorsNameCharacters(u);
    }
  }

  lemma {:induction false} ErrorsNameCharacters(text: string)
    ensures Values(text).Err? ==> Values(text).error.InvalidCharacter?
  {
    if text != "" {
      ErrorsNameCharacters(text[..|text| - 1]);
    }
  }

  // ---------- the round trip ----------

  /** The octets hold `bits` bits and are zero after them. */
  predicate Padded(bytes: Bytes, bits: nat) { |bytes| == CeilDiv(bits, 8) && ZeroFrom(bytes, 8, bits) }

  lemma LettersFold(values: seq<nat>)
    requires Narrow(values, 5)
    ensures Folded(Letters(values)) == Letters(values)
    decreases |values|
  {
    if values != [] {
      var init, v := values[..|values| - 1], values[|values| - 1];
      assert values == init + [v];
      LastLetter(init, v);
      LettersFold(init);
      AlphabetIsFolded(v);
      var s := Letters(values);
      assert s[..|s| - 1] == Letters(init);
      hide Letters, Fold, IsSeparator, Letter;
    }
  }

  /** Values hold these bits exactly when their octets do. */
  lemma OctetsOfBits(bits: seq<bool>)
    ensures Octets(Pack(bits, 5), |bits|) == Pack(bits, 8)
  {
    UnpackPack(bits, 5);
    hide Pack, Unpack;
  }

  /**
   * For every number of bits: decoding what was encoded gives the first `bits` bits back, and
   * zeros after them up to a whole octet.
   */
  lemma RoundTrip(bytes: Bytes, bits: nat)
    requires bits <= 8 * |bytes|
    ensures Decoded(Encoded(bytes, bits), bits).Ok?
    ensures var r := Decoded(Encoded(bytes, bits), bits).value;
            && |r| == CeilDiv(bits, 8)
            && forall i: nat | i < 8 * |r| :: WordBit(r, 8, i) == (i < bits && WordBit(bytes, 8, i))
  {
    var all := BitsOf(bytes)[..bits];
    PackNarrow(all, 5, CeilDiv(bits, 5));
    LettersFold(Pack(all, 5));
    ValuesSpellFolded(Encoded(bytes, bits), Pack(all, 5));
    OctetsOfBits(all);
    var r := Decoded(Encoded(bytes, bits), bits).value;
    forall i: nat | i < 8 * |r|
      ensures WordBit(r, 8, i) == (i < bits && WordBit(bytes, 8, i))
    {
      PackedBit(all, 8, CeilDiv(bits, 8), i);
      hide WordBit, Values, Folded;
    }
  }

  // ---------- which texts spell which octets ----------

  lemma OctetsNarrow(bytes: Bytes)
    ensures Narrow(bytes, 8)
  {
    Pow2Of5();
  }

  /** The octets that values decode to are the padded ones with the same leading bits. */
  lemma OctetsExactly(values: seq<nat>, bits: nat, bytes: Bytes)
    requires |values| == CeilDiv(bits, 5)
    ensures bits <= 5 * |values|
    ensures Octets(values, bits) == bytes
       <==> Padded(bytes, bits) && bits <= 8 * |bytes| && BitsOf(bytes)[..bits] == Unpack(values, 5)[..bits]
  {
    CeilCovers(bits, 5);
    CeilCovers(bits, 8);
    var flat := Unpack(values, 5)[..bits];
    UnpackPack(flat, 8);
    PackedTail(flat, 8);
    if Padded(bytes, bits) && BitsOf(bytes)[..bits] == flat {
      OctetsNarrow(bytes);
      PackOfPrefix(bytes, 8, bits);
    }
    hide Pack, Unpack, CeilDiv, ZeroFrom;
  }

  /** The values of the letters that octets are encoded with. */
  function OwnValues(bytes: Bytes, bits: nat): (values: seq<nat>)
    requires bits <= 8 * |bytes|
    ensures Narrow(values, 5) && |values| == CeilDiv(bits, 5) && Encoded(bytes, bits) == Letters(values)
  {
    PackNarrow(BitsOf(bytes)[..bits], 5, CeilDiv(bits, 5));
    Pack(BitsOf(bytes)[..bits], 5)
  }

  lemma OwnValuesDecode(bytes: Bytes, bits: nat)
    requires Padded(bytes, bits) && bits <= 8 * |bytes|
    ensures bits <= 5 * |OwnValues(bytes, bits)|
    ensures Octets(OwnValues(bytes, bits), bits) == bytes && ZeroFrom(OwnValues(bytes, bits), 5, bits)
    ensures Unpack(OwnValues(bytes, bits), 5)[..bits] == BitsOf(bytes)[..bits]
  {
    hide Pack, Unpack, Octets, Padded, ZeroFrom, BitsOf, Encoded;
    UnpackPack(BitsOf(bytes)[..bits], 5);
    PackedTail(BitsOf(bytes)[..bits], 5);
    OctetsExactly(OwnValues(bytes, bits), bits, bytes);
  }

  /** Values that end in zeros and decode to `bytes` are the ones it is encoded with. */
  lemma ValuesUnique(values: seq<nat>, bits: nat, bytes: Bytes)
    requires Narrow(values, 5) && |values| == CeilDiv(bits, 5) && ZeroFrom(values, 5, bits)
    requires Octets(values, bits) == bytes && bits <= 8 * |bytes|
    ensures values == OwnValues(bytes, bits)
  {
    hide Pack, Unpack, Octets, Padded, ZeroFrom, BitsOf, Encoded, Narrow, Letters;
    CeilCovers(bits, 5);
    OctetsExactly(values, bits, bytes);
    PackOfPrefix(values, 5, bits);
  }

  /** With whole characters, exactly one folded spelling decodes to given octets. */
  lemma OneSpelling(text: string, bits: nat, bytes: Bytes)
    requires bits % 5 == 0 && Padded(bytes, bits) && bits <= 8 * |bytes|
    ensures Decoded(text, bits) == Ok(bytes) <==> Folded(text) == Encoded(bytes, bits)
  {
    hide Pack, Unpack, Octets, Values, Folded, BitsOf, Padded, Encoded, Letters, Narrow, OwnValues;
    var own := OwnValues(bytes, bits);
    ValuesSpellFolded(text, own);
    OwnValuesDecode(bytes, bits);
    if Decoded(text, bits) == Ok(bytes) {
      CeilCovers(bits, 5);
      ValuesUnique(Values(text).value, bits, bytes);
    }
  }

  /** Values with the one padding bit of the last of them cleared. */
  function Cleared(values: seq<nat>): (c: seq<nat>)
    requires values != []
    ensures |c| == |values|
  {
    var last := |values| - 1;
    values[last := values[last] - values[last] % 2]
  }

  lemma ClearedBit(values: seq<nat>, i: nat)
    requires values != [] && i < 5 * |values|
    ensures WordBit(Cleared(values), 5, i) == (WordBit(values, 5, i) && i != 5 * |values| - 1)
  {
    var last := |values| - 1;
    var x := values[last];
    assert (x - x % 2) / 2 == x / 2 && (x - x % 2) % 2 == 0;
    if i / 5 == last {
      assert i == 5 * last + i % 5;
    }
  }

  /** A padding bit is neither read nor kept. */
  lemma ClearedDecodes(values: seq<nat>, bits: nat)
    requires values != [] && |values| == CeilDiv(bits, 5) && 5 * |values| == bits + 1 && Narrow(values, 5)
    ensures Octets(Cleared(values), bits) == Octets(values, bits)
    ensures ZeroFrom(Cleared(values), 5, bits) && Narrow(Cleared(values), 5)
  {
    hide WordBit, Pow2, Pack;
    forall i: nat | i < 5 * |values|
      ensures WordBit(Cleared(values), 5, i) == (WordBit(values, 5, i) && i != bits)
    {
      ClearedBit(values, i);
    }
    assert Unpack(Cleared(values), 5)[..bits] == Unpack(values, 5)[..bits];
  }

  /** The text whose last letter has the padding bit set. */
  function OtherSpelling(s: string): string
    requires s != ""
  {
    match DecodeChar(s[|s| - 1])
    case Some(v) => if v < 31 then s[..|s| - 1] + [Letter(v + 1)] else s
    case None => s
  }

  function Twin(values: seq<nat>): (t: seq<nat>)
    requires values != []
    ensures |t| == |values|
  {
    values[|values| - 1 := values[|values| - 1] + 1]
  }

  lemma TwinSpelling(own: seq<nat>)
    requires own != [] && Narrow(own, 5) && own[|own| - 1] % 2 == 0
    ensures Narrow(Twin(own), 5) && Letters(Twin(own)) == OtherSpelling(Letters(own))
  {
    Pow2Of5();
    var last := |own| - 1;
    LetterReads(own[last]);
    hide DecodeChar, Letter, Pow2;
    var e := Letters(own);
    assert e[last] == Letter(own[last]);
    assert forall k | 0 <= k < |own| :: k != last ==> Twin(own)[k] == own[k];
    assert Letters(Twin(own))[..last] == e[..last];
  }

  lemma LastIsEven(own: seq<nat>, bits: nat)
    requires own != [] && 5 * |own| == bits + 1 && ZeroFrom(own, 5, bits)
    ensures own[|own| - 1] % 2 == 0
  {
    assert bits / 5 == |own| - 1 && bits % 5 == 4;
    assert !WordBit(own, 5, bits);
  }

  lemma ClearedOrTwin(values: seq<nat>, own: seq<nat>)
    requires values != [] && |own| == |values| && own[|own| - 1] % 2 == 0
    ensures Cleared(values) == own <==> values == own || values == Twin(own)
  {
    var last := |values| - 1;
    if Cleared(values) == own {
      assert forall k | 0 <= k < last :: values[k] == own[k];
      assert values[last] == own[last] || values[last] == own[last] + 1;
      if values[last] == own[last] {
        assert values == own;
      } else {
        assert values == Twin(own);
      }
    }
  }

  /** With one padding bit, the two spellings that differ in it and no others decode to given octets. */
  lemma TwoSpellings(text: string, bits: nat, bytes: Bytes)
    requires bits % 5 == 4 && Padded(bytes, bits) && bits <= 8 * |bytes|
    ensures Encoded(bytes, bits) != ""
    ensures Decoded(text, bits) == Ok(bytes)
       <==> Folded(text) == Encoded(bytes, bits) || Folded(text) == OtherSpelling(Encoded(bytes, bits))
  {
    hide Pack, Unpack, Octets, Values, Folded, BitsOf, Padded, Encoded, Letters, Narrow, OwnValues, ZeroFrom, Twin, Cleared,
      OtherSpelling;
    var own := OwnValues(bytes, bits);
    OwnValuesDecode(bytes, bits);
    LastIsEven(own, bits);
    TwinSpelling(own);
    ValuesSpellFolded(text, own);
    ValuesSpellFolded(text, Twin(own));
    if Values(text) == Ok(Twin(own)) {
      ClearedOrTwin(Twin(own), own);
      ClearedDecodes(Twin(own), bits);
    }
    if Decoded(text, bits) == Ok(bytes) {
      var values := Values(text).value;
      ClearedDecodes(values, bits);
      ValuesUnique(Cleared(values), bits, bytes);
      ClearedOrTwin(values, own);
    }
  }

  // ---------- display groups ----------

  /** A hyphen before every fourth character but the first. */
  function Grouped(raw: string): string {
    if raw == "" then ""
    else
      var last := |raw| - 1;
      Grouped(raw[..last]) + (if last > 0 && last % GROUP == 0 then "-" else "") + [raw[last]]
  }

  method GroupText(raw: string) returns (out: string)
    ensures out == Grouped(raw)
  {
    out := "";
    for index := 0 to |raw|
      invariant out == Grouped(raw[..index])
    {
      assert raw[..index + 1][..index] == raw[..index];
      if index > 0 && index % GROUP == 0 {
        out := out + "-";
      }
      out := out + [raw[index]];
    }
    assert raw[..|raw|] == raw;
  }

  lemma {:induction false} GroupedLength(raw: string)
    requires raw != ""
    ensures |Grouped(raw)| == |raw| + (|raw| - 1) / 4
  {
    var last := |raw| - 1;
    if last > 0 {
      GroupedLength(raw[..last]);
    }
  }

  /** Where every character of the display stands: groups of four between hyphens. */
  lemma {:induction false} GroupedShape(raw: string, j: nat)
    requires raw != "" && j < |raw| + (|raw| - 1) / 4
    ensures |Grouped(raw)| == |raw| + (|raw| - 1) / 4
    ensures Grouped(raw)[j] == if j % 5 == 4 then '-' else raw[j - j / 5]
    decreases |raw|
  {
    GroupedLength(raw);
    var last := |raw| - 1;
    if last > 0 {
      GroupedLength(raw[..last]);
      if j < |Grouped(raw[..last])| {
        GroupedShape(raw[..last], j);
        hide Grouped;
      }
    }
  }

  lemma {:induction false} GroupedFolds(raw: string)
    ensures Folded(Grouped(raw)) == Folded(raw)
  {
    hide Fold;
    if raw != "" {
      var last := |raw| - 1;
      var front, c := Grouped(raw[..last]), raw[last];
      GroupedFolds(raw[..last]);
      FoldedJoins(front, [c]);
      SeparatorsIgnored(front, '-', [c]);
      FoldedJoins(raw[..last], [c]);
      assert raw == raw[..last] + [c] && front + "-" == front + ['-'] && front + "" == front;
    }
  }
}
