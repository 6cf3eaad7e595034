/** The host key: a whole pairing in one pasted string. */
module HostKeys {
  import opened Bytes
  import opened Crockford
  import Headers
  import PairKeys
  import opened Text
  import opened Wrappers

  const PREFIX: string := "HK1-"
  const KEY_VERSION: byte := 1
  const BODY_LEN: nat := 51
  const RAW_LEN: nat := 53
  const RAW_BITS: nat := 424

  datatype HostKeyError = Prefix | Length(got: nat) | InvalidCharacter(c: char) | Checksum | Version(v: nat)

  datatype HostKey = HostKey(client: Headers.NodeId, host: Headers.NodeId, pairKey: Bytes, port: nat)

  predicate Representable(k: HostKey) {
    |k.client| == Headers.NODE_ID_LEN && |k.host| == Headers.NODE_ID_LEN && |k.pairKey| == PairKeys.KEY_LEN && k.port < 0x1_0000
  }

  function FromCrockford(e: CrockfordError): HostKeyError {
    match e
    case Length(got) => HostKeyError.Length(got)
    case InvalidCharacter(c) => HostKeyError.InvalidCharacter(c)
  }

  function ChecksumOf(digest: PairKeys.Digest, body: Bytes): Bytes { [digest(body).0, digest(body).1] }

  function Body(k: HostKey): Bytes
    requires Representable(k)
  {
    [KEY_VERSION] + k.client + k.host + k.pairKey + [k.port / 256, k.port % 256]
  }

  function Raw(digest: PairKeys.Digest, k: HostKey): (raw: Bytes)
    requires Representable(k)
    ensures |raw| == RAW_LEN
  {
    Body(k) + ChecksumOf(digest, Body(k))
  }

  function Compact(digest: PairKeys.Digest, k: HostKey): string
    requires Representable(k)
  {
    Encoded(Raw(digest, k), RAW_BITS)
  }

  function Display(digest: PairKeys.Digest, k: HostKey): string
    requires Representable(k)
  {
    PREFIX + Grouped(Compact(digest, k))
  }

  /** `eq_ignore_ascii_case`. */
  predicate EqIgnoreCase(a: string, b: string) {
    |a| == |b| && forall i | 0 <= i < |a| :: Upper(a[i]) == Upper(b[i])
  }

  predicate LooksLike(text: string) {
    var trimmed := Trim(text);
    |trimmed| > |PREFIX| && EqIgnoreCase(trimmed[..|PREFIX|], PREFIX)
  }

  lemma TrimTwice(text: string)
    ensures Trim(Trim(text)) == Trim(text)
    decreases |text|
  {
  }

  function KeyOf(raw: Bytes): (k: HostKey)
    requires |raw| == RAW_LEN
    ensures Representable(k)
  {
    var high: nat, low: nat := raw[49], raw[50];
    HostKey(raw[1..17], raw[17..33], raw[33..49], 256 * high + low)
  }

  function DecodeKey(digest: PairKeys.Digest, text: string): (r: Result<HostKey, HostKeyError>)
    ensures r.Ok? ==> Representable(r.value)
  {
    var trimmed := Trim(text);
    TrimTwice(text);
    if !LooksLike(trimmed) then Err(Prefix)
    else
      match Decoded(trimmed[|PREFIX|..], RAW_BITS)
      case Err(e) => Err(FromCrockford(e))
      case Ok(raw) =>
        if ChecksumOf(digest, raw[..BODY_LEN]) != raw[BODY_LEN..RAW_LEN] then Err(Checksum)
        else if raw[0] != KEY_VERSION then Err(Version(raw[0]))
        else Ok(KeyOf(raw))
  }

  method EncodeCompact(digest: PairKeys.Digest, k: HostKey) returns (text: string)
    requires Representable(k)
    ensures text == Compact(digest, k)
  {
    var raw := new byte[RAW_LEN](_ => 0);
    raw[0] := KEY_VERSION;
    forall i | 1 <= i < 17 {
      raw[i] := k.client[i - 1];
    }
    forall i | 17 <= i < 33 {
      raw[i] := k.host[i - 17];
    }
    forall i | 33 <= i < 49 {
      raw[i] := k.pairKey[i - 33];
    }
    raw[49], raw[50] := k.port / 256, k.port % 256;
    assert raw[..BODY_LEN] == Body(k);
    var sum := ChecksumOf(digest, raw[..BODY_LEN]);
    raw[51], raw[52] := sum[0], sum[1];
    assert raw[..] == raw[..BODY_LEN] + sum == Raw(digest, k);
    text := EncodeBits(raw[..], RAW_BITS);
  }

  method Decode(digest: PairKeys.Digest, text: string) returns (r: Result<HostKey, HostKeyError>)
    ensures r == DecodeKey(digest, text)
  {
    var trimmed := Trim(text);
    TrimTwice(text);
    if !LooksLike(trimmed) {
      return Err(Prefix);
    }
    var read := DecodeBits(trimmed[|PREFIX|..], RAW_BITS);
    if read.Err? {
      return Err(FromCrockford(read.error));
    }
    var raw := read.value;
    var expected := raw[BODY_LEN..RAW_LEN];
    if ChecksumOf(digest, raw[..BODY_LEN]) != expected {
      return Err(Checksum);
    }
    if raw[0] != KEY_VERSION {
      return Err(Version(raw[0]));
    }
    r := Ok(KeyOf(raw));
  }

  // ---------- which texts are a key ----------

  /** The 53 octets accepted for a key are exactly the ones it is written as. */
  lemma AcceptedRaw(digest: PairKeys.Digest, raw: Bytes, k: HostKey)
    requires |raw| == RAW_LEN && Representable(k)
    ensures raw == Raw(digest, k)
       <==> && ChecksumOf(digest, raw[..BODY_LEN]) == raw[BODY_LEN..RAW_LEN]
            && raw[0] == KEY_VERSION && KeyOf(raw) == k
  {
    BodyUnread(raw);
    KeyOfBody(digest, k);
    hide Body, ChecksumOf, KeyOf;
    assert raw == raw[..BODY_LEN] + raw[BODY_LEN..RAW_LEN];
  }

  lemma BodyUnread(raw: Bytes)
    requires |raw| == RAW_LEN
    ensures raw[0] == KEY_VERSION ==> Body(KeyOf(raw)) == raw[..BODY_LEN]
  {
    var high: nat, low: nat := raw[49], raw[50];
    assert (256 * high + low) / 256 == high && (256 * high + low) % 256 == low;
    assert raw[..BODY_LEN] == [raw[0]] + raw[1..17] + raw[17..33] + raw[33..49] + [raw[49], raw[50]];
  }

  lemma KeyOfBody(digest: PairKeys.Digest, k: HostKey)
    requires Representable(k)
    ensures var raw := Raw(digest, k);
            && raw[..BODY_LEN] == Body(k) && raw[BODY_LEN..RAW_LEN] == ChecksumOf(digest, Body(k))
            && raw[0] == KEY_VERSION && KeyOf(raw) == k
  {
    var raw := Raw(digest, k);
    assert raw[1..17] == k.client && raw[17..33] == k.host && raw[33..49] == k.pairKey;
    assert raw[49] == k.port / 256 && raw[50] == k.port % 256;
    hide ChecksumOf;
  }

  lemma RawIsPadded(raw: Bytes)
    requires |raw| == RAW_LEN
    ensures Padded(raw, RAW_BITS)
  {
  }

  /**
   * Over every text and every hash function: a text decodes to a host key exactly when it has
   * the prefix and, folded, spells that key's encoding. The 424 bits leave one padding bit in
   * the 85th character, which is not looked at, so that character has two spellings.
   */
  lemma DecodesExactly(digest: PairKeys.Digest, text: string, k: HostKey)
    requires Representable(k)
    ensures Compact(digest, k) != ""
    ensures DecodeKey(digest, text) == Ok(k)
       <==> && LooksLike(text)
            && var payload := Folded(Trim(text)[|PREFIX|..]);
               payload == Compact(digest, k) || payload == OtherSpelling(Compact(digest, k))
  {
    hide Padded, Encoded, Octets, Values, Folded, Trim, Raw, KeyOf, Body, ChecksumOf, OtherSpelling;
    TrimTwice(text);
    var own := Raw(digest, k);
    RawIsPadded(own);
    AcceptedRaw(digest, own, k);
    TwoSpellings("", RAW_BITS, own);
    if LooksLike(text) {
      var payload := Trim(text)[|PREFIX|..];
      TwoSpellings(payload, RAW_BITS, own);
      if DecodeKey(digest, text) == Ok(k) {
        AcceptedRaw(digest, Decoded(payload, RAW_BITS).value, k);
      }
    }
  }

  lemma DisplayIsTrimmed(digest: PairKeys.Digest, k: HostKey)
    requires Representable(k)
    ensures Trim(Display(digest, k)) == Display(digest, k)
    ensures |Display(digest, k)| > |PREFIX|
  {
    hide Grouped, Raw, Encoded;
    var values := OwnValues(Raw(digest, k), RAW_BITS);
    var raw := Compact(digest, k);
    GroupedLength(raw);
    LastOfGrouped(raw);
    AlphabetIsFolded(values[|values| - 1]);
    LettersAt(values, |values| - 1);
    Trimmed(Display(digest, k));
  }

  lemma LastOfGrouped(raw: string)
    requires raw != ""
    ensures Grouped(raw) != "" && Grouped(raw)[|Grouped(raw)| - 1] == raw[|raw| - 1]
  {
  }

  /** A key's own display form decodes to it. */
  lemma DisplayDecodes(digest: PairKeys.Digest, k: HostKey)
    requires Representable(k)
    ensures DecodeKey(digest, Display(digest, k)) == Ok(k)
  {
    hide DecodeKey, Folded, Grouped, Encoded, Trim, Raw;
    var text := Display(digest, k);
    DisplayIsTrimmed(digest, k);
    assert text[..|PREFIX|] == PREFIX && text[|PREFIX|..] == Grouped(Compact(digest, k));
    GroupedFolds(Compact(digest, k));
    LettersFold(OwnValues(Raw(digest, k), RAW_BITS));
    DecodesExactly(digest, text, k);
  }

  /** What each refusal says about the pasted text: a truncated paste is a wrong length. */
  lemma RefusalsExplained(digest: PairKeys.Digest, text: string)
    ensures DecodeKey(digest, text) == Err(Prefix) <==> !LooksLike(text)
    ensures LooksLike(text) ==>
              var r, folded := DecodeKey(digest, text), Folded(Trim(text)[|PREFIX|..]);
              && (r.Err? && r.error.InvalidCharacter? <==> !AllLetters(folded))
              && (forall got :: r == Err(HostKeyError.Length(got)) <==> AllLetters(folded) && |folded| == got != 85)
  {
    TrimTwice(text);
    if LooksLike(text) {
      ValuesAreFolded(Trim(text)[|PREFIX|..]);
      ErrorsNameCharacters(Trim(text)[|PREFIX|..]);
    }
    hide AllLetters, Folded, Values, ChecksumOf, Octets, Trim, KeyOf;
  }
}
