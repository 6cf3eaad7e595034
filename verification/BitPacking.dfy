/** Bit strings packed into words of a fixed width, most significant bit first. */
module BitPacking {
  import opened Words

  function CeilDiv(n: nat, w: nat): nat
    requires w > 0
  {
    (n + w - 1) / w
  }

  function FromBits(bits: seq<bool>): nat {
    if bits == [] then 0 else 2 * FromBits(bits[..|bits| - 1]) + if bits[|bits| - 1] then 1 else 0
  }

  /** A bit of `bits`, and zero past its end. */
  predicate BitOrZero(bits: seq<bool>, i: nat) { i < |bits| && bits[i] }

  function GroupBits(bits: seq<bool>, w: nat, k: nat): (g: seq<bool>)
    ensures |g| == w && forall o | 0 <= o < w :: g[o] == BitOrZero(bits, w * k + o)
  {
    seq(w, o requires 0 <= o < w => BitOrZero(bits, w * k + o))
  }

  /** The `k`-th word of `bits`. */
  function Group(bits: seq<bool>, w: nat, k: nat): nat { FromBits(GroupBits(bits, w, k)) }

  /** The first `count` words of `bits`, which is taken to go on with zeros. */
  function PackTo(bits: seq<bool>, w: nat, count: nat): (p: seq<nat>)
    ensures |p| == count && forall k | 0 <= k < count :: p[k] == Group(bits, w, k)
  {
    seq(count, k requires 0 <= k < count => Group(bits, w, k))
  }

  function Pack(bits: seq<bool>, w: nat): seq<nat>
    requires w > 0
  {
    PackTo(bits, w, CeilDiv(|bits|, w))
  }

  predicate WordBit(words: seq<nat>, w: nat, i: nat)
    requires w > 0
  {
    i / w < |words| && Bit(words[i / w], w - 1 - i % w)
  }

  function Unpack(words: seq<nat>, w: nat): (bits: seq<bool>)
    requires w > 0
    ensures |bits| == w * |words| && forall i | 0 <= i < w * |words| :: bits[i] == WordBit(words, w, i)
  {
    seq(w * |words|, i requires 0 <= i < w * |words| => WordBit(words, w, i))
  }

  predicate Narrow(words: seq<nat>, w: nat) { forall k | 0 <= k < |words| :: words[k] < Pow2(w) }

  // ---------- numbers and their bits ----------

  lemma {:induction false} FromBitsFits(bits: seq<bool>)
    ensures FromBits(bits) < Pow2(|bits|)
  {
    if bits != [] {
      FromBitsFits(bits[..|bits| - 1]);
    }
  }

  lemma {:induction false} FromBitsBit(bits: seq<bool>, i: nat)
    requires i < |bits|
    ensures Bit(FromBits(bits), |bits| - 1 - i) == bits[i]
    decreases |bits|
  {
    var front := bits[..|bits| - 1];
    assert FromBits(bits) / 2 == FromBits(front);
    if i < |front| {
      FromBitsBit(front, i);
    }
  }

  predicate SameBits(x: nat, y: nat, w: nat) { forall i: nat | i < w :: Bit(x, i) == Bit(y, i) }

  /** A number of `w` bits is known by its bits. */
  lemma {:induction false} KnownByBits(x: nat, y: nat, w: nat)
    requires x < Pow2(w) && y < Pow2(w) && SameBits(x, y, w)
    ensures x == y
    decreases w
  {
    if w > 0 {
      assert Bit(x, 0) == Bit(y, 0);
      forall i: nat | i < w - 1
        ensures Bit(x / 2, i) == Bit(y / 2, i)
      {
        assert Bit(x, i + 1) == Bit(y, i + 1);
      }
      KnownByBits(x / 2, y / 2, w - 1);
    }
  }

  lemma GroupBit(bits: seq<bool>, w: nat, k: nat, i: nat)
    requires i < w
    ensures Group(bits, w, k) < Pow2(w)
    ensures Bit(Group(bits, w, k), i) == BitOrZero(bits, w * k + (w - 1 - i))
  {
    FromBitsFits(GroupBits(bits, w, k));
    FromBitsBit(GroupBits(bits, w, k), w - 1 - i);
  }

  // ---------- packing and unpacking ----------

  lemma Position(w: nat, i: nat)
    requires w > 0
    ensures i == w * (i / w) + i % w && i % w < w
  {
  }

  lemma PositionOf(w: nat, k: nat, o: nat)
    requires o < w
    ensures (w * k + o) / w == k && (w * k + o) % w == o
  {
    var gap: int := (w * k + o) / w - k;
    assert w * gap == o - (w * k + o) % w;
    assert gap >= 1 ==> w * gap >= w;
    assert gap <= -1 ==> w * gap + w <= 0;
  }

  lemma InsideWords(w: nat, i: nat, count: nat)
    requires w > 0 && i < w * count
    ensures i / w < count
  {
    var gap: int := count - i / w;
    assert w * gap == w * count - w * (i / w);
    assert gap <= 0 ==> w * gap <= 0;
  }

  lemma CeilCovers(n: nat, w: nat)
    requires w > 0
    ensures n <= w * CeilDiv(n, w) < n + w
  {
    Position(w, n + w - 1);
  }

  /** A bit of a packed string is the bit that went in, or zero past the end. */
  lemma PackedBit(bits: seq<bool>, w: nat, count: nat, i: nat)
    requires w > 0 && i < w * count
    ensures WordBit(PackTo(bits, w, count), w, i) == BitOrZero(bits, i)
  {
    InsideWords(w, i, count);
    Position(w, i);
    GroupBit(bits, w, i / w, w - 1 - i % w);
    hide Group, Bit;
  }

  lemma UnpackPack(bits: seq<bool>, w: nat)
    requires w > 0
    ensures |bits| <= w * |Pack(bits, w)| && Unpack(Pack(bits, w), w)[..|bits|] == bits
  {
    CeilCovers(|bits|, w);
    var whole := Unpack(Pack(bits, w), w);
    forall i | 0 <= i < |bits|
      ensures whole[i] == bits[i]
    {
      PackedBit(bits, w, CeilDiv(|bits|, w), i);
    }
  }

  lemma PackNarrow(bits: seq<bool>, w: nat, count: nat)
    ensures Narrow(PackTo(bits, w, count), w)
  {
    forall k | 0 <= k < count
      ensures Group(bits, w, k) < Pow2(w)
    {
      FromBitsFits(GroupBits(bits, w, k));
    }
  }

  lemma BitOfWord(words: seq<nat>, w: nat, k: nat, i: nat)
    requires i < w && k < |words|
    ensures BitOrZero(Unpack(words, w), w * k + (w - 1 - i)) == Bit(words[k], i)
  {
    PositionOf(w, k, w - 1 - i);
    GroupWithin(words, w, k);
    hide Bit;
  }

  /** A word is the group of the string it belongs to. */
  lemma GroupOfWord(words: seq<nat>, w: nat, k: nat)
    requires w > 0 && k < |words| && words[k] < Pow2(w)
    ensures Group(Unpack(words, w), w, k) == words[k]
  {
    hide Group, Bit, Pow2, BitOrZero;
    var bits := Unpack(words, w);
    GroupBit(bits, w, k, 0);
    forall i: nat | i < w
      ensures Bit(Group(bits, w, k), i) == Bit(words[k], i)
    {
      GroupBit(bits, w, k, i);
      BitOfWord(words, w, k, i);
    }
    KnownByBits(Group(bits, w, k), words[k], w);
  }

  predicate ZeroFrom(words: seq<nat>, w: nat, n: nat)
    requires w > 0
  {
    forall i: nat | n <= i < w * |words| :: !WordBit(words, w, i)
  }

  /** Words that hold `n` bits and then zeros are the packing of those bits. */
  lemma PackOfPrefix(words: seq<nat>, w: nat, n: nat)
    requires w > 0 && Narrow(words, w) && n <= w * |words| && |words| == CeilDiv(n, w) && ZeroFrom(words, w, n)
    ensures Pack(Unpack(words, w)[..n], w) == words
  {
    hide WordBit, Pow2;
    var bits := Unpack(words, w);
    forall k: nat | k < |words|
      ensures Group(bits[..n], w, k) == words[k]
    {
      GroupWithin(words, w, k);
      assert GroupBits(bits[..n], w, k) == GroupBits(bits, w, k);
      GroupOfWord(words, w, k);
    }
  }

  /** Packing ends in zeros. */
  lemma PackedTail(bits: seq<bool>, w: nat)
    requires w > 0
    ensures ZeroFrom(Pack(bits, w), w, |bits|)
  {
    hide WordBit;
    forall i: nat | |bits| <= i < w * |Pack(bits, w)|
      ensures !WordBit(Pack(bits, w), w, i)
    {
      PackedBit(bits, w, CeilDiv(|bits|, w), i);
    }
  }

  lemma GroupWithin(words: seq<nat>, w: nat, k: nat)
    requires w > 0 && k < |words|
    ensures w * k + w <= w * |words|
  {
    assert w * (k + 1) <= w * |words|;
  }

  function OrAt(words: seq<nat>, j: nat, mask: nat): seq<nat>
    requires j < |words|
  {
    words[j := Or(words[j], mask)]
  }

  function Mask(b: bool, at: nat): nat { if b then Pow2(at) else 0 }

  /** One more bit changes one word, by an or of that bit in its place. */
  lemma PackOneMore(bits: seq<bool>, b: bool, w: nat, count: nat)
    requires w > 0 && |bits| < w * count
    ensures |bits| / w < count
    ensures PackTo(bits + [b], w, count) == OrAt(PackTo(bits, w, count), |bits| / w, Mask(b, w - 1 - |bits| % w))
  {
    hide Group, Or, Pow2, Mask;
    InsideWords(w, |bits|, count);
    var j := |bits| / w;
    GroupOneMore(bits, b, w);
    forall k: nat | k < count && k != j
      ensures Group(bits + [b], w, k) == Group(bits, w, k)
    {
      OtherGroup(bits, b, w, k);
    }
  }

  lemma OtherGroup(bits: seq<bool>, b: bool, w: nat, k: nat)
    requires w > 0 && k != |bits| / w
    ensures Group(bits + [b], w, k) == Group(bits, w, k)
  {
    forall i: nat | w * k <= i < w * k + w
      ensures BitOrZero(bits + [b], i) == BitOrZero(bits, i)
    {
      PositionOf(w, k, i - w * k);
    }
    assert GroupBits(bits + [b], w, k) == GroupBits(bits, w, k);
  }

  lemma GroupOneMore(bits: seq<bool>, b: bool, w: nat)
    requires w > 0
    ensures var j, at := |bits| / w, w - 1 - |bits| % w;
            Group(bits + [b], w, j) == Or(Group(bits, w, j), Mask(b, at))
  {
    var j, at := |bits| / w, w - 1 - |bits| % w;
    var mask := Mask(b, at);
    var x, y := Group(bits + [b], w, j), Group(bits, w, j);
    GroupBit(bits + [b], w, j, 0);
    GroupBit(bits, w, j, 0);
    SmallerPower(at, w);
    OrFits(y, mask, w);
    forall i: nat | i < w
      ensures Bit(x, i) == Bit(Or(y, mask), i)
    {
      GroupBit(bits + [b], w, j, i);
      GroupBit(bits, w, j, i);
      OrBit(y, mask, i);
      PowerBit(at, i);
      ZeroBit(i);
      Position(w, |bits|);
      OneMoreBit(bits, b, w * j + (w - 1 - i));
      hide Bit, Or, Group, Pow2;
    }
    hide Bit, Or, Group, Pow2;
    KnownByBits(x, Or(y, mask), w);
  }

  lemma OneMoreBit(bits: seq<bool>, b: bool, i: nat)
    ensures BitOrZero(bits + [b], i) == (BitOrZero(bits, i) || (i == |bits| && b))
  {
  }
}
