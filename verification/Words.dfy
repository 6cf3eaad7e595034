/** 64-bit words as numbers, with the program's shift, or and and defined bit by bit. */
module Words {
  import opened Bytes

  predicate Bit(x: nat, i: nat) {
    if i == 0 then x % 2 == 1 else Bit(x / 2, i - 1)
  }

  /** `x << n` on a `u64`: the bits that leave the word are lost. */
  function ShiftLeft(x: nat, n: nat): nat {
    if n == 0 then x else 2 * ShiftLeft(x, n - 1) % U64_SPAN
  }

  /** `x | y`. */
  function Or(x: nat, y: nat): nat
    decreases x + y
  {
    if x == 0 && y == 0 then 0
    else 2 * Or(x / 2, y / 2) + if x % 2 == 1 || y % 2 == 1 then 1 else 0
  }

  /** `x & y`. */
  function And(x: nat, y: nat): nat
    decreases x + y
  {
    if x == 0 && y == 0 then 0
    else 2 * And(x / 2, y / 2) + if x % 2 == 1 && y % 2 == 1 then 1 else 0
  }

  function Pow2(n: nat): (p: nat)
    ensures p > 0
  {
    if n == 0 then 1 else 2 * Pow2(n - 1)
  }

  /** The lowest bit of an or, and the or of what is above it. */
  lemma OrSplits(x: nat, y: nat)
    ensures Or(x, y) / 2 == Or(x / 2, y / 2)
    ensures Or(x, y) % 2 == 1 <==> x % 2 == 1 || y % 2 == 1
  {
  }

  lemma {:induction false} OrBit(x: nat, y: nat, i: nat)
    ensures Bit(Or(x, y), i) <==> Bit(x, i) || Bit(y, i)
    decreases i
  {
    OrSplits(x, y);
    hide Or;
    if i > 0 {
      OrBit(x / 2, y / 2, i - 1);
    }
  }

  /** Setting a bit above a number adds it. */
  lemma {:induction false} OrAbove(x: nat, width: nat)
    requires x < Pow2(width)
    ensures Or(x, Pow2(width)) == x + Pow2(width)
    decreases width
  {
    OrSplits(x, Pow2(width));
    hide Or;
    if width > 0 {
      OrAbove(x / 2, width - 1);
    } else {
      OrWithOne();
    }
  }

  lemma OrWithOne()
    ensures Or(0, 1) == 1
  {
  }

  lemma {:induction false} OrFits(x: nat, y: nat, width: nat)
    requires x < Pow2(width) && y < Pow2(width)
    ensures Or(x, y) < Pow2(width)
    decreases width
  {
    if width > 0 {
      OrFits(x / 2, y / 2, width - 1);
    }
  }

  lemma {:induction false} ZeroBit(i: nat)
    ensures !Bit(0, i)
  {
    if i > 0 {
      ZeroBit(i - 1);
    }
  }

  // ---------- one bit ----------

  lemma {:induction false} PowersAdd(m: nat, n: nat)
    ensures Pow2(m + n) == Pow2(m) * Pow2(n)
  {
    if m > 0 {
      PowersAdd(m - 1, n);
      assert 2 * Pow2(m - 1) * Pow2(n) == 2 * (Pow2(m - 1) * Pow2(n));
    }
  }

  lemma WordPower()
    ensures Pow2(64) == U64_SPAN
  {
    assert Pow2(4) == 16 by { assert Pow2(2) == 4; }
    PowersAdd(4, 4);
    assert Pow2(8) == 0x100;
    PowersAdd(8, 8);
    assert Pow2(16) == 0x1_0000;
    PowersAdd(16, 16);
    assert Pow2(32) == 0x1_0000_0000;
    PowersAdd(32, 32);
  }

  lemma {:induction false} SmallerPower(m: nat, n: nat)
    requires m < n
    ensures Pow2(m) < Pow2(n)
  {
    if m + 1 < n {
      SmallerPower(m, n - 1);
    }
  }

  /** `1 << n` is the `n`-th power of two while it stays in the word. */
  lemma {:induction false} ShiftedOne(n: nat)
    requires n < 64
    ensures ShiftLeft(1, n) == Pow2(n) < U64_SPAN
  {
    WordPower();
    SmallerPower(n, 64);
    if n > 0 {
      ShiftedOne(n - 1);
    }
  }

  lemma {:induction false} PowerBit(n: nat, i: nat)
    ensures Bit(Pow2(n), i) <==> i == n
    decreases i
  {
    if n == 0 {
      if i > 0 {
        ZeroBit(i - 1);
      }
    } else if i > 0 {
      PowerBit(n - 1, i - 1);
    }
  }

  /** Masking with one bit keeps that bit. */
  lemma {:induction false} AndPower(x: nat, n: nat)
    ensures And(x, Pow2(n)) == if Bit(x, n) then Pow2(n) else 0
  {
    if n == 0 {
      AndZero(x / 2);
    } else {
      AndPower(x / 2, n - 1);
    }
  }

  lemma {:induction false} AndZero(x: nat)
    ensures And(x, 0) == 0
  {
    if x > 0 {
      AndZero(x / 2);
    }
  }

  // ---------- shifting ----------

  lemma HalfOfModulus(x: nat, p: nat)
    requires p > 0
    ensures x % (2 * p) / 2 == x / 2 % p && x % (2 * p) % 2 == x % 2
  {
    var half, low := x / 2, x % 2;
    var q, r := half / p, half % p;
    DoubledParts(x, p, q, r, low);
    UniqueRemainder(x, 2 * p, q, 2 * r + low);
    assert (2 * r + low) / 2 == r && (2 * r + low) % 2 == low;
  }

  lemma DoubledParts(x: nat, p: nat, q: nat, r: nat, low: nat)
    requires x == 2 * (p * q + r) + low
    ensures x == (2 * p) * q + (2 * r + low)
  {
  }

  /** Cutting a number to `width` bits keeps the bits below. */
  lemma {:induction false} CutBit(x: nat, width: nat, i: nat)
    requires i < width
    ensures Bit(x % Pow2(width), i) <==> Bit(x, i)
    decreases i
  {
    HalfOfModulus(x, Pow2(width - 1));
    if i > 0 {
      CutBit(x / 2, width - 1, i - 1);
    }
  }

  lemma {:induction false} ShiftedBit(x: nat, n: nat, i: nat)
    requires i < 64
    ensures Bit(ShiftLeft(x, n), i) <==> i >= n && Bit(x, i - n)
    decreases n
  {
    if n > 0 {
      var before := ShiftLeft(x, n - 1);
      WordPower();
      CutBit(2 * before, 64, i);
      if i > 0 {
        ShiftedBit(x, n - 1, i - 1);
      }
    }
  }
}
