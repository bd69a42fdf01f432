/** Bitwise operators on natural numbers, bit by bit. */
module Bits {

  function And(x: nat, y: nat): nat
    decreases x
  {
    if x == 0 || y == 0 then 0 else (x % 2) * (y % 2) + 2 * And(x / 2, y / 2)
  }

  function Or(x: nat, y: nat): nat
    decreases x + y
  {
    if x == 0 then y else if y == 0 then x
    else (if x % 2 == 1 || y % 2 == 1 then 1 else 0) + 2 * Or(x / 2, y / 2)
  }

  function Shr(x: nat, k: nat): nat
    decreases k
  {
    if k == 0 then x else Shr(x / 2, k - 1)
  }

  function Shl(x: nat, k: nat): nat
    decreases k
  {
    if k == 0 then x else 2 * Shl(x, k - 1)
  }

  /** The low k bits. */
  function Low(x: nat, k: nat): nat
    decreases k
  {
    if k == 0 then 0 else x % 2 + 2 * Low(x / 2, k - 1)
  }

  /** The number whose k low bits are set. */
  function Ones(k: nat): nat {
    if k == 0 then 0 else 1 + 2 * Ones(k - 1)
  }

  lemma {:induction false} AndBound(x: nat, y: nat)
    ensures And(x, y) <= x && And(x, y) <= y
    decreases x
  {
    if x != 0 && y != 0 {
      AndBound(x / 2, y / 2);
    }
  }

  lemma {:induction false} AndOnes(x: nat, k: nat)
    ensures And(x, Ones(k)) == Low(x, k)
    decreases k
  {
    if k > 0 {
      AndOnes(x / 2, k - 1);
    }
  }

  /** A mask shifted left by k bits ignores the low k bits. */
  lemma {:induction false} AndShifted(x: nat, m: nat, k: nat)
    ensures And(x, Shl(m, k)) == Shl(And(Shr(x, k), m), k)
    decreases k
  {
    if k > 0 {
      AndShifted(x / 2, m, k - 1);
    }
  }

  /** Or of numbers without common bits is the sum. */
  lemma {:induction false} OrDisjoint(x: nat, y: nat, k: nat)
    ensures Or(Low(x, k), Shl(y, k)) == Low(x, k) + Shl(y, k)
    decreases k
  {
    if k > 0 {
      OrDisjoint(x / 2, y, k - 1);
    }
  }

  // Four bits at a time, so that literal shifts become literal divisions.

  lemma FourBits(x: nat, k: nat)
    requires k >= 4
    ensures Shr(x, k) == Shr(x / 16, k - 4)
    ensures Shl(x, k) == 16 * Shl(x, k - 4)
    ensures Low(x, k) == x % 16 + 16 * Low(x / 16, k - 4)
    ensures Ones(k) == 15 + 16 * Ones(k - 4)
  {
    assert Shr(x, k) == Shr(x / 2 / 2, k - 2) && Shl(x, k) == 4 * Shl(x, k - 2);
    assert Low(x, k) == x % 2 + 2 * (x / 2 % 2) + 4 * Low(x / 2 / 2, k - 2) && Ones(k) == 3 + 4 * Ones(k - 2);
    var y := x / 4;
    assert Shr(y, k - 2) == Shr(y / 2 / 2, k - 4) && Shl(x, k - 2) == 4 * Shl(x, k - 4);
    assert Low(y, k - 2) == y % 2 + 2 * (y / 2 % 2) + 4 * Low(y / 2 / 2, k - 4);
    assert Ones(k - 2) == 3 + 4 * Ones(k - 4);
  }

  /** Constant divisions, two at a time. */
  lemma DivideTwice(x: nat)
    ensures x / 16 / 16 == x / 256 && x % 16 + 16 * (x / 16 % 16) == x % 256
    ensures x / 16 / 256 == x / 4096 && x % 16 + 16 * (x / 16 % 256) == x % 4096
    ensures x / 256 / 256 == x / 65536 && x % 256 + 256 * (x / 256 % 256) == x % 65536
  {
  }

  lemma NoBits(x: nat)
    ensures Shr(x, 0) == x && Shl(x, 0) == x && Low(x, 0) == 0 && Ones(0) == 0
  {
  }

  lemma EightBits(x: nat)
    ensures Shr(x, 8) == x / 256 && Shl(x, 8) == 256 * x && Low(x, 8) == x % 256 && Ones(8) == 0xff
  {
    FourBits(x, 8);
    FourBits(x, 4);
    FourBits(x / 16, 4);
    NoBits(x);
    NoBits(x / 16 / 16);
    DivideTwice(x);
  }

  lemma EightMoreBits(x: nat, k: nat)
    requires k >= 8
    ensures Shr(x, k) == Shr(x / 256, k - 8)
    ensures Shl(x, k) == 256 * Shl(x, k - 8)
    ensures Low(x, k) == x % 256 + 256 * Low(x / 256, k - 8)
    ensures Ones(k) == 255 + 256 * Ones(k - 8)
  {
    FourBits(x, k);
    FourBits(x, k - 4);
    FourBits(x / 16, k - 4);
    DivideTwice(x);
  }

  lemma TwelveBits(x: nat)
    ensures Shr(x, 12) == x / 4096 && Low(x, 12) == x % 4096 && Ones(12) == 0xfff
  {
    FourBits(x, 12);
    EightBits(x / 16);
    DivideTwice(x);
  }

  lemma SixteenBits(x: nat)
    ensures Shr(x, 16) == x / 65536 && Shl(x, 16) == 65536 * x && Low(x, 16) == x % 65536 && Ones(16) == 0xffff
  {
    EightMoreBits(x, 16);
    EightBits(x);
    EightBits(x / 256);
    DivideTwice(x);
  }

  lemma {:induction false} LowSmall(x: nat, j: nat, k: nat)
    requires x <= Ones(j) && j <= k
    ensures Low(x, k) == x
    decreases k
  {
    if k > 0 {
      LowSmall(x / 2, if j == 0 then 0 else j - 1, k - 1);
    }
  }

  lemma OnesFortyEight()
    ensures Ones(48) == 0xffff_ffff_ffff
  {
    OnesSixteen(48);
    OnesSixteen(32);
    SixteenBits(0);
  }

  lemma OnesSixteen(k: nat)
    requires k >= 16
    ensures Ones(k) == 0xffff + 0x1_0000 * Ones(k - 16)
  {
    FourBits(0, k);
    FourBits(0, k - 4);
    FourBits(0, k - 8);
    FourBits(0, k - 12);
  }

  lemma HighMask(x: nat, j: nat)
    requires x < 0x1_0000_0000 && j >= 16
    ensures And(x, 0x1_0000 * Ones(j)) == x - x % 0x1_0000
  {
    SixteenBits(x);
    SixteenBits(Ones(j));
    AndShifted(x, Ones(j), 16);
    AndOnes(x / 0x1_0000, j);
    LowSmall(x / 0x1_0000, 16, j);
    SixteenBits(x / 0x1_0000);
  }

  /** Clearing the low half of a 32-bit word, with a 32-bit mask and with that mask sign-extended to 64 bits. */
  lemma HighHalfMask(x: nat)
    requires x < 0x1_0000_0000
    ensures And(x, 0xffff_0000) == x - x % 0x1_0000
    ensures And(x, 0xffff_ffff_ffff_0000) == x - x % 0x1_0000
  {
    HighMask(x, 16);
    HighMask(x, 48);
    SixteenBits(0);
    OnesFortyEight();
  }

  lemma AndByte(x: nat)
    ensures And(x, 0xff) == x % 0x100
  {
    EightBits(x);
    AndOnes(x, 8);
  }

  lemma AndTwelve(x: nat)
    ensures And(x, 0xfff) == x % 0x1000
  {
    TwelveBits(x);
    AndOnes(x, 12);
  }

  lemma AndSecondTwelve(x: nat)
    ensures And(x, 0xf_ff00) == 0x100 * (x / 0x100 % 0x1000)
  {
    TwelveBits(0);
    EightBits(Ones(12));
    AndShifted(x, Ones(12), 8);
    EightBits(x);
    AndTwelve(x / 0x100);
    EightBits(x / 0x100 % 0x1000);
  }

  lemma OrByte(x: nat, y: nat)
    ensures Or(x % 0x100, 0x100 * y) == x % 0x100 + 0x100 * y
  {
    EightBits(x);
    EightBits(y);
    OrDisjoint(x, y, 8);
  }
}
