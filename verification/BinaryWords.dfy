/** Numbers as 32-bit words, and what writing digits behind digits means for both. */
module BinaryWords {

  function Bit(n: nat): bv32 { if n % 2 == 1 then 1 else 0 }

  /** The binary digits of n, the last 32 of them. */
  function ToWord(n: nat): bv32 {
    if n == 0 then 0 else (ToWord(n / 2) << 1) | Bit(n)
  }

  function Shifted(x: bv32, k: nat): bv32 {
    if k == 0 then x else Shifted(x, k - 1) << 1
  }

  function Power(k: nat): nat {
    if k == 0 then 1 else 2 * Power(k - 1)
  }

  // ---------------------------------------------------------------- bits

  lemma BitIsLow(n: nat)
    ensures Bit(n) & 0xFFFF_FFFE == 0
  {
  }

  lemma DoubledOr(x: bv32, y: bv32, bit: bv32)
    ensures ((x | y) << 1) | bit == (x << 1) | ((y << 1) | bit)
  {
  }

  lemma DoubledAnd(x: bv32, y: bv32, bit: bv32)
    requires x & y == 0 && bit & 0xFFFF_FFFE == 0
    ensures ((x << 1) | bit) & (y << 1) == 0
  {
  }

  lemma DoubledTwice(x: bv32)
    ensures (x << 1) << 1 == x << 2
  {
  }

  lemma ShiftChain(x: bv32)
    ensures (x << 2) << 2 == x << 4 && (x << 4) << 4 == x << 8 && (x << 8) << 4 == x << 12
    ensures (x << 12) << 4 == x << 16 && (x << 16) << 12 == x << 28 && (x << 28) << 2 == x << 30
  {
  }

  // ---------------------------------------------------------------- digits

  /** One digit more at the end. */
  lemma LastBit(n: nat)
    ensures ToWord(n) == (ToWord(n / 2) << 1) | Bit(n)
  {
  }

  lemma DoubledInjective(x: bv32, y: bv32, p: bv32, q: bv32)
    requires x & 0x8000_0000 == 0 && y & 0x8000_0000 == 0 && p & 0xFFFF_FFFE == 0 && q & 0xFFFF_FFFE == 0
    ensures (x << 1) | p == (y << 1) | q <==> x == y && p == q
  {
  }

  /** Below 2^k with k at most 32, a number is known by its word. */
  lemma {:induction false} WordsDiffer(m: nat, n: nat, k: nat)
    requires m < Power(k) && n < Power(k) && k <= 32
    ensures ToWord(m) == ToWord(n) <==> m == n
  {
    if k > 0 {
      WordsDiffer(m / 2, n / 2, k - 1);
      TopIsFree(m / 2, k - 1);
      TopIsFree(n / 2, k - 1);
      LastBit(m);
      LastBit(n);
      BitIsLow(m);
      BitIsLow(n);
      DoubledInjective(ToWord(m / 2), ToWord(n / 2), Bit(m), Bit(n));
      assert m == n <==> m / 2 == n / 2 && m % 2 == n % 2;
    }
  }

  lemma {:induction false} MorePower(k: nat, more: nat)
    requires k <= more
    ensures Power(k) <= Power(more)
    decreases more
  {
    if k < more {
      MorePower(k, more - 1);
    }
  }

  /** A number below 2^31 leaves the top bit free. */
  lemma {:induction false} TopIsFree(n: nat, k: nat)
    requires n < Power(k) && k <= 31
    ensures ToWord(n) & 0x8000_0000 == 0
  {
    var top := 31;
    MorePower(k, top);
    NoHighDigits(n, top);
    Shifts(0xFFFF_FFFF, 0);
    OneMore(0xFFFF_FFFF, top);
    TopBit();
  }

  lemma TopBit()
    ensures (0xFFFF_FFFF as bv32 << 30) << 1 == 0x8000_0000
  {
  }

  lemma OneMore(x: bv32, k: nat)
    requires k > 0
    ensures Shifted(x, k) == Shifted(x, k - 1) << 1
  {
  }

  lemma HalfOf(high: nat, low: nat, k: nat)
    requires k > 0
    ensures (high * Power(k) + low) / 2 == high * Power(k - 1) + low / 2
    ensures Bit(high * Power(k) + low) == Bit(low)
  {
    assert high * Power(k) == 2 * (high * Power(k - 1));
  }

  /** Digits written behind digits. */
  lemma {:induction false} Concatenation(high: nat, low: nat, k: nat)
    requires low < Power(k)
    ensures ToWord(high * Power(k) + low) == Shifted(ToWord(high), k) | ToWord(low)
  {
    if k == 0 {
      assert high * Power(0) + low == high;
      OrNothing(ToWord(high));
    } else {
      Concatenation(high, low / 2, k - 1);
      OneMoreDigit(high, low, k);
    }
  }

  lemma OrNothing(x: bv32)
    ensures x | 0 == x
  {
  }

  lemma {:induction false} OneMoreDigit(high: nat, low: nat, k: nat)
    requires k > 0
    requires ToWord(high * Power(k - 1) + low / 2) == Shifted(ToWord(high), k - 1) | ToWord(low / 2)
    ensures ToWord(high * Power(k) + low) == Shifted(ToWord(high), k) | ToWord(low)
  {
    HalfOf(high, low, k);
    LastBit(high * Power(k) + low);
    LastBit(low);
    OneMore(ToWord(high), k);
    DoubledOr(Shifted(ToWord(high), k - 1), ToWord(low / 2), Bit(low));
  }

  /** A number below 2^k has no digits above the k-th. */
  lemma {:induction false} NoHighDigits(n: nat, k: nat)
    requires n < Power(k)
    ensures ToWord(n) & Shifted(0xFFFF_FFFF, k) == 0
  {
    if k > 0 {
      NoHighDigits(n / 2, k - 1);
      LastBit(n);
      BitIsLow(n);
      OneMore(0xFFFF_FFFF, k);
      DoubledAnd(ToWord(n / 2), Shifted(0xFFFF_FFFF, k - 1), Bit(n));
    }
  }

  lemma {:induction false} ShiftBy2(x: bv32, k: nat)
    ensures Shifted(x, k + 2) == Shifted(x, k) << 2
  {
    OneMore(x, k + 2);
    OneMore(x, k + 1);
    DoubledTwice(Shifted(x, k));
  }

  lemma {:induction false} ShiftBy4(x: bv32, k: nat)
    ensures Shifted(x, k + 4) == Shifted(x, k) << 4
  {
    ShiftBy2(x, k);
    ShiftBy2(x, k + 2);
    ShiftChain(Shifted(x, k));
  }

  lemma {:induction false} ShiftBy12(x: bv32, k: nat)
    ensures Shifted(x, k + 12) == Shifted(x, k) << 12
  {
    ShiftBy4(x, k);
    ShiftBy4(x, k + 4);
    ShiftBy4(x, k + 8);
    ShiftChain(Shifted(x, k));
  }

  lemma NoShift(x: bv32)
    ensures Shifted(x, 0) == x
  {
  }

  lemma {:induction false} ShiftBy30(x: bv32, k: nat)
    ensures Shifted(x, k + 30) == Shifted(x, k) << 30
  {
    ShiftBy12(x, k);
    ShiftBy4(x, k + 12);
    ShiftBy12(x, k + 16);
    ShiftBy2(x, k + 28);
    ShiftChain(Shifted(x, k));
  }

  /** The shifts that are needed, from k == 0 on, which is no literal so that nothing is unfolded thirty times. */
  lemma {:induction false} Shifts(x: bv32, k: nat)
    requires k == 0
    ensures Shifted(x, k + 4) == x << 4 && Shifted(x, k + 12) == x << 12 && Shifted(x, k + 30) == x << 30
  {
    NoShift(x);
    ShiftBy4(x, k);
    ShiftBy12(x, k);
    ShiftBy30(x, k);
  }

  lemma Powers()
    ensures Power(4) == 16 && Power(12) == 0x1000 && Power(30) == 0x4000_0000
  {
    assert Power(8) == 256 && Power(16) == 0x1_0000 && Power(24) == 0x100_0000;
  }

  lemma SmallWords()
    ensures ToWord(2) == 2 && ToWord(4) == 4
  {
    assert ToWord(1) == 1;
  }

  /** A nibble with digits before it and 12 behind it. */
  lemma {:induction false} ThreeFields(high: nat, nibble: nat, low: nat)
    requires nibble < 16 && low < 0x1000
    ensures ToWord((high * 16 + nibble) * 0x1000 + low) == (((ToWord(high) << 4) | ToWord(nibble)) << 12) | ToWord(low)
  {
    Powers();
    Concatenation(high * 16 + nibble, low, 12);
    Concatenation(high, nibble, 4);
    Shifts(ToWord(high * 16 + nibble), 0);
    Shifts(ToWord(high), 0);
  }

  /** Two digits with 30 behind them. */
  lemma {:induction false} TwoFields(high: nat, low: nat)
    requires low < 0x4000_0000
    ensures ToWord(high * 0x4000_0000 + low) == (ToWord(high) << 30) | ToWord(low)
  {
    Powers();
    Concatenation(high, low, 30);
    Shifts(ToWord(high), 0);
  }

  lemma {:induction false} LowFields(nibble: nat, low: nat, rest: nat)
    requires nibble < 16 && low < 0x1000 && rest < 0x4000_0000
    ensures ToWord(nibble) & 0xFFFF_FFF0 == 0 && ToWord(low) & 0xFFFF_F000 == 0 && ToWord(rest) & 0xC000_0000 == 0
  {
    Powers();
    NoHighDigits(nibble, 4);
    NoHighDigits(low, 12);
    NoHighDigits(rest, 30);
    Shifts(0xFFFF_FFFF, 0);
    ShiftedOnes();
  }

  lemma ShiftedOnes()
    ensures 0xFFFF_FFFF as bv32 << 4 == 0xFFFF_FFF0 && 0xFFFF_FFFF as bv32 << 12 == 0xFFFF_F000
    ensures 0xFFFF_FFFF as bv32 << 30 == 0xC000_0000
  {
  }

  // ---------------------------------------------------------------- masks

  lemma NibbleMask(high: bv32, nibble: bv32, low: bv32)
    requires nibble & 0xFFFF_FFF0 == 0 && low & 0xFFFF_F000 == 0
    ensures (((((high << 4) | nibble) << 12) | low) & 0xFFFF_0FFF) | 0x4000 == (((high << 4) | 4) << 12) | low
  {
  }

  lemma TopMask(high: bv32, low: bv32)
    requires low & 0xC000_0000 == 0
    ensures (((high << 30) | low) & 0x3FFF_FFFF) | 0x8000_0000 == (2 << 30) | low
  {
  }

  lemma {:induction false} MaskNibble(high: nat, nibble: nat, low: nat)
    requires nibble < 16 && low < 0x1000
    ensures ToWord((high * 16 + 4) * 0x1000 + low)
         == (ToWord((high * 16 + nibble) * 0x1000 + low) & 0xFFFF_0FFF) | 0x4000
  {
    ThreeFields(high, nibble, low);
    ThreeFields(high, 4, low);
    SmallWords();
    LowFields(nibble, low, 0);
    NibbleMask(ToWord(high), ToWord(nibble), ToWord(low));
  }

  lemma {:induction false} MaskTop(high: nat, low: nat)
    requires low < 0x4000_0000
    ensures ToWord(2 * 0x4000_0000 + low) == (ToWord(high * 0x4000_0000 + low) & 0x3FFF_FFFF) | 0x8000_0000
  {
    TwoFields(high, low);
    TwoFields(2, low);
    SmallWords();
    LowFields(0, 0, low);
    TopMask(ToWord(high), ToWord(low));
  }
}
