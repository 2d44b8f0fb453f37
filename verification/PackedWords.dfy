/**
The 64-bit words of the ring buffer: an offset in bits 0 to 31, a wrap-around
counter in bits 32 to 62, and a lock bit in bit 63.

Words are naturals below 2^64.  `And` and `Or` are the bitwise operators, one
bit at a time; the lemmas show what they do with the masks of the source.
*/
module PackedWords {
  import opened Integers

  type Byte = b: int | 0 <= b < 256

  const OFF_MASK: nat := 0x0000_0000_ffff_ffff
  const WRAP_LOCK_BIT: nat := 0x8000_0000_0000_0000
  const OFF_MAX: nat := 0x7fff_ffff_ffff_ffff
  const WRAP_COUNTER: nat := 0x7fff_ffff_0000_0000
  const WRAP_MODULUS: nat := 0x8000_0000

  // The three fields of the word 'next'.
  datatype Word = Word(off: nat, wrap: nat, lock: bool)

  predicate Fits(w: Word) {
    w.off <= OFF_MASK && w.wrap < WRAP_MODULUS
  }

  function Pack(w: Word): nat {
    w.off + TWO_32 * w.wrap + if w.lock then TWO_63 else 0
  }

  /* --------------------------- bitwise operators -------------------------- */

  function And(x: nat, y: nat): nat {
    if x == 0 || y == 0 then 0
    else 2 * And(x / 2, y / 2) + if x % 2 == 1 && y % 2 == 1 then 1 else 0
  }

  function Or(x: nat, y: nat): nat {
    if x == 0 then y
    else if y == 0 then x
    else 2 * Or(x / 2, y / 2) + if x % 2 == 1 || y % 2 == 1 then 1 else 0
  }

  // Bitwise complement of a 64-bit word.
  function Not(x: nat): nat
    requires x < TWO_64
  {
    TWO_64 - 1 - x
  }

  function Pow2(k: nat): (p: nat)
    ensures p > 0
  {
    if k == 0 then 1 else 2 * Pow2(k - 1)
  }

  lemma Pow2Values()
    ensures Pow2(31) == WRAP_MODULUS && Pow2(32) == TWO_32 && Pow2(63) == TWO_63
  {
    assert Pow2(8) == 256;
    assert Pow2(16) == 0x1_0000;
    assert Pow2(24) == 0x100_0000;
    assert Pow2(31) == WRAP_MODULUS;
    assert Pow2(40) == 0x100_0000_0000;
    assert Pow2(48) == 0x1_0000_0000_0000;
    assert Pow2(56) == 0x100_0000_0000_0000;
  }

  // Bit strings: the k low bits of x, and x without them.
  function Low(x: nat, k: nat): nat {
    if k == 0 then 0 else 2 * Low(x / 2, k - 1) + x % 2
  }

  function High(x: nat, k: nat): nat {
    if k == 0 then x else High(x / 2, k - 1)
  }

  lemma DoubleProduct(k: nat, y: nat)
    requires k > 0
    ensures Pow2(k) * y == 2 * (Pow2(k - 1) * y)
  {
  }

  lemma {:induction false} LowHigh(x: nat, k: nat)
    ensures Low(x, k) < Pow2(k)
    ensures x == Low(x, k) + Pow2(k) * High(x, k)
  {
    if k > 0 {
      LowHigh(x / 2, k - 1);
      DoubleProduct(k, High(x / 2, k - 1));
    }
  }

  // A mask of k ones keeps the k low bits.
  lemma {:induction false} AndLowBits(x: nat, k: nat)
    ensures And(x, Pow2(k) - 1) == Low(x, k)
  {
    if x == 0 {
      LowZero(k);
    } else if k > 0 {
      var m := Pow2(k - 1);
      AndLowBits(x / 2, k - 1);
      assert (2 * m - 1) / 2 == m - 1 && (2 * m - 1) % 2 == 1;
    }
  }

  lemma {:induction false} LowZero(k: nat)
    ensures Low(0, k) == 0 && High(0, k) == 0
  {
    if k > 0 {
      LowZero(k - 1);
    }
  }

  // A mask whose k low bits are zero works on the bits above them.
  lemma {:induction false} AndHighBits(x: nat, k: nat, mask: nat)
    ensures And(x, Pow2(k) * mask) == Pow2(k) * And(High(x, k), mask)
  {
    if x == 0 {
      LowZero(k);
    } else if mask == 0 {
    } else if k > 0 {
      AndHighBits(x / 2, k - 1, mask);
      DoubleProduct(k, mask);
      DoubleProduct(k, And(High(x, k), mask));
      AndDouble(x, Pow2(k - 1) * mask);
    }
  }

  lemma AndDouble(x: nat, y: nat)
    ensures And(x, 2 * y) == 2 * And(x / 2, y)
  {
    assert 2 * y / 2 == y && 2 * y % 2 == 0;
  }

  lemma {:induction false} AndCommutes(x: nat, y: nat)
    ensures And(x, y) == And(y, x)
  {
    if x > 0 && y > 0 {
      AndCommutes(x / 2, y / 2);
    }
  }

  // Joining words that have no bit in common adds them.
  lemma {:induction false} OrAdds(x: nat, y: nat)
    requires And(x, y) == 0
    ensures Or(x, y) == x + y
  {
    if x > 0 && y > 0 {
      OrAdds(x / 2, y / 2);
    }
  }

  lemma {:induction false} AndOne(x: nat)
    ensures And(x, 1) == x % 2
  {
    if x > 0 {
      assert And(x / 2, 0) == 0;
    }
  }

  /* ------------------------ the macros of the source ---------------------- */

  function OffsetBits(x: nat): nat { And(x, OFF_MASK) }

  function CounterBits(x: nat): nat { And(x, WRAP_COUNTER) }

  function LockBits(x: nat): nat { And(x, WRAP_LOCK_BIT) }

  function WrapIncr(x: nat): nat { And((x + TWO_32) % TWO_64, WRAP_COUNTER) }

  // A mask of ones, and what is left, with the power of two given by value.
  lemma MaskOfOnes(x: nat, k: nat, m: nat)
    requires m == Pow2(k)
    ensures And(x, m - 1) == Low(x, k) < m && x == Low(x, k) + m * High(x, k)
  {
    AndLowBits(x, k);
    LowHigh(x, k);
  }

  lemma MaskAbove(x: nat, k: nat, m: nat, mask: nat)
    requires m == Pow2(k)
    ensures And(x, m * mask) == m * And(High(x, k), mask)
    ensures Low(x, k) < m && x == Low(x, k) + m * High(x, k)
  {
    AndHighBits(x, k, mask);
    LowHigh(x, k);
  }

  lemma Split31(x: nat, low: nat, high: nat)
    requires x == low + WRAP_MODULUS * high && low < WRAP_MODULUS
    ensures x % WRAP_MODULUS == low && x / WRAP_MODULUS == high
  {
  }

  lemma Split32(x: nat, low: nat, high: nat)
    requires x == low + TWO_32 * high && low < TWO_32
    ensures x % TWO_32 == low && x / TWO_32 == high
  {
  }

  lemma Split63(x: nat, low: nat, high: nat)
    requires x == low + TWO_63 * high && low < TWO_63
    ensures x % TWO_63 == low && x / TWO_63 == high
  {
  }

  lemma OffsetMask(x: nat)
    ensures OffsetBits(x) == x % TWO_32
  {
    Pow2Values();
    MaskOfOnes(x, 32, TWO_32);
    Split32(x, Low(x, 32), High(x, 32));
  }

  lemma CounterMask(x: nat)
    ensures CounterBits(x) == TWO_32 * (x / TWO_32 % WRAP_MODULUS)
  {
    var h := High(x, 32);
    Pow2Values();
    MaskAbove(x, 32, TWO_32, WRAP_MODULUS - 1);
    Split32(x, Low(x, 32), h);
    MaskOfOnes(h, 31, WRAP_MODULUS);
    Split31(h, Low(h, 31), High(h, 31));
  }

  lemma LockMask(x: nat)
    ensures LockBits(x) == TWO_63 * (x / TWO_63 % 2)
  {
    Pow2Values();
    MaskAbove(x, 63, TWO_63, 1);
    Split63(x, Low(x, 63), High(x, 63));
    AndOne(High(x, 63));
  }

  lemma MaskMeanings(x: nat)
    ensures OffsetBits(x) == x % TWO_32
    ensures CounterBits(x) == TWO_32 * (x / TWO_32 % WRAP_MODULUS)
    ensures LockBits(x) == TWO_63 * (x / TWO_63 % 2)
  {
    OffsetMask(x);
    CounterMask(x);
    LockMask(x);
  }

  // Each field of a packed word is recovered by its mask.
  lemma FieldsOfPack(w: Word)
    requires Fits(w)
    ensures Pack(w) < TWO_64
    ensures OffsetBits(Pack(w)) == w.off
    ensures CounterBits(Pack(w)) == TWO_32 * w.wrap
    ensures LockBits(Pack(w)) == if w.lock then WRAP_LOCK_BIT else 0
  {
    hide And;
    MaskMeanings(Pack(w));
  }

  lemma PackInjective(v: Word, w: Word)
    requires Fits(v) && Fits(w) && Pack(v) == Pack(w)
    ensures v == w
  {
    FieldsOfPack(v);
    FieldsOfPack(w);
  }

  // WRAP_INCR steps the 31-bit counter and never carries into the lock bit.
  lemma WrapIncrSteps(w: Word)
    requires Fits(w)
    ensures WrapIncr(CounterBits(Pack(w))) == TWO_32 * ((w.wrap + 1) % WRAP_MODULUS)
  {
    FieldsOfPack(w);
    CounterStep(w.wrap);
  }

  lemma CounterStep(wrap: nat)
    requires wrap < WRAP_MODULUS
    ensures WrapIncr(TWO_32 * wrap) == TWO_32 * ((wrap + 1) % WRAP_MODULUS)
  {
    hide And;
    var x := TWO_32 * (wrap + 1);
    assert TWO_32 * wrap + TWO_32 == x < TWO_64;
    CounterMask(x);
    Split32(x, 0, wrap + 1);
  }

  // Low bits and a mask above them do not meet.
  lemma AndApart(x: nat, k: nat, m: nat, mask: nat)
    requires m == Pow2(k) && x < m
    ensures And(x, m * mask) == 0
  {
    HighZero(x, k);
    AndHighBits(x, k, mask);
  }

  lemma {:induction false} HighZero(x: nat, k: nat)
    requires x < Pow2(k)
    ensures High(x, k) == 0
  {
    if k > 0 {
      HighZero(x / 2, k - 1);
    }
  }

  // Setting and clearing the lock bit.
  lemma LockSet(off: nat)
    requires off < TWO_63
    ensures Or(off, WRAP_LOCK_BIT) == Or(WRAP_LOCK_BIT, off) == off + WRAP_LOCK_BIT
  {
    Pow2Values();
    AndApart(off, 63, TWO_63, 1);
    AndCommutes(off, WRAP_LOCK_BIT);
    OrAdds(off, WRAP_LOCK_BIT);
    OrAdds(WRAP_LOCK_BIT, off);
  }

  lemma LockCleared(x: nat)
    requires x < TWO_64
    ensures And(x, Not(WRAP_LOCK_BIT)) == x % TWO_63
  {
    Pow2Values();
    MaskOfOnes(x, 63, TWO_63);
    Split63(x, Low(x, 63), High(x, 63));
  }

  // A locked or unlocked offset has no bit in common with a counter.
  lemma CounterApart(off: nat, wrap: nat, high: nat)
    requires off < TWO_32 && wrap < WRAP_MODULUS && high <= 1
    ensures And(off + TWO_63 * high, TWO_32 * wrap) == 0
  {
    var x := off + TWO_63 * high;
    Pow2Values();
    MaskAbove(x, 32, TWO_32, wrap);
    Split32(x, Low(x, 32), High(x, 32));
    Split32(x, off, WRAP_MODULUS * high);
    AndApart(wrap, 31, WRAP_MODULUS, high);
    AndCommutes(wrap, WRAP_MODULUS * high);
  }

  // Joining an offset, locked or not, with a counter.
  lemma CounterJoined(w: Word)
    requires Fits(w)
    ensures Or(w.off + (if w.lock then WRAP_LOCK_BIT else 0), TWO_32 * w.wrap) == Pack(w)
  {
    CounterApart(w.off, w.wrap, if w.lock then 1 else 0);
    OrAdds(w.off + if w.lock then WRAP_LOCK_BIT else 0, TWO_32 * w.wrap);
  }
}
