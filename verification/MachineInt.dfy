/** Signed 64-bit machine integers.  Every operation on `int64` carries a proof obligation that it
    does not overflow, so a method over `int64` that verifies is free of signed overflow. */
module MachineInt {
  newtype int64 = x: int | -0x8000_0000_0000_0000 <= x < 0x8000_0000_0000_0000
  newtype uint8 = x: int | 0 <= x < 0x100

  function Pow2(n: nat): (p: nat)
    ensures p > 0
  {
    if n == 0 then 1 else 2 * Pow2(n - 1)
  }

  lemma {:induction false} Pow2Sum(m: nat, n: nat)
    ensures Pow2(m + n) == Pow2(m) * Pow2(n)
  {
    if m > 0 {
      Pow2Sum(m - 1, n);
    }
  }

  // x fits in a two's complement word of n + 1 bits.
  predicate Fits(x: int, n: nat) {
    0 - Pow2(n) <= x < Pow2(n)
  }

  // Bitwise exclusive-or and conjunction of two's complement words of n + 1 bits, least significant
  // bit first; the last bit is the sign.
  function XorBits(n: nat, x: int, y: int): (z: int)
    requires Fits(x, n) && Fits(y, n)
    ensures Fits(z, n)
  {
    if n == 0 then (if x == y then 0 else -1)
    else (if x % 2 == y % 2 then 0 else 1) + 2 * XorBits(n - 1, x / 2, y / 2)
  }

  function AndBits(n: nat, x: int, y: int): (z: int)
    requires Fits(x, n) && Fits(y, n)
    ensures Fits(z, n)
  {
    if n == 0 then (if x == -1 && y == -1 then -1 else 0)
    else (if x % 2 == 1 && y % 2 == 1 then 1 else 0) + 2 * AndBits(n - 1, x / 2, y / 2)
  }

  lemma XorHalves(n: nat, x: int, y: int)
    requires n > 0 && Fits(x, n) && Fits(y, n)
    ensures Fits(x / 2, n - 1) && Fits(y / 2, n - 1)
    ensures XorBits(n, x, y) / 2 == XorBits(n - 1, x / 2, y / 2)
    ensures XorBits(n, x, y) % 2 == if x % 2 == y % 2 then 0 else 1
  {}

  lemma AndHalves(n: nat, x: int, y: int)
    requires n > 0 && Fits(x, n) && Fits(y, n)
    ensures Fits(x / 2, n - 1) && Fits(y / 2, n - 1)
    ensures AndBits(n, x, y) / 2 == AndBits(n - 1, x / 2, y / 2)
    ensures AndBits(n, x, y) % 2 == if x % 2 == 1 && y % 2 == 1 then 1 else 0
  {}

  // A mask of all ones exchanges two words, a mask of zeros keeps them.
  lemma {:induction false} MaskedXorSwap(n: nat, x: int, y: int, mask: int)
    requires Fits(x, n) && Fits(y, n)
    requires mask == 0 || mask == -1
    ensures Fits(mask, n)
    ensures var val := AndBits(n, mask, XorBits(n, x, y));
            XorBits(n, x, val) == (if mask == 0 then x else y) && XorBits(n, y, val) == (if mask == 0 then y else x)
  {
    if n > 0 {
      XorHalves(n, x, y);
      MaskedXorSwap(n - 1, x / 2, y / 2, mask);
      hide XorBits, AndBits;
      var xor := XorBits(n, x, y);
      AndHalves(n, mask, xor);
      var val := AndBits(n, mask, xor);
      XorHalves(n, x, val);
      XorHalves(n, y, val);
    }
  }

  lemma WordRange(x: int64)
    ensures Fits(x as int, 63)
  {
    Pow2Of63();
  }

  lemma Pow2Of63()
    ensures Pow2(63) == 0x8000_0000_0000_0000
  {
    assert Pow2(8) == 0x100;
    Pow2Sum(8, 8);
    Pow2Sum(16, 16);
    Pow2Sum(8, 16);
    assert Pow2(7) == 0x80;
    Pow2Sum(24, 7);
    Pow2Sum(32, 31);
  }

  function Xor64(x: int64, y: int64): int64 {
    WordRange(x); WordRange(y); Pow2Of63();
    XorBits(63, x as int, y as int) as int64
  }

  function And64(x: int64, y: int64): int64 {
    WordRange(x); WordRange(y); Pow2Of63();
    AndBits(63, x as int, y as int) as int64
  }

  lemma XorSwap(x: int64, y: int64, mask: int64)
    requires mask == 0 || mask == -1
    ensures var val := And64(mask, Xor64(x, y));
            Xor64(x, val) == (if mask == 0 then x else y) && Xor64(y, val) == (if mask == 0 then y else x)
  {
    WordRange(x); WordRange(y);
    MaskedXorSwap(63, x as int, y as int, mask as int);
  }
}
