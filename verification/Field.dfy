/** Arithmetic modulo p = 2^255 - 19 on plain integers. */
module Field {
  const P: int := 0x7fff_ffff_ffff_ffff_ffff_ffff_ffff_ffff_ffff_ffff_ffff_ffff_ffff_ffff_ffff_ffed

  function FAdd(x: int, y: int): int { (x + y) % P }
  function FSub(x: int, y: int): int { (x - y) % P }
  function FMul(x: int, y: int): int { (x * y) % P }

  function Pow(x: int, e: nat): int {
    if e == 0 then 1 else x * Pow(x, e - 1)
  }

  // x^e in the field.
  function FPow(x: int, e: nat): int { Pow(x, e) % P }

  lemma QuotientUnique(v: int, q: int, r: int, m: int)
    requires m > 0 && v == q * m + r && 0 <= r < m
    ensures v / m == q && v % m == r
  {
    var d := v / m - q;
    assert d * m == r - v % m by {
      assert v / m * m + v % m == v;
      assert (v / m - q) * m == v / m * m - q * m;
    }
  }

  lemma ModShift(v: int, k: int)
    ensures (v + k * P) % P == v % P
  {
    QuotientUnique(v + k * P, v / P + k, v % P, P);
  }

  lemma FAddMod(a: int, b: int)
    ensures FAdd(a % P, b % P) == (a + b) % P
  {
    ModShift(a % P + b % P, a / P + b / P);
  }

  lemma FSubMod(a: int, b: int)
    ensures FSub(a % P, b % P) == (a - b) % P
  {
    ModShift(a % P - b % P, a / P - b / P);
  }

  lemma FMulMod(a: int, b: int)
    ensures FMul(a % P, b % P) == (a * b) % P
  {
    var q, r, s, t := a / P, a % P, b / P, b % P;
    assert a * b == r * t + (q * s * P + q * t + r * s) * P by {
      assert a == q * P + r && b == s * P + t;
      assert (q * P + r) * (s * P + t) == q * P * (s * P) + q * P * t + r * (s * P) + r * t;
    }
    ModShift(r * t, q * s * P + q * t + r * s);
  }

  lemma {:induction false} PowSum(x: int, d: nat, e: nat)
    ensures Pow(x, d + e) == Pow(x, d) * Pow(x, e)
  {
    if d > 0 {
      PowSum(x, d - 1, e);
      assert Pow(x, d + e) == x * (Pow(x, d - 1) * Pow(x, e));
    }
  }

  // Multiplying powers adds their exponents, in the field.
  lemma FPowSum(x: int, d: nat, e: nat)
    ensures FMul(FPow(x, d), FPow(x, e)) == FPow(x, d + e)
  {
    PowSum(x, d, e);
    FMulMod(Pow(x, d), Pow(x, e));
  }

  lemma {:induction false} FPowMod(x: int, e: nat)
    ensures FPow(x % P, e) == FPow(x, e)
  {
    if e > 0 {
      FPowMod(x, e - 1);
      FMulMod(x % P, Pow(x % P, e - 1));
      FMulMod(x, Pow(x, e - 1));
      assert x % P % P == x % P;
    }
  }

  lemma FSquareNeg(x: int, y: int)
    ensures FMul(FSub(x, y), FSub(x, y)) == FMul(FSub(y, x), FSub(y, x))
  {
    FMulMod(x - y, x - y);
    FMulMod(y - x, y - x);
    assert (x - y) * (x - y) == (y - x) * (y - x);
  }
}

/** The function X25519 of section 5 of RFC 7748, on integers. */
module Rfc7748 {
  import opened Field
  import opened MachineInt

  datatype Ladder = Ladder(x2: int, z2: int, x3: int, z3: int)

  const A24 := 121665

  // The part of the loop body that follows the conditional swap.
  function LadderStep(x1: int, s: Ladder): Ladder {
    var A := FAdd(s.x2, s.z2);
    var AA := FMul(A, A);
    var B := FSub(s.x2, s.z2);
    var BB := FMul(B, B);
    var E := FSub(AA, BB);
    var C := FAdd(s.x3, s.z3);
    var D := FSub(s.x3, s.z3);
    var DA := FMul(D, A);
    var CB := FMul(C, B);
    var sum := FAdd(DA, CB);
    var diff := FSub(DA, CB);
    Ladder(FMul(AA, BB), FMul(E, FAdd(AA, FMul(A24, E))), FMul(sum, sum), FMul(x1, FMul(diff, diff)))
  }

  function CSwap(swap: bool, s: Ladder): Ladder {
    if swap then Ladder(s.x3, s.z3, s.x2, s.z2) else s
  }

  // (k >> t) & 1, as a truth value.
  function Bit(k: nat, t: nat): bool {
    if t == 0 then k % 2 == 1 else Bit(k / 2, t - 1)
  }

  datatype Deferred = Deferred(state: Ladder, swap: bool)

  // The loop of section 5 after handling bits 254 down to t: the swap of one iteration is undone
  // only together with the swap of the next one.
  function DeferredLoop(k: nat, x1: int, t: nat): Deferred
    requires t <= 255
    decreases 255 - t
  {
    if t == 255 then Deferred(Ladder(1, 0, x1, 1), false)
    else
      var d := DeferredLoop(k, x1, t + 1);
      var kt := Bit(k, t);
      Deferred(LadderStep(x1, CSwap(d.swap != kt, d.state)), kt)
  }

  // X25519(k, u) for a decoded scalar k and a decoded u-coordinate.
  function X25519(k: nat, u: nat): (r: nat)
    ensures r < P
  {
    var d := DeferredLoop(k, u % P, 0);
    var s := CSwap(d.swap, d.state);
    FMul(s.x2, FPow(s.z2, P - 2))
  }

  // The same loop with the swap undone at the end of every iteration.
  function EagerLoop(k: nat, x1: int, t: nat): Ladder
    requires t <= 255
    decreases 255 - t
  {
    if t == 255 then Ladder(1, 0, x1, 1)
    else CSwap(Bit(k, t), LadderStep(x1, CSwap(Bit(k, t), EagerLoop(k, x1, t + 1))))
  }

  lemma {:induction false} EagerIsDeferred(k: nat, x1: int, t: nat)
    requires t <= 255
    ensures var d := DeferredLoop(k, x1, t); EagerLoop(k, x1, t) == CSwap(d.swap, d.state)
    decreases 255 - t
  {
    if t < 255 {
      EagerIsDeferred(k, x1, t + 1);
    }
  }
}
