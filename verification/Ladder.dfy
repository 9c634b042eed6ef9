/** The Montgomery ladder of `x25519`, on limb arrays, refines the loop of section 5 of RFC 7748. */
module MontgomeryLadder {
  import opened MachineInt
  import opened Field
  import opened Limbs
  import opened X25519
  import opened Rfc7748

  // The four working elements a, b, c, d of the loop, as the state (x_2, z_2, x_3, z_3).
  ghost function StateOf(a: seq<int64>, b: seq<int64>, c: seq<int64>, d: seq<int64>): Ladder {
    Ladder(FE(a), FE(c), FE(b), FE(d))
  }

  lemma SafeOfReduced(s: seq<int64>)
    requires Reduced(s) || Loose(s)
    ensures Bounded(s, SAFE)
  {
    if Reduced(s) {
      ReducedBounds(s);
    }
  }

  // Multiply for operands that are products, or sums or differences of products.
  method Mul(dst: array<int64>, a: array<int64>, b: array<int64>)
    requires dst.Length == 16 && a.Length == 16 && b.Length == 16
    requires Reduced(a[..]) || Loose(a[..])
    requires Reduced(b[..]) || Loose(b[..])
    modifies dst
    ensures Reduced(dst[..])
    ensures FE(dst[..]) == FMul(old(FE(a[..])), old(FE(b[..])))
  {
    SafeOfReduced(a[..]);
    SafeOfReduced(b[..]);
    Multiply(dst, a, b);
  }

  predicate AllDistinct(a: array<int64>, b: array<int64>, c: array<int64>,
                        d: array<int64>, e: array<int64>, f: array<int64>)
  {
    && a.Length == b.Length == c.Length == d.Length == e.Length == f.Length == 16
    && a != b && a != c && a != d && a != e && a != f && b != c && b != d && b != e && b != f
    && c != d && c != e && c != f && d != e && d != f && e != f
  }

  /** v1 to v8 of the loop body: the four products that the second half combines. */
  method FirstHalf(a: array<int64>, b: array<int64>, c: array<int64>, d: array<int64>,
                   e: array<int64>, f: array<int64>)
    requires AllDistinct(a, b, c, d, e, f)
    requires Reduced(a[..]) && Reduced(b[..]) && Reduced(c[..]) && Reduced(d[..])
    modifies a, b, c, d, e, f
    ensures Reduced(a[..]) && Reduced(c[..]) && Reduced(d[..]) && Reduced(f[..])
    ensures var s := old(StateOf(a[..], b[..], c[..], d[..]));
            var A, B, C, D := FAdd(s.x2, s.z2), FSub(s.x2, s.z2), FAdd(s.x3, s.z3), FSub(s.x3, s.z3);
            && FE(d[..]) == FMul(A, A) && FE(f[..]) == FMul(B, B)
            && FE(a[..]) == FMul(C, B) && FE(c[..]) == FMul(D, A)
  {
    hide FE, FMul, FAdd, FSub, Reduced, Loose;
    Add(e, a, c);
    Subtract(a, a, c);
    Add(c, b, d);
    Subtract(b, b, d);
    Mul(d, e, e);
    Mul(f, a, a);
    Mul(a, c, a);
    Mul(c, b, e);
  }

  /** v9 to v18 of the loop body. */
  method SecondHalf(a: array<int64>, b: array<int64>, c: array<int64>, d: array<int64>,
                    e: array<int64>, f: array<int64>, x: array<int64>, c1db41: array<int64>)
    requires AllDistinct(a, b, c, d, e, f) && x.Length == c1db41.Length == 16
    requires x !in {a, b, c, d, e, f} && c1db41 !in {a, b, c, d, e, f}
    requires Reduced(a[..]) && Reduced(c[..]) && Reduced(d[..]) && Reduced(f[..])
    requires Reduced(x[..]) && Reduced(c1db41[..])
    modifies a, b, c, d, e, f
    ensures Reduced(a[..]) && Reduced(b[..]) && Reduced(c[..]) && Reduced(d[..])
    ensures var CB, DA, AA, BB := old(FE(a[..])), old(FE(c[..])), old(FE(d[..])), old(FE(f[..]));
            var sum, diff, E := FAdd(CB, DA), FSub(CB, DA), FSub(AA, BB);
            && FE(a[..]) == FMul(AA, BB) && FE(b[..]) == FMul(sum, sum)
            && FE(c[..]) == FMul(E, FAdd(FMul(E, FE(c1db41[..])), AA))
            && FE(d[..]) == FMul(FMul(diff, diff), FE(x[..]))
  {
    hide FE, FMul, FAdd, FSub, Reduced, Loose;
    ghost var sx, sk := x[..], c1db41[..];
    Add(e, a, c);
    Subtract(a, a, c);
    Mul(b, a, a);
    Subtract(c, d, f);
    Mul(a, c, c1db41);
    assert c1db41[..] == sk;
    Add(a, a, d);
    Mul(c, c, a);
    Mul(a, d, f);
    assert x[..] == sx;
    Mul(d, b, x);
    Mul(b, e, e);
    assert x[..] == sx && c1db41[..] == sk;
  }

  lemma StepMeaning(x1: int, s: Ladder)
    ensures var A, B, C, D := FAdd(s.x2, s.z2), FSub(s.x2, s.z2), FAdd(s.x3, s.z3), FSub(s.x3, s.z3);
            var AA, BB, CB, DA := FMul(A, A), FMul(B, B), FMul(C, B), FMul(D, A);
            var sum, diff, E := FAdd(CB, DA), FSub(CB, DA), FSub(AA, BB);
            LadderStep(x1, s) == Ladder(FMul(AA, BB), FMul(E, FAdd(FMul(E, A24), AA)),
                                        FMul(sum, sum), FMul(FMul(diff, diff), x1))
  {
    var A, B, C, D := FAdd(s.x2, s.z2), FSub(s.x2, s.z2), FAdd(s.x3, s.z3), FSub(s.x3, s.z3);
    var AA, BB, CB, DA := FMul(A, A), FMul(B, B), FMul(C, B), FMul(D, A);
    var E, diff := FSub(AA, BB), FSub(CB, DA);
    FSquareNeg(DA, CB);
    assert forall y, z :: FMul(y, z) == FMul(z, y) && FAdd(y, z) == FAdd(z, y) by {
      forall y, z ensures FMul(y, z) == FMul(z, y) && FAdd(y, z) == FAdd(z, y) {}
    }
    assert FMul(E, A24) == FMul(A24, E);
    hide FMul, FAdd, FSub;
  }

  /** The loop body between the two pairs of swaps. */
  method Step(a: array<int64>, b: array<int64>, c: array<int64>, d: array<int64>,
              e: array<int64>, f: array<int64>, x: array<int64>, c1db41: array<int64>)
    requires AllDistinct(a, b, c, d, e, f) && x.Length == c1db41.Length == 16
    requires x !in {a, b, c, d, e, f} && c1db41 !in {a, b, c, d, e, f}
    requires Reduced(a[..]) && Reduced(b[..]) && Reduced(c[..]) && Reduced(d[..])
    requires Reduced(x[..]) && Reduced(c1db41[..]) && FE(c1db41[..]) == A24
    modifies a, b, c, d, e, f
    ensures Reduced(a[..]) && Reduced(b[..]) && Reduced(c[..]) && Reduced(d[..])
    ensures StateOf(a[..], b[..], c[..], d[..])
         == LadderStep(FE(x[..]), old(StateOf(a[..], b[..], c[..], d[..])))
  {
    hide FE, FMul, FAdd, FSub, Reduced, Loose, LadderStep;
    ghost var sx, sk := x[..], c1db41[..];
    ghost var s := StateOf(a[..], b[..], c[..], d[..]);
    FirstHalf(a, b, c, d, e, f);
    assert x[..] == sx && c1db41[..] == sk;
    SecondHalf(a, b, c, d, e, f, x, c1db41);
    assert x[..] == sx;
    StepMeaning(FE(sx), s);
  }

  lemma {:induction false} BitOfSum(b: nat, v: nat, m: nat, t: nat)
    requires b < Pow2(m)
    ensures Bit(b + Pow2(m) * v, t) == if t < m then Bit(b, t) else Bit(v, t - m)
  {
    if m > 0 {
      var w := Pow2(m - 1) * v;
      assert Pow2(m) * v == 2 * w;
      if t > 0 {
        BitOfSum(b / 2, v, m - 1, t - 1);
        hide Pow2;
        assert (b + 2 * w) / 2 == b / 2 + w;
      }
    }
  }

  // Bit t of a little-endian scalar, read from its byte.
  lemma {:induction false} BitOfByte(k: seq<uint8>, t: nat)
    requires t < 8 * |k|
    ensures Bit(LE(k), t) == Bit(k[t / 8] as nat, t % 8)
  {
    assert Pow2(8) == 0x100;
    BitOfSum(k[0] as nat, LE(k[1..]), 8, t);
    if t >= 8 {
      BitOfByte(k[1..], t - 8);
      assert k[t / 8] == k[1..][(t - 8) / 8];
    }
  }

  method One() returns (q: array<int64>)
    ensures fresh(q) && q.Length == 16 && Reduced(q[..]) && FE(q[..]) == 1
  {
    q := new int64[16](_ => 0);
    ZeroVal(q[..]);
    ValUpdate(q[..], 0, 1);
    ghost var s := q[..];
    q[0] := 1;
    assert q[..] == s[0 := 1];
  }

  method Zero() returns (q: array<int64>)
    ensures fresh(q) && q.Length == 16 && Reduced(q[..]) && FE(q[..]) == 0
  {
    q := new int64[16](_ => 0);
    ZeroVal(q[..]);
  }

  // The constant 121665 as limbs 0xdb41 and 1.
  method C1DB41() returns (q: array<int64>)
    ensures fresh(q) && q.Length == 16 && Reduced(q[..]) && FE(q[..]) == A24
  {
    q := new int64[16](_ => 0);
    ghost var z := q[..];
    ZeroVal(z);
    ValUpdate(z, 0, 0xdb41);
    ValUpdate(z[0 := 0xdb41], 1, 1);
    assert W(0) == 1 && W(1) == 0x1_0000;
    q[0], q[1] := 0xdb41, 1;
    assert q[..] == z[0 := 0xdb41][1 := 1];
  }

  // One iteration: swap, step, swap back.
  method Iterate(a: array<int64>, b: array<int64>, c: array<int64>, d: array<int64>,
                 e: array<int64>, f: array<int64>, x: array<int64>, c1db41: array<int64>, bit: uint8)
    requires AllDistinct(a, b, c, d, e, f) && x.Length == c1db41.Length == 16 && bit <= 1
    requires x !in {a, b, c, d, e, f} && c1db41 !in {a, b, c, d, e, f}
    requires Reduced(a[..]) && Reduced(b[..]) && Reduced(c[..]) && Reduced(d[..])
    requires Reduced(x[..]) && Reduced(c1db41[..]) && FE(c1db41[..]) == A24
    modifies a, b, c, d, e, f
    ensures Reduced(a[..]) && Reduced(b[..]) && Reduced(c[..]) && Reduced(d[..])
    ensures StateOf(a[..], b[..], c[..], d[..])
         == CSwap(bit == 1, LadderStep(FE(x[..]), CSwap(bit == 1, old(StateOf(a[..], b[..], c[..], d[..])))))
  {
    hide FE, Reduced, LadderStep;
    ghost var sx, sk := x[..], c1db41[..];
    Swap(a, b, bit);
    Swap(c, d, bit);
    assert x[..] == sx && c1db41[..] == sk;
    Step(a, b, c, d, e, f, x, c1db41);
    assert x[..] == sx;
    Swap(a, b, bit);
    Swap(c, d, bit);
    assert x[..] == sx;
  }

  /** The whole of `x25519`: the bytes written are the little-endian encoding of X25519(k, u), where
      k is the scalar exactly as given (clamping is the caller's) and u is the decoded u-coordinate
      without its top bit. */
  method ScalarMult(public: array<uint8>, secret: array<uint8>, basepoint: array<uint8>)
    requires public.Length == secret.Length == basepoint.Length == 32
    modifies public
    ensures LE(public[..]) == Rfc7748.X25519(old(LE(secret[..])), old(LE(basepoint[..])) % Pow2(255))
  {
    hide *;
    ghost var k, u := LE(secret[..]), LE(basepoint[..]) % Pow2(255);
    var x := new int64[16];
    Unpack(x, basepoint);
    var a := One();
    var c := Zero();
    var d := One();
    var b := new int64[16];
    Copy(b, x);
    var e, f := new int64[16], new int64[16];
    var c1db41 := C1DB41();
    ghost var x1 := FE(x[..]);
    ElementOf(x[..], u);
    EagerStart(k, x1, a[..], b[..], c[..], d[..]);
    assert AllDistinct(a, b, c, d, e, f) by { DistinctArrays(a, b, c, d, e, f); }
    Loop(a, b, c, d, e, f, x, c1db41, secret);
    Finish(public, a, c, b[..], d[..], k, u);
  }

  // The 255 iterations, from bit 254 down to bit 0.
  method Loop(a: array<int64>, b: array<int64>, c: array<int64>, d: array<int64>,
              e: array<int64>, f: array<int64>, x: array<int64>, c1db41: array<int64>, secret: array<uint8>)
    requires AllDistinct(a, b, c, d, e, f) && x.Length == c1db41.Length == 16 && secret.Length == 32
    requires x !in {a, b, c, d, e, f} && c1db41 !in {a, b, c, d, e, f}
    requires Reduced(a[..]) && Reduced(b[..]) && Reduced(c[..]) && Reduced(d[..])
    requires Reduced(x[..]) && Reduced(c1db41[..]) && FE(c1db41[..]) == A24
    requires StateOf(a[..], b[..], c[..], d[..]) == EagerLoop(LE(secret[..]), FE(x[..]), 255)
    modifies a, b, c, d, e, f
    ensures Reduced(a[..]) && Reduced(c[..])
    ensures StateOf(a[..], b[..], c[..], d[..]) == EagerLoop(LE(secret[..]), FE(x[..]), 0)
  {
    hide *;
    ghost var sx, sk, ss := x[..], c1db41[..], secret[..];
    var i := 254;
    while i >= 0
      invariant -1 <= i <= 254
      invariant x[..] == sx && c1db41[..] == sk && secret[..] == ss
      invariant Reduced(a[..]) && Reduced(b[..]) && Reduced(c[..]) && Reduced(d[..])
      invariant StateOf(a[..], b[..], c[..], d[..]) == EagerLoop(LE(ss), FE(sx), i + 1)
    {
      var bit: uint8 := if Bit(secret[i / 8] as nat, i % 8) then 1 else 0;
      BitOfByte(ss, i);
      Iterate(a, b, c, d, e, f, x, c1db41, bit);
      EagerNext(LE(ss), FE(sx), i);
      i := i - 1;
    }
  }

  lemma ElementOf(s: seq<int64>, u: nat)
    requires Val(s) == u
    ensures FE(s) == u % P
  {}

  lemma DistinctArrays(a: array<int64>, b: array<int64>, c: array<int64>,
                       d: array<int64>, e: array<int64>, f: array<int64>)
    requires a.Length == b.Length == c.Length == d.Length == e.Length == f.Length == 16
    requires a != b && a != c && a != d && a != e && a != f && b != c && b != d && b != e && b != f
    requires c != d && c != e && c != f && d != e && d != f && e != f
    ensures AllDistinct(a, b, c, d, e, f)
  {}

  lemma EagerStart(k: nat, x1: int, a: seq<int64>, b: seq<int64>, c: seq<int64>, d: seq<int64>)
    requires FE(a) == 1 && FE(b) == x1 && FE(c) == 0 && FE(d) == 1
    ensures StateOf(a, b, c, d) == EagerLoop(k, x1, 255)
  {}

  lemma EagerNext(k: nat, x1: int, t: nat)
    requires t < 255
    ensures EagerLoop(k, x1, t) == CSwap(Bit(k, t), LadderStep(x1, CSwap(Bit(k, t), EagerLoop(k, x1, t + 1))))
  {}

  // x2 * z2^(p-2), encoded.
  method Finish(public: array<uint8>, a: array<int64>, c: array<int64>,
                ghost b: seq<int64>, ghost d: seq<int64>, ghost k: nat, ghost u: nat)
    requires public.Length == 32 && a.Length == c.Length == 16 && a != c
    requires Reduced(a[..]) && Reduced(c[..])
    requires StateOf(a[..], b, c[..], d) == EagerLoop(k, u % P, 0)
    modifies public, a, c
    ensures LE(public[..]) == Rfc7748.X25519(k, u)
  {
    EagerIsDeferred(k, u % P, 0);
    hide FE, DeferredLoop, EagerLoop, FPow, FMul, Val, LE;
    ghost var s := a[..];
    Inverse(c, c);
    assert a[..] == s;
    Mul(a, a, c);
    SafeOfReduced(a[..]);
    Pack(public, a);
  }

  lemma {:induction false} LEInjective(s: seq<uint8>, t: seq<uint8>)
    requires |s| == |t| && LE(s) == LE(t)
    ensures s == t
  {
    if |s| > 0 {
      LEInjective(s[1..], t[1..]);
      assert s == [s[0]] + s[1..] && t == [t[0]] + t[1..];
    }
  }

  // What Pack writes for an element f (its contract) determines the bytes from the element alone,
  // and reading them back with Unpack gives a congruent element.
  lemma PackCanonical(b: seq<uint8>, f: seq<int64>, c: seq<uint8>, g: seq<int64>)
    requires |b| == |c| == 32 && LE(b) == FE(f) < P && LE(c) == FE(g) < P
    ensures FE(f) == FE(g) <==> b == c
    ensures LE(b) % Pow2(255) % P == FE(f)
  {
    if FE(f) == FE(g) {
      LEInjective(b, c);
    }
    hide LE, FE;
    SmallMod(LE(b));
  }

  lemma SmallMod(v: int)
    requires 0 <= v < P
    ensures v % Pow2(255) % P == v
  {
    Pow2Of255();
    QuotientUnique(v, 0, v, P + 19);
    QuotientUnique(v, 0, v, P);
  }

  // The secret scalar of `point_d`: the three masks applied to 32 random bytes.
  function Clamp(k: seq<uint8>): (r: seq<uint8>)
    requires |k| == 32
    ensures |r| == 32
  {
    k[0 := k[0] - k[0] % 8][31 := k[31] % 0x40 + 0x40]
  }

  // decodeScalar25519 of section 5 of RFC 7748, bit by bit.
  lemma ClampBits(k: seq<uint8>, t: nat)
    requires |k| == 32 && t < 256
    ensures Bit(LE(Clamp(k)), t)
       <==> (if t < 3 || t == 255 then false else if t == 254 then true else Bit(LE(k), t))
  {
    BitOfByte(k, t);
    BitOfByte(Clamp(k), t);
    if t < 8 {
      ByteMasks(k[0] as nat, t);
    } else if t >= 248 {
      ByteMasks(k[31] as nat, t % 8);
    }
  }

  lemma ByteMasks(b: nat, r: nat)
    requires b < 0x100 && r < 8
    ensures Bit(b - b % 8, r) <==> r >= 3 && Bit(b, r)
    ensures Bit(b % 0x40 + 0x40, r) <==> r == 6 || (r < 6 && Bit(b, r))
  {
    assert Pow2(3) == 8 && Pow2(6) == 0x40;
    assert Bit(1, 0) && Bit(1, 1) == Bit(0, 0);
    hide Bit, Pow2;
    BitOfSum(b % 8, b / 8, 3, r);
    BitOfSum(0, b / 8, 3, r);
    BitOfSum(b % 0x40, b / 0x40, 6, r);
    BitOfSum(b % 0x40, 1, 6, r);
    ZeroBits(r);
    ZeroBits(0);
  }

  lemma {:induction false} ZeroBits(t: nat)
    ensures !Bit(0, t)
  {
    if t > 0 {
      ZeroBits(t - 1);
    }
  }

  // Hence a clamped scalar is a multiple of 8 between 2^254 and 2^255.
  lemma ClampRange(k: seq<uint8>)
    requires |k| == 32
    ensures LE(Clamp(k)) % 8 == 0
    ensures Pow2(254) <= LE(Clamp(k)) < Pow2(255)
  {
    ScalarRange(Clamp(k), 31);
  }

  lemma ScalarRange(r: seq<uint8>, n: nat)
    requires |r| == n + 1 && n > 0 && r[0] % 8 == 0 && 0x40 <= r[n] < 0x80
    ensures LE(r) % 8 == 0
    ensures Pow2(8 * n + 6) <= LE(r) < Pow2(8 * n + 7)
  {
    LowBitsOf(r);
    LastByte(r[n..]);
    hide LE, Pow2;
    LETop(r, n);
    TopByteRange(LE(r[..n]), r[n] as int, 8 * n);
  }

  lemma LowBitsOf(r: seq<uint8>)
    requires |r| > 0 && r[0] % 8 == 0
    ensures LE(r) % 8 == 0
  {
    var b, v := r[0] as int, LE(r[1..]);
    assert b % 8 == 0 && LE(r) == b + 0x100 * v;
  }

  lemma LastByte(s: seq<uint8>)
    requires |s| == 1
    ensures LE(s) == s[0] as int
  {
    assert s[1..] == [];
  }

  lemma TopByteRange(low: nat, top: int, n: nat)
    requires low < Pow2(n) && 0x40 <= top < 0x80
    ensures Pow2(n + 6) <= low + Pow2(n) * top < Pow2(n + 7)
  {
    Pow2Sum(n, 6);
    Pow2Sum(n, 7);
    assert Pow2(6) == 0x40 && Pow2(7) == 0x80;
    hide Pow2;
    var p := Pow2(n);
    MulBetween(0x40, top, 0x7f, p);
    assert p * Pow2(6) == 0x40 * p && p * Pow2(7) == 0x80 * p;
  }

  lemma {:induction false} LETop(s: seq<uint8>, n: nat)
    requires n <= |s|
    ensures LE(s) == LE(s[..n]) + Pow2(8 * n) * LE(s[n..])
    ensures LE(s[..n]) < Pow2(8 * n)
  {
    if n == 0 {
      assert s[0..] == s && s[..0] == [];
    } else {
      var m := 8 * (n - 1);
      LETop(s[1..], n - 1);
      assert s[1..][n - 1..] == s[n..] && s[..n][1..] == s[1..][..n - 1];
      assert LE(s[..n]) == s[0] as int + 0x100 * LE(s[1..][..n - 1]);
      assert Pow2(8 + m) == 0x100 * Pow2(m) by { Pow2Sum(8, m); assert Pow2(8) == 0x100; }
      assert LE(s) == s[0] as int + 0x100 * LE(s[1..]);
      hide LE, Pow2;
      MulAssoc(0x100, Pow2(m), LE(s[n..]));
    }
  }
}
