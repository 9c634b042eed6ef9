/** The X25519 implementation on limb arrays, against section 5 of RFC 7748. */
module X25519 {
  import opened MachineInt
  import opened Field
  import opened Limbs
  import Rfc7748

  // Little-endian value of a byte string.
  ghost function LE(s: seq<uint8>): (v: nat) {
    if |s| == 0 then 0 else s[0] as nat + 0x100 * LE(s[1..])
  }

  lemma {:induction false} AddVal(r: seq<int64>, a: seq<int64>, b: seq<int64>, sign: int)
    requires |r| == |a| == |b|
    requires forall i :: 0 <= i < |r| ==> r[i] as int == a[i] as int + sign * b[i] as int
    ensures Val(r) == Val(a) + sign * Val(b)
  {
    if |r| > 0 {
      var n := |r| - 1;
      AddVal(r[..n], a[..n], b[..n], sign);
      AddTerm(a[n] as int, b[n] as int, sign, W(n), Val(b[..n]));
    }
  }

  lemma AddTerm(x: int, y: int, sign: int, w: int, v: int)
    ensures (x + sign * y) * w + sign * v == x * w + sign * (v + y * w)
  {
    assert sign * (v + y * w) == sign * v + sign * y * w;
  }

  predicate Loose(s: seq<int64>) { |s| == 16 && Bounded(s, 0x2_0100) }

  lemma ReducedBounds(s: seq<int64>)
    requires Reduced(s)
    ensures Bounded(s, 0x1_0080)
  {
    assert forall i | 1 <= i < 16 :: s[i] == s[1..][i - 1];
  }

  /** dst = a + b, limb by limb; covers `add` and `add_inplace`, since dst may be a. */
  method Add(dst: array<int64>, a: array<int64>, b: array<int64>)
    requires dst.Length == 16 && a.Length == 16 && b.Length == 16 && dst != b
    requires Reduced(a[..]) && Reduced(b[..])
    modifies dst
    ensures Loose(dst[..])
    ensures FE(dst[..]) == FAdd(old(FE(a[..])), old(FE(b[..])))
  {
    ghost var s, t := a[..], b[..];
    ReducedBounds(s);
    ReducedBounds(t);
    hide Val, Reduced;
    for i := 0 to 16
      invariant dst != a ==> a[..] == s
      invariant b[..] == t
      invariant forall k :: i <= k < 16 ==> a[k] == s[k]
      invariant forall k :: 0 <= k < i ==> dst[k] as int == s[k] as int + t[k] as int
    {
      dst[i] := a[i] + b[i];
    }
    AddVal(dst[..], s, t, 1);
    FAddMod(Val(s), Val(t));
  }

  /** dst = a - b, limb by limb; covers `subtract` and `subtract_inplace`. */
  method Subtract(dst: array<int64>, a: array<int64>, b: array<int64>)
    requires dst.Length == 16 && a.Length == 16 && b.Length == 16 && dst != b
    requires Reduced(a[..]) && Reduced(b[..])
    modifies dst
    ensures Loose(dst[..])
    ensures FE(dst[..]) == FSub(old(FE(a[..])), old(FE(b[..])))
  {
    ghost var s, t := a[..], b[..];
    ReducedBounds(s);
    ReducedBounds(t);
    hide Val, Reduced;
    for i := 0 to 16
      invariant dst != a ==> a[..] == s
      invariant b[..] == t
      invariant forall k :: i <= k < 16 ==> a[k] == s[k]
      invariant forall k :: 0 <= k < i ==> dst[k] as int == s[k] as int - t[k] as int
    {
      dst[i] := a[i] - b[i];
    }
    AddVal(dst[..], s, t, -1);
    FSubMod(Val(s), Val(t));
  }

  /** The branch-free conditional exchange. */
  method Swap(a: array<int64>, b: array<int64>, bit: uint8)
    requires a.Length == 16 && b.Length == 16 && a != b
    requires bit <= 1
    modifies a, b
    ensures a[..] == if bit == 1 then old(b[..]) else old(a[..])
    ensures b[..] == if bit == 1 then old(a[..]) else old(b[..])
  {
    hide And64, Xor64;
    ghost var s, t := a[..], b[..];
    var mask := -1 - (bit as int64 - 1);  // ~(bit - 1), in two's complement
    for i := 0 to 16
      invariant forall k :: i <= k < 16 ==> a[k] == s[k] && b[k] == t[k]
      invariant forall k :: 0 <= k < i ==> a[k] == if bit == 1 then t[k] else s[k]
      invariant forall k :: 0 <= k < i ==> b[k] == if bit == 1 then s[k] else t[k]
    {
      XorSwap(a[i], b[i], mask);
      var val := And64(mask, Xor64(a[i], b[i]));
      a[i] := Xor64(a[i], val);
      b[i] := Xor64(b[i], val);
    }
  }

  // The exponent reached by `inverse` after i iterations.
  function InverseExponent(i: nat): nat {
    if i == 0 then 1
    else 2 * InverseExponent(i - 1) + if i - 1 != 251 && i - 1 != 249 then 1 else 0
  }

  lemma {:induction false} InverseExponentOnes(i: nat)
    requires i <= 249
    ensures InverseExponent(i) == Pow2(i + 1) - 1
  {
    if i > 0 {
      InverseExponentOnes(i - 1);
    }
  }

  lemma Pow2Of255()
    ensures Pow2(255) == P + 19
  {
    Pow2Of63();
    Pow2Sum(63, 1);
    Pow2Sum(64, 64);
    Pow2Sum(64, 63);
    Pow2Sum(128, 127);
  }

  lemma TopOnes()
    ensures 32 * Pow2(250) == P + 19
  {
    Pow2Of255();
    Pow2Sum(250, 5);
    assert Pow2(5) == 32;
  }

  // The two iterations that skip the multiplication are exactly the two zero bits of p - 2.
  lemma InverseExponentTotal()
    ensures InverseExponent(254) == P - 2
  {
    InverseExponentOnes(249);
    TopOnes();
    hide InverseExponent, Pow2;
    InverseExponentStep(249);
    InverseExponentStep(250);
    InverseExponentStep(251);
    InverseExponentStep(252);
    InverseExponentStep(253);
  }

  lemma CopyBounds(s: seq<int64>)
    requires Reduced(s)
    ensures Bounded(s, SAFE)
  {
    ReducedBounds(s);
  }

  /** Raises to the power p - 2 by squaring and multiplying, in place: dst may be src. */
  method Inverse(dst: array<int64>, src: array<int64>)
    requires dst.Length == 16 && src.Length == 16
    requires Reduced(src[..])
    modifies dst
    ensures Reduced(dst[..])
    ensures FE(dst[..]) == FPow(old(FE(src[..])), P - 2)
  {
    hide *;
    var elements := new int64[16];
    Copy(elements, src);
    ghost var s := src[..];
    ghost var x := FE(s);
    PowOne(s);
    for i := 0 to 254
      invariant fresh(elements) && elements.Length == 16
      invariant src[..] == s && Reduced(elements[..])
      invariant FE(elements[..]) == FPow(x, InverseExponent(i))
    {
      CopyBounds(elements[..]);
      Multiply(elements, elements, elements);
      ghost var e := InverseExponent(i);
      FPowSum(x, e, e);
      if i != 251 && i != 249 {
        CopyBounds(elements[..]);
        CopyBounds(s);
        Multiply(elements, elements, src);
        assert src[..] == s;
        FPowSum(x, e + e, 1);
        PowOne(s);
      }
      InverseExponentStep(i);
    }
    InverseExponentTotal();
    Copy(dst, elements);
  }

  lemma InverseExponentStep(i: nat)
    ensures var e := InverseExponent(i);
            InverseExponent(i + 1) == e + e + if i != 251 && i != 249 then 1 else 0
  {}

  lemma PowOne(s: seq<int64>)
    ensures FPow(FE(s), InverseExponent(0)) == FE(s) && FPow(FE(s), 1) == FE(s)
  {
    assert Pow(FE(s), 1) == FE(s) * Pow(FE(s), 0);
  }

  method Copy(dst: array<int64>, src: array<int64>)
    requires dst.Length == 16 && src.Length == 16
    modifies dst
    ensures dst[..] == old(src[..])
  {
    ghost var s := src[..];
    for i := 0 to 16
      invariant dst != src ==> src[..] == s
      invariant forall k :: i <= k < 16 ==> src[k] == s[k]
      invariant forall k :: 0 <= k < i ==> dst[k] == s[k]
    {
      dst[i] := src[i];
    }
  }

  // Two bytes make one limb.
  predicate Paired(b: seq<uint8>, e: seq<int64>) {
    |b| == 2 * |e| && forall i :: 0 <= i < |e| ==> e[i] as int == b[2 * i] as int + 0x100 * b[2 * i + 1] as int
  }

  lemma {:induction false} LESplit(s: seq<uint8>, n: nat)
    requires 2 * n <= |s|
    ensures LE(s) == LE(s[..2 * n]) + W(n) * LE(s[2 * n..])
  {
    if n == 0 {
      assert s[0..] == s && s[..0] == [];
    } else {
      LESplit(s[2..], n - 1);
      assert s[2..][2 * (n - 1)..] == s[2 * n..];
      var h := s[..2 * n];
      assert h[1..][1..] == s[2..][..2 * (n - 1)];
      assert s[1..][1..] == s[2..];
      MulAssoc(0x1_0000, W(n - 1), LE(s[2 * n..]));
    }
  }

  lemma TwoBytes(t: seq<uint8>)
    requires |t| == 2
    ensures LE(t) == t[0] as int + 0x100 * t[1] as int
  {
    assert LE(t[1..]) == t[1] as int by { assert t[1..][1..] == []; }
  }

  lemma {:induction false} PairedVal(b: seq<uint8>, e: seq<int64>)
    requires Paired(b, e)
    ensures LE(b) == Val(e) && Digits(e)
  {
    if |e| > 0 {
      var n := |e| - 1;
      PairedVal(b[..2 * n], e[..n]);
      LESplit(b, n);
      TwoBytes(b[2 * n..]);
      assert Digits(e) by {
        assert forall i | 0 <= i < |e| :: 0 <= e[i] < 0x1_0000;
      }
    }
  }

  /** Decodes a u-coordinate, ignoring the top bit. */
  method Unpack(dst: array<int64>, src: array<uint8>)
    requires dst.Length == 16 && src.Length == 32
    modifies dst
    ensures Val(dst[..]) == LE(src[..]) % Pow2(255)
    ensures Reduced(dst[..])
  {
    hide Val, LE, Pow2;
    for i := 0 to 16
      invariant forall k :: 0 <= k < i ==> dst[k] as int == src[2 * k] as int + 0x100 * src[2 * k + 1] as int
    {
      dst[i] := src[2 * i] as int64 + src[2 * i + 1] as int64 * 0x100;
    }
    ghost var e, b := dst[..], src[..];
    assert Paired(b, e);
    PairedVal(b, e);
    hide Paired;
    MaskTop(e);
    dst[15] := dst[15] % 0x8000;
    assert dst[..] == e[15 := e[15] % 0x8000];
    assert src[..] == b;
  }

  lemma MaskTop(e: seq<int64>)
    requires |e| == 16 && Digits(e)
    ensures Val(e[15 := e[15] % 0x8000]) == Val(e) % Pow2(255)
  {
    var f := e[15 := e[15] % 0x8000];
    ValUpdate(e, 15, f[15]);
    var q := e[15] as int / 0x8000;
    Pow2Of255();
    W16();
    assert 0x8000 * W(15) == P + 19;
    MulAssoc(q, 0x8000, W(15));
    assert f[15] as int - e[15] as int == -(q * 0x8000);
    assert f[..15] == e[..15];
    DigitsRange(f[..15]);
    MulBetween(0, f[15] as int, 0x7fff, W(15));
    QuotientUnique(Val(e), q, Val(f), P + 19);
  }

  // After two passes the third leaves every limb a digit.
  lemma LastCarry(s: seq<int64>, v: int, c: int)
    requires |s| == 16 && Digits(s[1..]) && 0 <= s[0] as int - 38 * c < 0x1_0000
    requires -38 <= v < R + 38 && c == v / R && Val(s) == v - 2 * c * P
    ensures Digits(s)
  {
    HeadOfVal(s);
    DigitsRange(s[1..]);
    W16();
    assert -1 <= c <= 1;
    assert forall i | 1 <= i < 16 :: s[i] == s[1..][i - 1];
  }

  /** Three passes of carries bring any element whose limbs fit in 62 bits into digits. */
  method CarryThrice(elements: array<int64>)
    requires elements.Length == 16
    requires Bounded(elements[..], 0x4000_0000_0000_0000)
    modifies elements
    ensures Digits(elements[..])
    ensures FE(elements[..]) == old(FE(elements[..]))
  {
    hide Val, FE;
    ghost var c := CarryReduce(elements);
    NextCarry(elements[..], c);
    c := CarryReduce(elements);
    NextCarry(elements[..], c);
    ghost var v := Val(elements[..]);
    c := CarryReduce(elements);
    LastCarry(elements[..], v, c);
  }

  // The limbs of p.
  function PLimb(i: nat): int64 {
    if i == 0 then 0xffed else if i == 15 then 0x7fff else 0xffff
  }

  function PLimbs(n: nat): (s: seq<int64>)
    ensures |s| == n && forall i :: 0 <= i < n ==> s[i] == PLimb(i)
  {
    if n == 0 then [] else PLimbs(n - 1) + [PLimb(n - 1)]
  }

  lemma PLimbsStep(n: nat)
    ensures Val(PLimbs(n + 1)) == Val(PLimbs(n)) + PLimb(n) as int * W(n)
  {
    var s := PLimbs(n);
    assert PLimbs(n + 1) == s + [PLimb(n)];
    hide PLimbs, W;
    assert (s + [PLimb(n)])[..n] == s;
    ValPrefix(s + [PLimb(n)], n);
  }

  lemma PLimbsOne()
    ensures Val(PLimbs(1)) == 0xffed == W(1) - 19
  {
    var s := PLimbs(1);
    assert s[..0] == [];
    assert W(1) == 0x1_0000;
  }

  lemma WNext(n: nat)
    ensures W(n + 1) == 0x1_0000 * W(n)
  {}

  lemma {:induction false} PLimbsLow(n: nat)
    requires 1 <= n <= 15
    ensures Val(PLimbs(n)) == W(n) - 19
  {
    hide Val, PLimbs, W;
    if n == 1 {
      PLimbsOne();
    } else {
      PLimbsLow(n - 1);
      PLimbsStep(n - 1);
      assert PLimb(n - 1) == 0xffff;
      WNext(n - 1);
    }
  }

  lemma PLimbsVal()
    ensures Val(PLimbs(16)) == P
  {
    PLimbsLow(15);
    PLimbsStep(15);
    hide PLimbs, Val;
    W16();
  }

  // Elements less p, with the borrow rippled up to limb i and limb i itself not yet masked.
  ghost predicate Borrowed(m: seq<int64>, e: seq<int64>, i: nat) {
    && |m| == |e| == 16 && i < 16 && Digits(e)
    && Digits(m[..i]) && -0x1_0000 <= m[i] <= 0xffff
    && m[i] <= e[i] - PLimb(i) <= m[i] + 1
    && Val(m[..i + 1]) == Val(e[..i + 1]) - Val(PLimbs(i + 1))
  }

  lemma BorrowStart(m: seq<int64>, e: seq<int64>)
    requires |m| == |e| == 16 && Digits(e) && m[0] == e[0] - 0xffed
    ensures Borrowed(m, e, 0)
  {
    PLimbsOne();
    hide PLimbs;
    HeadVal(m);
    HeadVal(e);
  }

  lemma HeadVal(s: seq<int64>)
    requires |s| > 0
    ensures Val(s[..1]) == s[0] as int
  {
    assert s[..1][..0] == [];
  }

  lemma BorrowStep(m: seq<int64>, e: seq<int64>, i: nat, borrow: int64)
    requires i < 15 && Borrowed(m, e, i) && borrow == m[i] / 0x1_0000 % 2
    ensures 0 <= borrow <= 1
    ensures Borrowed(m[i + 1 := e[i + 1] - PLimb(i + 1) - borrow][i := m[i] % 0x1_0000], e, i + 1)
  {
    assert m[i] % 0x1_0000 == m[i] + 0x1_0000 * borrow;
    var n := m[i + 1 := e[i + 1] - PLimb(i + 1) - borrow][i := m[i] % 0x1_0000];
    assert n[..i + 1] == m[..i] + [n[i]];
    BorrowVal(m, n, e, i, borrow);
  }

  lemma BorrowVal(m: seq<int64>, n: seq<int64>, e: seq<int64>, i: nat, borrow: int64)
    requires |m| == |n| == |e| == 16 && i < 15 && 0 <= borrow <= 1
    requires Val(m[..i + 1]) == Val(e[..i + 1]) - Val(PLimbs(i + 1))
    requires n[i] as int == m[i] as int + 0x1_0000 * borrow as int
    requires n[i + 1] as int == e[i + 1] as int - PLimb(i + 1) as int - borrow as int
    requires n[..i] == m[..i]
    ensures Val(n[..i + 2]) == Val(e[..i + 2]) - Val(PLimbs(i + 2))
  {
    ValUpdate(m[..i + 1], i, n[i]);
    assert n[..i + 2][..i + 1] == n[..i] + [n[i]] == m[..i + 1][i := n[i]];
    assert e[..i + 2][..i + 1] == e[..i + 1];
    PLimbsStep(i + 1);
    hide PLimbs;
    BorrowAlgebra(borrow as int, e[i + 1] as int, PLimb(i + 1) as int, W(i));
  }

  lemma BorrowAlgebra(b: int, x: int, y: int, w: int)
    ensures 0x1_0000 * b * w + (x - y - b) * (0x1_0000 * w) == x * (0x1_0000 * w) - y * (0x1_0000 * w)
  {}

  // The sign of the top limb is the sign of the difference.
  lemma BorrowEnd(m: seq<int64>, e: seq<int64>)
    requires Borrowed(m, e, 15)
    ensures Val(m) == Val(e) - P
    ensures -0x1_0000 <= m[15] <= 0xffff
    ensures m[15] < 0 <==> Val(m) < 0
    ensures m[15] >= 0 ==> Digits(m)
  {
    hide Val, W, PLimbs;
    assert m[..16] == m && e[..16] == e;
    PLimbsVal();
    DigitsRange(m[..15]);
    ValPrefix(m, 15);
    if m[15] < 0 {
      MulBetween(-0x1_0000, m[15] as int, -1, W(15));
    } else {
      MulBetween(0, m[15] as int, 0xffff, W(15));
      assert m == m[..15] + [m[15]];
    }
  }

  /** One round of the final reduction: subtracts p unless that would go negative. */
  method SubtractP(elements: array<int64>)
    requires elements.Length == 16 && Digits(elements[..])
    modifies elements
    ensures Digits(elements[..])
    ensures Val(elements[..]) == var v := old(Val(elements[..])); if v >= P then v - P else v
  {
    hide Val, Borrowed;
    ghost var e := elements[..];
    var m := new int64[16](_ => 0);
    m[0] := elements[0] - 0xffed;
    BorrowStart(m[..], e);
    for i := 1 to 16
      invariant Borrowed(m[..], e, i - 1) && elements[..] == e && fresh(m)
      modifies m
    {
      ghost var s := m[..];
      var dim := if i == 15 then 0x7fff else 0xffff;
      BorrowStep(s, e, i - 1, m[i - 1] / 0x1_0000 % 2);
      m[i] := elements[i] - dim - m[i - 1] / 0x1_0000 % 2;
      m[i - 1] := m[i - 1] % 0x1_0000;
      assert m[..] == s[i := m[i]][i - 1 := m[i - 1]];
    }
    BorrowEnd(m[..], e);
    TopLimb(m[15]);
    var carryBit := (m[15] / 0x1_0000 % 2) as uint8;
    Swap(elements, m, 1 - carryBit);
  }

  lemma TopLimb(x: int64)
    requires -0x1_0000 <= x <= 0xffff
    ensures x / 0x1_0000 % 2 == if x < 0 then 1 else 0
  {}

  /** Encodes an element as the little-endian bytes of its representative in [0, p - 1]. */
  method Pack(dst: array<uint8>, src: array<int64>)
    requires dst.Length == 32 && src.Length == 16
    requires Bounded(src[..], 0x4000_0000_0000_0000)
    modifies dst
    ensures LE(dst[..]) == FE(src[..]) < P
  {
    hide LE, Val;
    ghost var s := src[..];
    var elements := new int64[16];
    Copy(elements, src);
    CarryThrice(elements);
    ghost var v := Val(elements[..]);
    ElementRange(elements[..]);
    SubtractP(elements);
    SubtractP(elements);
    Emit(dst, elements);
    PairedVal(dst[..], elements[..]);
    Canonical(v);
    assert src[..] == s;
  }

  // The last loop of `pack`: each limb becomes two bytes.
  method Emit(dst: array<uint8>, elements: array<int64>)
    requires dst.Length == 32 && elements.Length == 16 && Digits(elements[..])
    modifies dst
    ensures Paired(dst[..], elements[..])
  {
    for i := 0 to 16
      invariant forall k :: 0 <= k < i ==> elements[k] as int == dst[2 * k] as int + 0x100 * dst[2 * k + 1] as int
    {
      dst[2 * i] := (elements[i] % 0x100) as uint8;
      dst[2 * i + 1] := (elements[i] / 0x100 % 0x100) as uint8;
    }
  }

  lemma ElementRange(s: seq<int64>)
    requires |s| == 16 && Digits(s)
    ensures 0 <= Val(s) < 2 * P + 38
  {
    DigitsRange(s);
    W16();
  }

  lemma Canonical(v: int)
    requires 0 <= v < 2 * P + 38
    ensures var w := if v >= P then v - P else v;
            v % P == if w >= P then w - P else w
  {
    ModShift(v - P, 1);
    ModShift(v - 2 * P, 2);
  }
}
