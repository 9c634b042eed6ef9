/** Field elements as sixteen signed 64-bit limbs of radix 2^16, and the limb routines of the X25519
    implementation.  The value of an element is the sum of limb i times 2^(16 i). */
module Limbs {
  import opened MachineInt
  import opened Field

  // 2^(16 k)
  function W(k: nat): (w: nat)
    ensures w > 0
  {
    if k == 0 then 1 else 0x1_0000 * W(k - 1)
  }

  const R: int := 0x1_0000_0000_0000_0000_0000_0000_0000_0000_0000_0000_0000_0000_0000_0000_0000_0000

  ghost function Val(s: seq<int64>): int {
    if |s| == 0 then 0 else Val(s[..|s| - 1]) + s[|s| - 1] as int * W(|s| - 1)
  }

  // The field element that the limbs stand for.
  ghost function FE(s: seq<int64>): int { Val(s) % P }

  predicate Bounded(s: seq<int64>, b: int64)
    requires b >= 0
  {
    forall i :: 0 <= i < |s| ==> -b <= s[i] <= b
  }

  // Every limb is a 16-bit digit.
  predicate Digits(s: seq<int64>) {
    forall i :: 0 <= i < |s| ==> 0 <= s[i] < 0x1_0000
  }

  // The form in which Multiply leaves its result.
  predicate Reduced(s: seq<int64>) {
    |s| == 16 && -38 <= s[0] <= 0x1_0025 && Digits(s[1..])
  }

  // The largest limbs that Multiply can square and reduce without overflow.
  const SAFE: int64 := 0x400_0000

  lemma MulFactor(w: int, a: int, b: int, c: int)
    ensures w * (a + b * c) == w * a + b * (w * c)
  {}

  lemma MulAssoc(a: int, b: int, c: int)
    ensures a * b * c == a * (b * c)
    ensures -(a * b) * c == -(a * (b * c))
  {}

  lemma MulBetween(lo: int, x: int, hi: int, w: int)
    requires lo <= x <= hi && w >= 0
    ensures lo * w <= x * w <= hi * w
  {}

  lemma {:induction false} WSum(j: nat, k: nat)
    ensures W(j + k) == W(j) * W(k)
  {
    if j > 0 {
      WSum(j - 1, k);
    }
  }

  lemma W16()
    ensures W(16) == R == 2 * P + 38
  {
    assert W(4) == 0x1_0000_0000_0000_0000;
    WSum(4, 4);
    WSum(8, 8);
  }

  lemma {:induction false} ValUpdate(s: seq<int64>, k: nat, v: int64)
    requires k < |s|
    ensures Val(s[k := v]) == Val(s) + (v as int - s[k] as int) * W(k)
  {
    var n := |s| - 1;
    if k < n {
      ValUpdate(s[..n], k, v);
      assert s[k := v][..n] == s[..n][k := v];
    } else {
      assert s[k := v][..n] == s[..n];
      assert v as int * W(n) == s[n] as int * W(n) + (v as int - s[n] as int) * W(n);
    }
  }

  lemma ValPrefix(s: seq<int64>, n: nat)
    requires n < |s|
    ensures Val(s[..n + 1]) == Val(s[..n]) + s[n] as int * W(n)
  {
    assert s[..n + 1][..n] == s[..n];
  }

  lemma {:induction false} ValAppend(s: seq<int64>, t: seq<int64>)
    ensures Val(s + t) == Val(s) + W(|s|) * Val(t)
  {
    if |t| == 0 {
      assert s + t == s;
    } else {
      var m := |t| - 1;
      ValAppend(s, t[..m]);
      assert (s + t)[..|s| + m] == s + t[..m];
      WSum(|s|, m);
      MulFactor(W(|s|), Val(t[..m]), t[m] as int, W(m));
    }
  }

  lemma {:induction false} DigitsRange(s: seq<int64>)
    requires Digits(s)
    ensures 0 <= Val(s) < W(|s|)
  {
    if |s| > 0 {
      var n := |s| - 1;
      DigitsRange(s[..n]);
      MulBetween(0, s[n] as int, 0xffff, W(n));
    }
  }

  lemma {:induction false} BoundedRange(s: seq<int64>, b: int64)
    requires b >= 0 && Bounded(s, b)
    ensures -(b as int) * W(|s|) <= Val(s) <= b as int * W(|s|)
  {
    if |s| > 0 {
      var n := |s| - 1;
      BoundedRange(s[..n], b);
      MulBetween(-(b as int), s[n] as int, b as int, W(n));
      RangeGrows(b as int, W(n), s[n] as int * W(n), Val(s[..n]));
    }
  }

  lemma RangeGrows(b: int, w: int, x: int, v: int)
    requires b >= 0 && w >= 0
    requires -b * w <= v <= b * w && -b * w <= x <= b * w
    ensures -b * (0x1_0000 * w) <= v + x <= b * (0x1_0000 * w)
  {
    var p := b * w;
    assert p >= 0 && -b * w == 0 - p;
    assert b * (0x1_0000 * w) == 0x1_0000 * p && -b * (0x1_0000 * w) == 0 - 0x1_0000 * p;
  }

  // The first limb against the value, when the others are digits.
  lemma HeadOfVal(s: seq<int64>)
    requires |s| > 0
    ensures Val(s) == s[0] as int + 0x1_0000 * Val(s[1..])
  {
    assert s == s[..1] + s[1..];
    ValAppend(s[..1], s[1..]);
    assert Val(s[..1]) == s[0] as int by { assert s[..1][..0] == []; }
    assert W(1) == 0x1_0000;
  }

  lemma ZeroVal(s: seq<int64>)
    requires forall i :: 0 <= i < |s| ==> s[i] == 0
    ensures Val(s) == 0
  {
    BoundedRange(s, 0);
  }

  /** One pass of carries.  The carry out of the top limb is the value divided by 2^256, rounded
      down, and comes back as 38 times as much in the bottom limb, so the value drops by a multiple
      of 2p. */
  method CarryReduce(dst: array<int64>) returns (ghost out: int)
    requires dst.Length == 16
    requires Bounded(dst[..], 0x4000_0000_0000_0000)
    modifies dst
    ensures out == old(Val(dst[..])) / R
    ensures -0x8000_0000_0000 <= out <= 0x8000_0000_0000
    ensures Val(dst[..]) == old(Val(dst[..])) - 2 * out * P
    ensures 0 <= dst[0] as int - 38 * out < 0x1_0000
    ensures Digits(dst[1..])
    ensures FE(dst[..]) == old(FE(dst[..]))
  {
    ghost var v := Val(dst[..]);
    var i := 0;
    while true
      invariant 0 <= i < 16
      invariant Carrying(dst[..], i, v)
      decreases 16 - i
    {
      ghost var s := dst[..];
      var carry := dst[i] / 0x1_0000;
      dst[i] := dst[i] - carry * 0x1_0000;
      if i == 15 {
        CarryFold(s, v, carry);
        dst[0] := dst[0] + 38 * carry;
        assert dst[..] == s[15 := dst[15]][0 := dst[0]];
        out := carry as int;
        break;
      }
      CarryUp(s, i, v, carry);
      dst[i + 1] := dst[i + 1] + carry;
      assert dst[..] == s[i := dst[i]][i + 1 := dst[i + 1]];
      i := i + 1;
    }
  }

  // The limbs when limb i is the next to be carried: lower limbs are digits, the value is v.
  ghost predicate Carrying(s: seq<int64>, i: nat, v: int) {
    && |s| == 16 && i < 16
    && Val(s) == v
    && Digits(s[..i])
    && -0x4000_8000_0000_0000 <= s[i] <= 0x4000_8000_0000_0000
    && Bounded(s[i + 1..], 0x4000_0000_0000_0000)
  }

  // Moving a carry from one limb to the next keeps the value.
  lemma CarryUp(s: seq<int64>, i: nat, v: int, carry: int64)
    requires i < 15 && Carrying(s, i, v) && carry == s[i] / 0x1_0000
    ensures s[i + 1] == s[i + 1..][0]
    ensures Carrying(s[i := s[i] - carry * 0x1_0000][i + 1 := s[i + 1] + carry], i + 1, v)
  {
    assert s[i + 1] == s[i + 1..][0];
    var t := s[i := s[i] - carry * 0x1_0000];
    var u := t[i + 1 := s[i + 1] + carry];
    ValUpdate(s, i, t[i]);
    ValUpdate(t, i + 1, u[i + 1]);
    MulAssoc(carry as int, 0x1_0000, W(i));
    assert u[i + 2..] == s[i + 1..][1..];
    assert u[..i + 1] == s[..i] + [t[i]];
  }

  // Carrying out of the top limb: the carry is the quotient of the value by 2^256, and folding it
  // back in as 38 times as much takes a multiple of p from the value.
  lemma CarryFold(s: seq<int64>, v: int, carry: int64)
    requires Carrying(s, 15, v) && carry == s[15] / 0x1_0000
    ensures s[0] == s[..15][0]
    ensures carry as int == v / R
    ensures var u := s[15 := s[15] - carry * 0x1_0000][0 := s[0] + 38 * carry];
            Val(u) == v - 2 * carry as int * P && FE(u) == v % P && Digits(u[1..])
  {
    assert s[0] == s[..15][0];
    var t := s[15 := s[15] - carry * 0x1_0000];
    var u := t[0 := s[0] + 38 * carry];
    SplitLast(s, t, u);
    CarryFoldVal(s, t, u, v, carry as int);
  }

  lemma CarryFoldVal(s: seq<int64>, t: seq<int64>, u: seq<int64>, v: int, carry: int)
    requires |s| == |t| == |u| == 16 && Val(s) == v && Digits(t)
    requires t == s[15 := t[15]] && t[15] as int == s[15] as int - carry * 0x1_0000
    requires u == t[0 := u[0]] && u[0] as int == t[0] as int + 38 * carry
    ensures carry == v / R && Val(u) == v - 2 * carry * P && FE(u) == v % P
  {
    hide Val, W;
    ValUpdate(s, 15, t[15]);
    DigitsRange(t);
    CarryQuotient(v, Val(t), carry);
    ValUpdate(t, 0, u[0]);
    WZero();
  }

  lemma SplitLast(s: seq<int64>, t: seq<int64>, u: seq<int64>)
    requires |s| == |t| == |u| == 16 && Digits(s[..15]) && 0 <= t[15] < 0x1_0000
    requires t[..15] == s[..15] && u[1..] == t[1..]
    ensures Digits(t) && Digits(u[1..])
  {
    assert t == t[..15] + [t[15]];
    assert forall i | 0 <= i < 15 :: u[1..][i] == t[i + 1];
  }

  lemma WZero()
    ensures W(0) == 1
  {}

  lemma CarryQuotient(v: int, r: int, carry: int)
    requires r == v - carry * 0x1_0000 * W(15) && 0 <= r < W(16)
    ensures carry == v / R
    ensures r + 38 * carry == v - 2 * carry * P
    ensures (v - 2 * carry * P) % P == v % P
  {
    MulAssoc(carry, 0x1_0000, W(15));
    assert W(16) == 0x1_0000 * W(15);
    hide W;
    W16();
    QuotientUnique(v, carry, r, R);
    ModShift(v, -2 * carry);
  }

  // After one pass of carries the next pass carries out at most one, either way.
  lemma NextCarry(s: seq<int64>, c: int)
    requires |s| == 16 && Digits(s[1..]) && 0 <= s[0] as int - 38 * c < 0x1_0000
    requires -0x8000_0000_0000 <= c <= 0x8000_0000_0000
    ensures 38 * c <= Val(s) < R + 38 * c
    ensures -1 <= Val(s) / R <= 1
    ensures Bounded(s, 0x4000_0000_0000_0000)
  {
    HeadOfVal(s);
    DigitsRange(s[1..]);
    W16();
    assert W(16) == 0x1_0000 * W(15);
    assert forall i | 1 <= i < 16 :: s[i] == s[1..][i - 1];
  }

  // The schoolbook product after row i up to column j: its value, and the size of its columns.
  ghost predicate RowVal(p: seq<int64>, a: seq<int64>, b: seq<int64>, i: nat, j: nat) {
    && |p| == 31 && |a| == |b| == 16 && i <= 16 && j <= 16 && (i == 16 ==> j == 0)
    && Val(p) == Val(a[..i]) * Val(b) + (if i < 16 then a[i] as int * (W(i) * Val(b[..j])) else 0)
  }

  predicate RowRange(p: seq<int64>, i: nat, j: nat) {
    forall k :: 0 <= k < |p| ==> InRange(p[k], if i <= k < i + j then i + 1 else i)
  }

  predicate InRange(x: int64, n: int) {
    -n * 0x10_0000_0000_0000 <= x as int <= n * 0x10_0000_0000_0000
  }

  lemma ProductRange(u: int, v: int)
    requires -0x400_0000 <= u <= 0x400_0000 && -0x400_0000 <= v <= 0x400_0000
    ensures -0x10_0000_0000_0000 <= u * v <= 0x10_0000_0000_0000
  {
    if v >= 0 {
      MulBetween(-0x400_0000, u, 0x400_0000, v);
    } else {
      MulBetween(-0x400_0000, u, 0x400_0000, -v);
      assert u * v == -(u * -v);
    }
  }

  lemma RowStep(p: seq<int64>, a: seq<int64>, b: seq<int64>, i: nat, j: nat, v: int64)
    requires i < 16 && j < 16 && RowVal(p, a, b, i, j)
    requires v as int == p[i + j] as int + a[i] as int * b[j] as int
    ensures RowVal(p[i + j := v], a, b, i, j + 1)
  {
    hide Val, W;
    ValUpdate(p, i + j, v);
    WSum(i, j);
    ValPrefix(b, j);
    RowAlgebra(v as int - p[i + j] as int, a[i] as int, b[j] as int, W(i), W(j), W(i + j), Val(b[..j]));
  }

  lemma RowAlgebra(d: int, x: int, y: int, wi: int, wj: int, w: int, v: int)
    requires d == x * y && w == wi * wj
    ensures x * (wi * v) + d * w == x * (wi * (v + y * wj))
  {
    calc {
      x * (wi * (v + y * wj));
      { MulFactor(wi, v, y, wj); }
      x * (wi * v + y * w);
      { assert x * (y * w) == d * w; }
      x * (wi * v) + d * w;
    }
  }

  lemma RowEnd(p: seq<int64>, a: seq<int64>, b: seq<int64>, i: nat)
    requires i < 16 && RowVal(p, a, b, i, 16)
    ensures RowVal(p, a, b, i + 1, 0)
  {
    assert b[..16] == b && b[..0] == [];
    assert a[..i + 1][..i] == a[..i];
    RowEndAlgebra(Val(a[..i]), a[i] as int, W(i), Val(b));
    assert i + 1 < 16 ==> a[i + 1] as int * (W(i + 1) * Val(b[..0])) == 0;
  }

  lemma RowEndAlgebra(u: int, x: int, w: int, v: int)
    ensures (u + x * w) * v == u * v + x * (w * v)
  {}

  // The product after the first i limbs of the high half have been added to the low half.
  predicate Folded(q: seq<int64>, p: seq<int64>, i: nat) {
    && |q| == |p| == 31 && i <= 15
    && (forall k :: 0 <= k < i ==> q[k] as int == p[k] as int + 38 * p[k + 16] as int)
    && (forall k :: i <= k < 31 ==> q[k] == p[k])
  }

  lemma FoldTerm(x: int, y: int, w: int)
    ensures (x + 38 * y) * w == x * w + 38 * (y * w)
  {}

  lemma {:induction false} FoldVal(q: seq<int64>, p: seq<int64>, n: nat)
    requires Folded(q, p, 15) && n <= 15
    ensures Val(q[..n]) == Val(p[..n]) + 38 * Val(p[16..16 + n])
  {
    if n > 0 {
      FoldVal(q, p, n - 1);
      assert q[..n][..n - 1] == q[..n - 1] && p[..n][..n - 1] == p[..n - 1];
      assert p[16..16 + n][..n - 1] == p[16..15 + n];
      FoldTerm(p[n - 1] as int, p[n + 15] as int, W(n - 1));
    }
  }

  // 2^256 counts as 38, so the folded low half is congruent to the whole product.
  lemma FoldEnd(q: seq<int64>, p: seq<int64>, v: int)
    requires Folded(q, p, 15) && Val(p) == v
    ensures FE(q[..16]) == v % P
  {
    hide Val, W;
    FoldVal(q, p, 15);
    ValPrefix(q, 15);
    ValPrefix(p, 15);
    assert p == p[..16] + p[16..31];
    ValAppend(p[..16], p[16..31]);
    W16();
    FoldAlgebra(Val(p[..16]), Val(p[16..31]));
  }

  lemma FoldAlgebra(lo: int, hi: int)
    ensures (lo + 38 * hi) % P == (lo + R * hi) % P
  {
    ModShift(lo + 38 * hi, 2 * hi);
    assert R * hi == 38 * hi + 2 * hi * P;
  }

  lemma FoldRange(q: seq<int64>, p: seq<int64>)
    requires Folded(q, p, 15)
    requires RowRange(p, 16, 0)
    ensures Bounded(q[..16], 0x4000_0000_0000_0000)
  {
    forall k | 0 <= k < 16 ensures -0x4000_0000_0000_0000 <= q[k] <= 0x4000_0000_0000_0000 {
      assert InRange(p[k], 16);
      if k < 15 {
        assert InRange(p[k + 16], 16);
      }
    }
  }

  /** The product of two elements, reduced by two passes of carries. */
  method Multiply(dst: array<int64>, a: array<int64>, b: array<int64>)
    requires dst.Length == 16 && a.Length == 16 && b.Length == 16
    requires Bounded(a[..], SAFE) && Bounded(b[..], SAFE)
    modifies dst
    ensures Reduced(dst[..])
    ensures FE(dst[..]) == FMul(old(FE(a[..])), old(FE(b[..])))
  {
    hide Val, FE, FMul;
    ghost var sa, sb := a[..], b[..];
    var product := Schoolbook(a, b);
    assert a[..] == sa && b[..] == sb;
    FoldHigh(product);
    ghost var low := product[..16];
    for i := 0 to 16
      modifies dst
      invariant dst[..i] == low[..i]
    {
      dst[i] := product[i];
    }
    assert dst[..] == low;
    ghost var c := CarryReduce(dst);
    NextCarry(dst[..], c);
    c := CarryReduce(dst);
  }

  // The second loop of `multiply`: the high half, times 38, is added to the low half.
  method FoldHigh(product: array<int64>)
    requires product.Length == 31 && RowRange(product[..], 16, 0)
    modifies product
    ensures FE(product[..16]) == old(Val(product[..])) % P
    ensures Bounded(product[..16], 0x4000_0000_0000_0000)
  {
    hide Val, FE;
    ghost var p := product[..];
    for i := 0 to 15
      invariant Folded(product[..], p, i)
    {
      assert InRange(p[i], 16) && InRange(p[i + 16], 16);
      product[i] := product[i] + 38 * product[i + 16];
    }
    FoldEnd(product[..], p, Val(p));
    FoldRange(product[..], p);
    assert product[..][..16] == product[..16];
  }

  // The double loop of `multiply`: all 31 columns of the product, unreduced.
  method Schoolbook(a: array<int64>, b: array<int64>) returns (product: array<int64>)
    requires a.Length == 16 && b.Length == 16
    requires Bounded(a[..], SAFE) && Bounded(b[..], SAFE)
    ensures fresh(product) && product.Length == 31
    ensures Val(product[..]) % P == FMul(FE(a[..]), FE(b[..]))
    ensures RowRange(product[..], 16, 0)
  {
    product := new int64[31](_ => 0);
    ZeroVal(product[..]);
    assert RowVal(product[..], a[..], b[..], 0, 0);
    hide Val, RowVal;
    for i := 0 to 16
      invariant fresh(product) && RowVal(product[..], a[..], b[..], i, 0) && RowRange(product[..], i, 0)
    {
      for j := 0 to 16
        invariant fresh(product) && RowVal(product[..], a[..], b[..], i, j) && RowRange(product[..], i, j)
      {
        ghost var s := product[..];
        ProductRange(a[i] as int, b[j] as int);
        assert InRange(s[i + j], i);
        product[i + j] := product[i + j] + a[i] * b[j];
        RowStep(s, a[..], b[..], i, j, product[i + j]);
        assert product[..] == s[i + j := product[i + j]];
      }
      RowEnd(product[..], a[..], b[..], i);
    }
    RowFinish(product[..], a[..], b[..]);
  }

  lemma RowFinish(p: seq<int64>, a: seq<int64>, b: seq<int64>)
    requires RowVal(p, a, b, 16, 0)
    ensures Val(p) % P == FMul(FE(a), FE(b))
  {
    assert a[..16] == a;
    FMulMod(Val(a), Val(b));
  }
}
