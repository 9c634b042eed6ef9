/** What the ladder computes: multiples of a point of the curve v^2 = u^3 + 486662 u^2 + u, by the
    doubling and the differential addition of its u-coordinates. A coordinate is a quotient x / z. */
module Montgomery {
  import opened Field
  import opened MachineInt
  import opened Rfc7748

  datatype Point = Point(x: int, z: int)

  function Square(a: int): int { a * a }

  // The u-coordinate of twice a point.
  function Double(p: Point): Point {
    Point(Square(p.x * p.x - p.z * p.z) % P,
          4 * (p.x * p.z) * (p.x * p.x + 486662 * (p.x * p.z) + p.z * p.z) % P)
  }

  // The u-coordinate of the sum of two points whose difference has the u-coordinate u.
  function AddDiff(u: int, p: Point, q: Point): Point {
    Point(4 * Square(p.x * q.x - p.z * q.z) % P, u * (4 * Square(p.x * q.z - p.z * q.x)) % P)
  }

  // ---- One step ----

  lemma ReduceFactor(a: int, b: int)
    ensures FMul(a, b % P) == a * b % P
  {
    FMulMod(a, b % P);
    FMulMod(a, b);
    assert b % P % P == b % P;
  }

  lemma DoubleAlgebra(x: int, z: int)
    ensures var a, b := x + z, x - z;
            a * a - b * b == 4 * (x * z) && (a * a) * (b * b) == Square(x * x - z * z)
            && a * a + 121665 * (4 * (x * z)) == x * x + 486662 * (x * z) + z * z
  {
    var a, b := x + z, x - z;
    assert a * a == x * x + 2 * (x * z) + z * z;
    assert b * b == x * x - 2 * (x * z) + z * z;
    assert a * b == x * x - z * z;
    assert (a * a) * (b * b) == (a * b) * (a * b);
  }

  lemma AddAlgebra(x: int, z: int, y: int, w: int)
    ensures (y - w) * (x + z) + (y + w) * (x - z) == 2 * (x * y - z * w)
    ensures (y - w) * (x + z) - (y + w) * (x - z) == 2 * (z * y - x * w)
  {
    assert (y - w) * (x + z) == x * y + z * y - x * w - z * w;
    assert (y + w) * (x - z) == x * y - z * y + x * w - z * w;
  }

  lemma TwiceSquared(a: int, b: int)
    ensures (2 * a) * (2 * a) == 4 * Square(a) && Square(a - b) == Square(b - a)
  {}

  lemma Together(x1: int, s: Ladder, da: int, cb: int)
    requires FMul(FSub(s.x3, s.z3), FAdd(s.x2, s.z2)) == da % P && FMul(FAdd(s.x3, s.z3), FSub(s.x2, s.z2)) == cb % P
    requires FAdd(da % P, cb % P) == (da + cb) % P && FSub(da % P, cb % P) == (da - cb) % P
    requires FMul((da + cb) % P, (da + cb) % P) == (da + cb) * (da + cb) % P
    requires FMul((da - cb) % P, (da - cb) % P) == (da - cb) * (da - cb) % P
    requires FMul(x1, (da - cb) * (da - cb) % P) == x1 * ((da - cb) * (da - cb)) % P
    ensures var t := LadderStep(x1, s); t.x3 == (da + cb) * (da + cb) % P && t.z3 == x1 * ((da - cb) * (da - cb)) % P
  {
    hide FMul, FAdd, FSub;
  }

  lemma FirstTogether(x1: int, s: Ladder, aa: int, bb: int, e: int)
    requires FMul(FAdd(s.x2, s.z2), FAdd(s.x2, s.z2)) == aa % P && FMul(FSub(s.x2, s.z2), FSub(s.x2, s.z2)) == bb % P
    requires FSub(aa % P, bb % P) == e % P && FMul(aa % P, bb % P) == aa * bb % P
    requires FMul(A24, e % P) == 121665 * e % P && FAdd(aa % P, 121665 * e % P) == (aa + 121665 * e) % P
    requires FMul(e % P, (aa + 121665 * e) % P) == e * (aa + 121665 * e) % P
    ensures var t := LadderStep(x1, s); t.x2 == aa * bb % P && t.z2 == e * (aa + 121665 * e) % P
  {
    hide FMul, FAdd, FSub;
  }

  /** One step of the ladder doubles its first point and adds its second to it, for every state and every
      difference. */
  lemma StepMeaning(x1: int, s: Ladder)
    ensures var t := LadderStep(x1, s);
            Point(t.x2, t.z2) == Double(Point(s.x2, s.z2))
            && Point(t.x3, t.z3) == AddDiff(x1, Point(s.x2, s.z2), Point(s.x3, s.z3))
  {
    var t := LadderStep(x1, s);
    var x, z, y, w := s.x2, s.z2, s.x3, s.z3;
    hide LadderStep;
    assert Point(t.x2, t.z2) == Double(Point(x, z)) by {
      var a, b, e := x + z, x - z, 4 * (x * z);
      FMulMod(a, a);
      FMulMod(b, b);
      DoubleAlgebra(x, z);
      FSubMod(a * a, b * b);
      FMulMod(a * a, b * b);
      assert 121665 % P == 121665;
      FMulMod(121665, e);
      FAddMod(a * a, 121665 * e);
      FMulMod(e, a * a + 121665 * e);
      FirstTogether(x1, s, a * a, b * b, e);
    }
    assert Point(t.x3, t.z3) == AddDiff(x1, Point(x, z), Point(y, w)) by {
      var da, cb := (y - w) * (x + z), (y + w) * (x - z);
      FMulMod(y - w, x + z);
      FMulMod(y + w, x - z);
      FAddMod(da, cb);
      FSubMod(da, cb);
      FMulMod(da + cb, da + cb);
      FMulMod(da - cb, da - cb);
      ReduceFactor(x1, (da - cb) * (da - cb));
      AddAlgebra(x, z, y, w);
      TwiceSquared(x * y - z * w, 0);
      TwiceSquared(z * y - x * w, 0);
      TwiceSquared(z * y, x * w);
      Together(x1, s, da, cb);
    }
  }

  // ---- Points up to a factor ----

  // The same quotient, expanded by l.
  predicate Expanded(p: Point, q: Point, l: int) { p.x % P == l * q.x % P && p.z % P == l * q.z % P }

  lemma MulCong(a: int, b: int, c: int, d: int)
    requires a % P == b % P && c % P == d % P
    ensures a * c % P == b * d % P
  {
    FMulMod(a, c);
    FMulMod(b, d);
  }

  lemma SumCong(a: int, b: int, c: int, d: int)
    requires a % P == b % P && c % P == d % P
    ensures (a + c) % P == (b + d) % P && (a - c) % P == (b - d) % P
  {
    FAddMod(a, c);
    FAddMod(b, d);
    FSubMod(a, c);
    FSubMod(b, d);
  }

  lemma Factors(l: int, a: int, m: int, b: int)
    ensures (l * a) * (m * b) == (l * m) * (a * b)
  {}

  lemma Common(l: int, a: int, b: int)
    ensures l * a + l * b == l * (a + b) && l * a - l * b == l * (a - b)
  {}

  // A product of two expanded coordinates.
  lemma ProductExpanded(a: int, l: int, x: int, b: int, m: int, y: int)
    requires a % P == l * x % P && b % P == m * y % P
    ensures a * b % P == (l * m) * (x * y) % P
  {
    MulCong(a, l * x, b, m * y);
    Factors(l, x, m, y);
  }

  lemma ResidueExpanded(a: int, l: int, x: int)
    requires a % P == l * x % P
    ensures a % P % P == l * (x % P) % P
  {
    assert a % P % P == a % P;
    MulCong(l, l, x % P, x);
  }

  lemma DoubleExpanded(p: Point, q: Point, l: int)
    requires Expanded(p, q, l)
    ensures Expanded(Double(p), Double(q), (l * l) * (l * l))
  {
    var (a, b, x, z) := (p.x, p.z, q.x, q.z);
    var ll := l * l;
    ProductExpanded(a, l, x, a, l, x);
    ProductExpanded(b, l, z, b, l, z);
    ProductExpanded(a, l, x, b, l, z);
    SumCong(a * a, ll * (x * x), b * b, ll * (z * z));
    Common(ll, x * x, z * z);
    ProductExpanded(a * a - b * b, ll, x * x - z * z, a * a - b * b, ll, x * x - z * z);
    ResidueExpanded(Square(a * a - b * b), ll * ll, Square(x * x - z * z));
    MulCong(486662, 486662, a * b, ll * (x * z));
    Factors(1, 486662, ll, x * z);
    MulCong(4, 4, a * b, ll * (x * z));
    Factors(1, 4, ll, x * z);
    SumCong(a * a, ll * (x * x), 486662 * (a * b), ll * (486662 * (x * z)));
    Common(ll, x * x, 486662 * (x * z));
    SumCong(a * a + 486662 * (a * b), ll * (x * x + 486662 * (x * z)), b * b, ll * (z * z));
    Common(ll, x * x + 486662 * (x * z), z * z);
    var (m, n) := (a * a + 486662 * (a * b) + b * b, x * x + 486662 * (x * z) + z * z);
    ProductExpanded(4 * (a * b), ll, 4 * (x * z), m, ll, n);
    ResidueExpanded(4 * (a * b) * m, ll * ll, 4 * (x * z) * n);
  }

  lemma AddExpanded(u: int, p: Point, q: Point, p': Point, q': Point, l: int, m: int)
    requires Expanded(p, q, l) && Expanded(p', q', m)
    ensures Expanded(AddDiff(u, p, p'), AddDiff(u, q, q'), (l * m) * (l * m))
  {
    var lm := l * m;
    var (a, x) := (p.x * p'.x - p.z * p'.z, q.x * q'.x - q.z * q'.z);
    var (b, y) := (p.x * p'.z - p.z * p'.x, q.x * q'.z - q.z * q'.x);
    assert a % P == lm * x % P by {
      ProductExpanded(p.x, l, q.x, p'.x, m, q'.x);
      ProductExpanded(p.z, l, q.z, p'.z, m, q'.z);
      SumCong(p.x * p'.x, lm * (q.x * q'.x), p.z * p'.z, lm * (q.z * q'.z));
      Common(lm, q.x * q'.x, q.z * q'.z);
    }
    assert b % P == lm * y % P by {
      ProductExpanded(p.x, l, q.x, p'.z, m, q'.z);
      ProductExpanded(p.z, l, q.z, p'.x, m, q'.x);
      SumCong(p.x * p'.z, lm * (q.x * q'.z), p.z * p'.x, lm * (q.z * q'.x));
      Common(lm, q.x * q'.z, q.z * q'.x);
    }
    ProductExpanded(a, lm, x, a, lm, x);
    ProductExpanded(b, lm, y, b, lm, y);
    MulCong(4, 4, a * a, (lm * lm) * (x * x));
    Factors(1, 4, lm * lm, x * x);
    MulCong(4, 4, b * b, (lm * lm) * (y * y));
    Factors(1, 4, lm * lm, y * y);
    MulCong(u, u, 4 * (b * b), (lm * lm) * (4 * (y * y)));
    Factors(1, u, lm * lm, 4 * (y * y));
    ResidueExpanded(4 * Square(a), lm * lm, 4 * Square(x));
    ResidueExpanded(u * (4 * Square(b)), lm * lm, u * (4 * Square(y)));
  }

  // ---- The multiples of a point ----

  /** The u-coordinate of n times the point with the u-coordinate u. Nothing but doubling and adding: the
      point of infinity is (1 : 0), and 2n + 1 times the point is n + 1 times and n times it together. */
  function Multiple(u: int, n: nat): Point {
    if n == 0 then Point(1, 0)
    else if n == 1 then Point(u, 1)
    else if n % 2 == 0 then Double(Multiple(u, n / 2))
    else AddDiff(u, Multiple(u, n / 2), Multiple(u, n / 2 + 1))
  }

  // A power of two times a power of u: the factors that coordinates are expanded by.
  ghost predicate Factor(u: int, l: int) { exists a: nat, b: nat :: l == Pow(2, a) * Pow(u, b) }

  lemma FactorProduct(u: int, l: int, m: int)
    requires Factor(u, l) && Factor(u, m)
    ensures Factor(u, l * m)
  {
    var a: nat, b: nat :| l == Pow(2, a) * Pow(u, b);
    var c: nat, d: nat :| m == Pow(2, c) * Pow(u, d);
    PowSum(2, a, c);
    PowSum(u, b, d);
    Factors(Pow(2, a), Pow(u, b), Pow(2, c), Pow(u, d));
    assert l * m == Pow(2, a + c) * Pow(u, b + d);
  }

  lemma FactorOne(u: int)
    ensures Factor(u, 1) && Factor(u, 4 * u)
  {
    assert Pow(2, 0) * Pow(u, 0) == 1;
    assert Pow(2, 2) == 4 && Pow(u, 1) == u * Pow(u, 0) == u;
    assert Pow(2, 2) * Pow(u, 1) == 4 * u;
  }

  // Of a point on both sides of the ladder: n times and n + 1 times the base.
  ghost predicate Holds(u: int, n: nat, p: Point, q: Point) {
    exists l, m :: Factor(u, l) && Factor(u, m) && Expanded(p, Multiple(u, n), l) && Expanded(q, Multiple(u, n + 1), m)
  }

  lemma DoubleOfMultiple(u: int, n: nat)
    ensures Double(Multiple(u, n)) == Multiple(u, 2 * n)
  {
    if n > 0 {
      assert 2 * n / 2 == n && 2 * n % 2 == 0;
    }
  }

  // Two neighbours make the odd multiple; the first two make the point itself, expanded by 4u.
  lemma SumOfMultiples(u: int, n: nat)
    ensures Expanded(AddDiff(u, Multiple(u, n), Multiple(u, n + 1)), Multiple(u, 2 * n + 1), if n == 0 then 4 * u else 1)
  {
    hide AddDiff;
    if n > 0 {
      assert (2 * n + 1) / 2 == n && (2 * n + 1) % 2 == 1;
      var s := AddDiff(u, Multiple(u, n), Multiple(u, n + 1));
      assert 1 * s.x == s.x && 1 * s.z == s.z;
    } else {
      FirstSum(u);
    }
  }

  lemma FirstSum(u: int)
    ensures Expanded(AddDiff(u, Point(1, 0), Point(u, 1)), Point(u, 1), 4 * u)
  {
    hide Square;
    FirstSquares(u);
    Twice(4 * u * u);
    Twice(4 * u * 1);
  }

  lemma FirstSquares(u: int)
    ensures 4 * Square(1 * u - 0 * 1) == 4 * u * u && u * (4 * Square(1 * 1 - 0 * u)) == 4 * u * 1
  {}

  lemma Twice(a: int)
    ensures a % P % P == a % P
  {}

  lemma ExpandedTwice(p: Point, q: Point, r: Point, l: int, m: int)
    requires Expanded(p, q, l) && Expanded(q, r, m)
    ensures Expanded(p, r, l * m)
  {
    MulCong(l, l, q.x, m * r.x);
    MulCong(l, l, q.z, m * r.z);
    assert l * (m * r.x) == l * m * r.x && l * (m * r.z) == l * m * r.z;
  }

  lemma FactorSquared(u: int, l: int)
    requires Factor(u, l)
    ensures Factor(u, (l * l) * (l * l))
  {
    hide Factor;
    FactorProduct(u, l, l);
    FactorProduct(u, l * l, l * l);
  }

  lemma SumHolds(u: int, n: nat, p: Point, q: Point, l: int, m: int) returns (f: int)
    requires Factor(u, l) && Factor(u, m) && Expanded(p, Multiple(u, n), l) && Expanded(q, Multiple(u, n + 1), m)
    ensures Factor(u, f) && Expanded(AddDiff(u, p, q), Multiple(u, 2 * n + 1), f)
  {
    hide AddDiff, Factor, Expanded, Multiple;
    FactorOne(u);
    FactorProduct(u, l, m);
    FactorProduct(u, l * m, l * m);
    var g := if n == 0 then 4 * u else 1;
    f := (l * m) * (l * m) * g;
    FactorProduct(u, (l * m) * (l * m), g);
    AddExpanded(u, p, Multiple(u, n), q, Multiple(u, n + 1), l, m);
    SumOfMultiples(u, n);
    ExpandedTwice(AddDiff(u, p, q), AddDiff(u, Multiple(u, n), Multiple(u, n + 1)), Multiple(u, 2 * n + 1), (l * m) * (l * m), g);
  }

  // The three points that a step makes out of two.
  lemma StepHolds(u: int, n: nat, p: Point, q: Point)
    requires Holds(u, n, p, q)
    ensures Holds(u, 2 * n, Double(p), AddDiff(u, p, q)) && Holds(u, 2 * n + 1, AddDiff(u, p, q), Double(q))
  {
    var l, m :| Factor(u, l) && Factor(u, m) && Expanded(p, Multiple(u, n), l) && Expanded(q, Multiple(u, n + 1), m);
    FactorSquared(u, l);
    DoubleExpanded(p, Multiple(u, n), l);
    DoubleOfMultiple(u, n);
    FactorSquared(u, m);
    DoubleExpanded(q, Multiple(u, n + 1), m);
    DoubleOfMultiple(u, n + 1);
    var f := SumHolds(u, n, p, q, l, m);
    hide Double, AddDiff, Factor, Expanded, Multiple;
    assert 2 * (n + 1) == 2 * n + 1 + 1;
  }

  // A sum does not depend on the order.
  lemma AddSymmetric(u: int, p: Point, q: Point)
    ensures AddDiff(u, p, q) == AddDiff(u, q, p)
  {
    TwiceSquared(p.x * q.z, p.z * q.x);
    assert p.x * q.x == q.x * p.x && p.z * q.z == q.z * p.z && p.x * q.z == q.z * p.x && p.z * q.x == q.x * p.z;
  }

  // ---- The loop ----

  // The number that the bits from t up to, and without, top of k make.
  function Bits(k: nat, t: nat, top: nat): nat
    requires t <= top
    decreases top - t
  {
    if t == top then 0 else 2 * Bits(k, t + 1, top) + if Bit(k, t) then 1 else 0
  }

  lemma {:induction false} BitsOfHalf(k: nat, t: nat, top: nat)
    requires t <= top
    ensures Bits(k, t + 1, top + 1) == Bits(k / 2, t, top)
    decreases top - t
  {
    if t < top {
      BitsOfHalf(k, t + 1, top);
    }
  }

  lemma {:induction false} AllBits(k: nat, top: nat)
    ensures Bits(k, 0, top) == k % Pow2(top)
  {
    if top == 0 {
      assert k % 1 == 0;
    } else {
      BitsOfHalf(k, 0, top - 1);
      AllBits(k / 2, top - 1);
      HalfRemainder(k, Pow2(top - 1));
    }
  }

  lemma HalfRemainder(k: nat, m: nat)
    requires m > 0
    ensures k % (2 * m) == 2 * (k / 2 % m) + k % 2
  {
    var h := k / 2;
    assert h == m * (h / m) + h % m;
    assert k == (h / m) * (2 * m) + (2 * (h % m) + k % 2);
    QuotientUnique(k, h / m, 2 * (h % m) + k % 2, 2 * m);
  }

  lemma {:induction false} LoopHolds(k: nat, u: int, t: nat)
    requires t <= 255
    ensures var s := EagerLoop(k, u, t); Holds(u, Bits(k, t, 255), Point(s.x2, s.z2), Point(s.x3, s.z3))
    decreases 255 - t
  {
    if t == 255 {
      Start(u);
    } else {
      LoopHolds(k, u, t + 1);
      hide Holds, LadderStep, CSwap;
      IterationHolds(u, Bits(k, t + 1, 255), EagerLoop(k, u, t + 1), Bit(k, t));
    }
  }

  // An iteration: swap, step and swap back.
  lemma IterationHolds(u: int, n: nat, s: Ladder, bit: bool)
    requires Holds(u, n, Point(s.x2, s.z2), Point(s.x3, s.z3))
    ensures var t := CSwap(bit, LadderStep(u, CSwap(bit, s)));
            Holds(u, 2 * n + if bit then 1 else 0, Point(t.x2, t.z2), Point(t.x3, t.z3))
  {
    hide Holds, LadderStep, Double, AddDiff;
    var p, q := Point(s.x2, s.z2), Point(s.x3, s.z3);
    StepMeaning(u, s);
    StepMeaning(u, CSwap(true, s));
    AddSymmetric(u, p, q);
    StepHolds(u, n, p, q);
  }

  lemma Start(u: int)
    ensures Holds(u, 0, Point(1, 0), Point(u, 1))
  {
    FactorOne(u);
    hide Factor;
    assert Expanded(Point(1, 0), Multiple(u, 0), 1) && Expanded(Point(u, 1), Multiple(u, 1), 1);
  }

  /** The ladder ends with the multiple of the point that the lower 255 bits of the scalar tell, expanded
      by a power of two times a power of u. */
  lemma LadderMultiplies(k: nat, u: int) returns (l: int)
    ensures var d := DeferredLoop(k, u, 0);
            var s := CSwap(d.swap, d.state);
            Factor(u, l) && Expanded(Point(s.x2, s.z2), Multiple(u, k % Pow2(255)), l)
  {
    hide EagerLoop, DeferredLoop, Multiple, Expanded, Factor, Pow2, Bits;
    LoopHolds(k, u, 0);
    EagerIsDeferred(k, u, 0);
    AllBits(k, 255);
    var s, n := EagerLoop(k, u, 0), k % Pow2(255);
    var m;
    l, m :| Factor(u, l) && Factor(u, m) && Expanded(Point(s.x2, s.z2), Multiple(u, n), l)
            && Expanded(Point(s.x3, s.z3), Multiple(u, n + 1), m);
  }

  // ---- The quotient ----

  lemma {:induction false} PowOfProduct(a: int, b: int, e: nat)
    ensures Pow(a * b, e) == Pow(a, e) * Pow(b, e)
  {
    if e > 0 {
      PowOfProduct(a, b, e - 1);
      Factors(a, b, Pow(a, e - 1), Pow(b, e - 1));
    }
  }

  // What z^(e+1) = 1 makes the power e worth.
  lemma InverseUndone(x: int, z: int, e: nat)
    requires FPow(z, e + 1) == 1
    ensures FMul(x, FPow(z, e)) * z % P == x % P
  {
    var i := Pow(z, e);
    PowSum(z, e, 1);
    PowOne(z);
    hide Pow;
    Twice(x * i);
    ReduceFactor(x, i);
    MulCong(x * i % P, x * i, z, z);
    assert x * i * z == x * (i * z);
    MulCong(x, x, i * z, 1);
  }

  lemma PowOne(z: int)
    ensures Pow(z, 1) == z
  {}

  // A factor of something that has an inverse has one.
  lemma FactorInverse(l: int, m: int, e: nat) returns (w: int)
    requires FPow(l * m, e + 1) == 1
    ensures w * l % P == 1
  {
    PowOfProduct(l, m, e + 1);
    PowSum(l, e, 1);
    PowOne(l);
    hide Pow;
    var a, b := Pow(l, e), Pow(m, e + 1);
    w := a * b;
    assert Pow(l * m, e + 1) == (a * l) * b == w * l;
  }

  /** The result of X25519 is the quotient of the coordinates of that multiple, wherever the denominator has
      the inverse that the power p - 2 is meant for. */
  lemma ResultIsQuotient(k: nat, u: nat)
    ensures var d := DeferredLoop(k, u % P, 0);
            var m := Multiple(u % P, k % Pow2(255));
            FPow(CSwap(d.swap, d.state).z2, P - 1) == 1 ==> X25519(k, u) * m.z % P == m.x % P
  {
    hide DeferredLoop, Multiple, Factor, FPow, Pow2;
    var d := DeferredLoop(k, u % P, 0);
    var s := CSwap(d.swap, d.state);
    if FPow(s.z2, P - 1) == 1 {
      var l := LadderMultiplies(k, u % P);
      var m, r := Multiple(u % P, k % Pow2(255)), X25519(k, u);
      InverseUndone(s.x2, s.z2, P - 2);
      SamePower(s.z2, l * m.z, P - 1);
      MulCong(r, r, s.z2, l * m.z);
      assert r * (l * m.z) == l * (r * m.z);
      var w := FactorInverse(l, m.z, P - 2);
      var a, b := r * m.z, m.x;
      MulCong(w, w, l * a, l * b);
      assert w * (l * a) == w * l * a && w * (l * b) == w * l * b;
      MulCong(w * l, 1, a, a);
      MulCong(w * l, 1, b, b);
    }
  }

  lemma SamePower(a: int, b: int, e: nat)
    requires a % P == b % P
    ensures FPow(a, e) == FPow(b, e)
  {
    FPowMod(a, e);
    FPowMod(b, e);
  }
}
