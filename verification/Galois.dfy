/** Arithmetic in the field of AES: bytes as polynomials modulo x^8 + x^4 + x^3 + x + 1. */
module Galois {
  import opened SubstitutionBox

  // Multiplication by x, section 4.2.1 of FIPS 197.
  function Xtime(b: bv8): bv8 {
    (b << 1) ^ (if b & 0x80 == 0 then 0 else 0x1b)
  }

  // Addition of polynomials.
  function Plus(a: bv8, b: bv8): bv8 { a ^ b }

  // The product of two bytes, over the low n bits of y.
  function Product(n: nat, b: bv8, y: bv8): bv8 {
    if n == 0 then 0 else Plus(if y & 1 == 0 then 0 else b, Product(n - 1, Xtime(b), y >> 1))
  }

  // `gfmul`: multiplication by a four-bit factor, reduced by a table indexed by the carries.
  function Gfmul(x: bv8, y: bv8): bv8 {
    var w, v := x as bv16, y as bv16;
    var r := (w * (v & 0x1)) ^ (w * (v & 0x2)) ^ (w * (v & 0x4)) ^ (w * (v & 0x8));
    ((r & 0xff) as bv8) ^ Reduction((r >> 8) as bv8)
  }

  function Reduction(i: bv8): bv8 {
    match i
    case 0 => 0x00 case 1 => 0x1b case 2 => 0x36 case 3 => 0x2d
    case 4 => 0x6c case 5 => 0x77 case 6 => 0x5a case _ => 0x41
  }

  function Term(b: bv8, y: bv8): bv8 { if y == 0 then 0 else b }

  lemma ProductStep(b: bv8, y: bv8, n: nat)
    ensures Product(n + 1, b, y) == Plus(Term(b, y & 1), Product(n, Xtime(b), y >> 1))
  {}

  lemma {:induction false} ProductZero(n: nat, b: bv8)
    ensures Product(n, b, 0) == 0
  {
    if n > 0 {
      ProductZero(n - 1, Xtime(b));
    }
  }

  // The terms of a product for four bits of y, added to the rest.
  function FourTerms(b: bv8, y: bv8, rest: bv8): bv8 {
    var b1 := Xtime(b);
    var b2 := Xtime(b1);
    Plus(Term(b, y & 1), Plus(Term(b1, (y >> 1) & 1),
         Plus(Term(b2, (y >> 1 >> 1) & 1), Plus(Term(Xtime(b2), (y >> 1 >> 1 >> 1) & 1), rest))))
  }

  lemma ProductFour(n: nat, b: bv8, y: bv8)
    ensures Product(n + 4, b, y)
         == FourTerms(b, y, Product(n, Xtime(Xtime(Xtime(Xtime(b)))), y >> 1 >> 1 >> 1 >> 1))
  {
    hide Product, Xtime, Term, Plus;
    var b1 := Xtime(b);
    var b2 := Xtime(b1);
    ProductStep(b, y, n + 3);
    ProductStep(b1, y >> 1, n + 2);
    ProductStep(b2, y >> 1 >> 1, n + 1);
    ProductStep(Xtime(b2), y >> 1 >> 1 >> 1, n);
  }

  lemma ProductLow(b: bv8, y: bv8)
    requires y < 0x10
    ensures Product(8, b, y) == FourTerms(b, y, 0)
  {
    assert y >> 1 >> 1 >> 1 >> 1 == 0;
    hide Product, Xtime, FourTerms;
    var b4 := Xtime(Xtime(Xtime(Xtime(b))));
    ProductFour(4, b, y);
    ProductZero(4, b4);
  }

  lemma GfmulQuarter0(x: bv8, y: bv8)
    requires y < 0x4
    ensures Gfmul(x, y) == FourTerms(x, y, 0)
  {
    if y == 0 {} else if y == 1 {} else if y == 2 {} else {}
  }

  lemma GfmulQuarter1(x: bv8, y: bv8)
    requires 0x4 <= y < 0x8
    ensures Gfmul(x, y) == FourTerms(x, y, 0)
  {
    if y == 4 {} else if y == 5 {} else if y == 6 {} else {}
  }

  lemma GfmulQuarter2(x: bv8, y: bv8)
    requires 0x8 <= y < 0xc
    ensures Gfmul(x, y) == FourTerms(x, y, 0)
  {
    if y == 8 {} else if y == 9 {} else if y == 10 {} else {}
  }

  lemma GfmulEighth6(x: bv8, y: bv8)
    requires 0xc <= y < 0xe
    ensures Gfmul(x, y) == FourTerms(x, y, 0)
  {
    if y == 12 {} else {}
  }

  lemma GfmulEighth7(x: bv8, y: bv8)
    requires 0xe <= y < 0x10
    ensures Gfmul(x, y) == FourTerms(x, y, 0)
  {
    if y == 14 {} else {}
  }

  /** The table-driven product is the polynomial product, for every four-bit factor. */
  lemma GfmulIsProduct(x: bv8, y: bv8)
    requires y < 0x10
    ensures Gfmul(x, y) == Product(8, x, y)
  {
    hide Product, Gfmul, FourTerms;
    ProductLow(x, y);
    if y < 4 {
      GfmulQuarter0(x, y);
    } else if y < 8 {
      GfmulQuarter1(x, y);
    } else if y < 12 {
      GfmulQuarter2(x, y);
    } else if y < 14 {
      GfmulEighth6(x, y);
    } else {
      GfmulEighth7(x, y);
    }
  }

  // The affine transformation of section 5.1.1 of FIPS 197 and the one that undoes it.
  function Affine(b: bv8): bv8 {
    b ^ b.RotateLeft(1) ^ b.RotateLeft(2) ^ b.RotateLeft(3) ^ b.RotateLeft(4) ^ 0x63
  }

  function AffineInverse(b: bv8): bv8 {
    b.RotateLeft(1) ^ b.RotateLeft(3) ^ b.RotateLeft(6) ^ 0x05
  }

  lemma AffineBijective(b: bv8)
    ensures Affine(AffineInverse(b)) == b
  {}

  /** The table holds what section 5.1.1 of FIPS 197 defines: the affine image of the multiplicative
      inverse of the index, zero standing for its own inverse. */
  lemma SboxIsAffineOfInverse(x: bv8)
    ensures var y := AffineInverse(Sbox(x));
            Sbox(x) == Affine(y) && if x == 0 then y == 0 else Product(8, x, y) == 1
  {
    var y := AffineInverse(Sbox(x));
    AffineBijective(Sbox(x));
    ProductUnfolded(x, y);
    if x < 0x40 {
      InversesQuarter0(x);
    } else if x < 0x80 {
      InversesQuarter1(x);
    } else if x < 0xc0 {
      InversesQuarter2(x);
    } else {
      InversesQuarter3(x);
    }
    hide *;
  }

  function Terms(b: bv8, y: bv8): bv8 {
    FourTerms(b, y, FourTerms(Xtime(Xtime(Xtime(Xtime(b)))), y >> 1 >> 1 >> 1 >> 1, 0))
  }

  lemma ProductUnfolded(b: bv8, y: bv8)
    ensures Product(8, b, y) == Terms(b, y)
  {
    ProductNone(Xtime(Xtime(Xtime(Xtime(Xtime(Xtime(Xtime(Xtime(b)))))))), y >> 1 >> 1 >> 1 >> 1 >> 1 >> 1 >> 1 >> 1);
    hide Product, Xtime, FourTerms;
    var b4 := Xtime(Xtime(Xtime(Xtime(b))));
    ProductFour(4, b, y);
    ProductFour(0, b4, y >> 1 >> 1 >> 1 >> 1);
  }

  lemma ProductNone(b: bv8, y: bv8)
    ensures Product(0, b, y) == 0
  {}

  lemma InversesQuarter0(x: bv8)
    requires x < 0x40
    ensures var y := AffineInverse(Sbox(x)); if x == 0 then y == 0 else Terms(x, y) == 1
  {}

  lemma InversesQuarter1(x: bv8)
    requires 0x40 <= x < 0x80
    ensures Terms(x, AffineInverse(Sbox(x))) == 1
  {}

  lemma InversesQuarter2(x: bv8)
    requires 0x80 <= x < 0xc0
    ensures Terms(x, AffineInverse(Sbox(x))) == 1
  {}

  lemma InversesQuarter3(x: bv8)
    requires x >= 0xc0
    ensures Terms(x, AffineInverse(Sbox(x))) == 1
  {}

  function Plus4(a: bv8, b: bv8, c: bv8, d: bv8): bv8 { Plus(Plus(Plus(a, b), c), d) }

  // Doubling is additive.
  lemma XtimePlus(a: bv8, b: bv8)
    ensures Xtime(Plus(a, b)) == Plus(Xtime(a), Xtime(b))
  {
    if a & 0x80 == 0 {
      if b & 0x80 == 0 {} else {}
    } else {
      if b & 0x80 == 0 {} else {}
    }
  }

  lemma XtimePlus4(a: bv8, b: bv8, c: bv8, d: bv8)
    ensures Xtime(Plus4(a, b, c, d)) == Plus4(Xtime(a), Xtime(b), Xtime(c), Xtime(d))
  {
    hide Xtime, Plus;
    XtimePlus(a, b);
    XtimePlus(Plus(a, b), c);
    XtimePlus(Plus(Plus(a, b), c), d);
  }

  lemma Plus4Rotate(a: bv8, b: bv8, c: bv8, d: bv8)
    ensures Plus4(a, b, c, d) == Plus4(b, c, d, a)
  {}
}
