/** What the functions of SHA-256 do to the bits of words, and where its constants come from. */
module Sha256Laws {
  import opened Sha256

  // Bit i of a word, from the lowest. The index is a number of five bits, so its sums are modulo 32.
  predicate BitOf(u: bv32, i: bv5) { (u >> i) & 1 == 1 }

  predicate Bit(x: Word, i: bv5) { BitOf(x as bv32, i) }

  // An odd number of these.
  predicate Odd(a: bool, b: bool, c: bool) { (a != b) != c }

  lemma Back(u: bv32)
    ensures (u as nat) as bv32 == u
  {}

  lemma RawXorBits(u: bv32, v: bv32, w: bv32, i: bv5)
    ensures BitOf(u ^ v ^ w, i) <==> Odd(BitOf(u, i), BitOf(v, i), BitOf(w, i))
  {}

  lemma XorBits(u: bv32, v: bv32, w: bv32, i: bv5)
    ensures BitOf(Parity(u, v, w), i) <==> Odd(BitOf(u, i), BitOf(v, i), BitOf(w, i))
  {
    hide BitOf;
    RawXorBits(u, v, w, i);
  }

  lemma RotrBits2(u: bv32, i: bv5)
    ensures BitOf(Rotr(u, 2), i) <==> BitOf(u, i + 2)
  {}

  lemma RotrBits6(u: bv32, i: bv5)
    ensures BitOf(Rotr(u, 6), i) <==> BitOf(u, i + 6)
  {}

  lemma RotrBits7(u: bv32, i: bv5)
    ensures BitOf(Rotr(u, 7), i) <==> BitOf(u, i + 7)
  {}

  lemma RotrBits11(u: bv32, i: bv5)
    ensures BitOf(Rotr(u, 11), i) <==> BitOf(u, i + 11)
  {}

  lemma RotrBits13(u: bv32, i: bv5)
    ensures BitOf(Rotr(u, 13), i) <==> BitOf(u, i + 13)
  {}

  lemma RotrBits17(u: bv32, i: bv5)
    ensures BitOf(Rotr(u, 17), i) <==> BitOf(u, i + 17)
  {}

  lemma RotrBits18(u: bv32, i: bv5)
    ensures BitOf(Rotr(u, 18), i) <==> BitOf(u, i + 18)
  {}

  lemma RotrBits19(u: bv32, i: bv5)
    ensures BitOf(Rotr(u, 19), i) <==> BitOf(u, i + 19)
  {}

  lemma RotrBits22(u: bv32, i: bv5)
    ensures BitOf(Rotr(u, 22), i) <==> BitOf(u, i + 22)
  {}

  lemma RotrBits25(u: bv32, i: bv5)
    ensures BitOf(Rotr(u, 25), i) <==> BitOf(u, i + 25)
  {}

  lemma ShrBits3(u: bv32, i: bv5)
    ensures BitOf(Shr(u, 3), i) <==> i < 29 && BitOf(u, i + 3)
  {}

  lemma ShrBits10(u: bv32, i: bv5)
    ensures BitOf(Shr(u, 10), i) <==> i < 22 && BitOf(u, i + 10)
  {}

  // ---- Section 4.1.2 of FIPS 180-4, bit by bit ----

  lemma Sum0Bits(u: bv32, i: bv5)
    ensures BitOf(Sum0Of(u), i) <==> Odd(BitOf(u, i + 2), BitOf(u, i + 13), BitOf(u, i + 22))
  {
    hide BitOf, Rotr, Shr, Parity;
    XorBits(Rotr(u, 2), Rotr(u, 13), Rotr(u, 22), i);
    RotrBits2(u, i);
    RotrBits13(u, i);
    RotrBits22(u, i);
  }

  lemma Sum0Bit(x: Word, i: bv5)
    ensures Bit(Sum0(x), i) <==> Odd(Bit(x, i + 2), Bit(x, i + 13), Bit(x, i + 22))
  {
    hide BitOf, Sum0Of;
    Back(Sum0Of(x as bv32));
    Sum0Bits(x as bv32, i);
  }

  lemma Sum1Bits(u: bv32, i: bv5)
    ensures BitOf(Sum1Of(u), i) <==> Odd(BitOf(u, i + 6), BitOf(u, i + 11), BitOf(u, i + 25))
  {
    hide BitOf, Rotr, Shr, Parity;
    XorBits(Rotr(u, 6), Rotr(u, 11), Rotr(u, 25), i);
    RotrBits6(u, i);
    RotrBits11(u, i);
    RotrBits25(u, i);
  }

  lemma Sum1Bit(x: Word, i: bv5)
    ensures Bit(Sum1(x), i) <==> Odd(Bit(x, i + 6), Bit(x, i + 11), Bit(x, i + 25))
  {
    hide BitOf, Sum1Of;
    Back(Sum1Of(x as bv32));
    Sum1Bits(x as bv32, i);
  }

  lemma Sig0Bits(u: bv32, i: bv5)
    ensures BitOf(Sig0Of(u), i) <==> Odd(BitOf(u, i + 7), BitOf(u, i + 18), i < 29 && BitOf(u, i + 3))
  {
    hide BitOf, Rotr, Shr, Parity;
    XorBits(Rotr(u, 7), Rotr(u, 18), Shr(u, 3), i);
    RotrBits7(u, i);
    RotrBits18(u, i);
    ShrBits3(u, i);
  }

  lemma Sig0Bit(x: Word, i: bv5)
    ensures Bit(Sig0(x), i) <==> Odd(Bit(x, i + 7), Bit(x, i + 18), i < 29 && Bit(x, i + 3))
  {
    hide BitOf, Sig0Of;
    Back(Sig0Of(x as bv32));
    Sig0Bits(x as bv32, i);
  }

  lemma Sig1Bits(u: bv32, i: bv5)
    ensures BitOf(Sig1Of(u), i) <==> Odd(BitOf(u, i + 17), BitOf(u, i + 19), i < 22 && BitOf(u, i + 10))
  {
    hide BitOf, Rotr, Shr, Parity;
    XorBits(Rotr(u, 17), Rotr(u, 19), Shr(u, 10), i);
    RotrBits17(u, i);
    RotrBits19(u, i);
    ShrBits10(u, i);
  }

  lemma Sig1Bit(x: Word, i: bv5)
    ensures Bit(Sig1(x), i) <==> Odd(Bit(x, i + 17), Bit(x, i + 19), i < 22 && Bit(x, i + 10))
  {
    hide BitOf, Sig1Of;
    Back(Sig1Of(x as bv32));
    Sig1Bits(x as bv32, i);
  }

  lemma RawChBits(u: bv32, v: bv32, w: bv32, i: bv5)
    ensures BitOf((u & v) ^ (!u & w), i) <==> if BitOf(u, i) then BitOf(v, i) else BitOf(w, i)
  {}

  lemma ChBits(u: bv32, v: bv32, w: bv32, i: bv5)
    ensures BitOf(ChOf(u, v, w), i) <==> if BitOf(u, i) then BitOf(v, i) else BitOf(w, i)
  {
    hide BitOf;
    RawChBits(u, v, w, i);
  }

  /** A choice between the bits of y and z. */
  lemma ChBit(x: Word, y: Word, z: Word, i: bv5)
    ensures Bit(Ch(x, y, z), i) <==> if Bit(x, i) then Bit(y, i) else Bit(z, i)
  {
    hide BitOf, ChOf;
    var (u, v, w) := (x as bv32, y as bv32, z as bv32);
    Back(ChOf(u, v, w));
    ChBits(u, v, w, i);
  }

  lemma RawMajBits(u: bv32, v: bv32, w: bv32, i: bv5)
    ensures BitOf((u & v) ^ (u & w) ^ (v & w), i)
      <==> (BitOf(u, i) && BitOf(v, i)) || (BitOf(u, i) && BitOf(w, i)) || (BitOf(v, i) && BitOf(w, i))
  {}

  lemma MajBits(u: bv32, v: bv32, w: bv32, i: bv5)
    ensures BitOf(MajOf(u, v, w), i)
      <==> (BitOf(u, i) && BitOf(v, i)) || (BitOf(u, i) && BitOf(w, i)) || (BitOf(v, i) && BitOf(w, i))
  {
    hide BitOf;
    RawMajBits(u, v, w, i);
  }

  /** The majority of three bits. */
  lemma MajBit(x: Word, y: Word, z: Word, i: bv5)
    ensures Bit(Maj(x, y, z), i)
      <==> (Bit(x, i) && Bit(y, i)) || (Bit(x, i) && Bit(z, i)) || (Bit(y, i) && Bit(z, i))
  {
    hide BitOf, MajOf;
    var (u, v, w) := (x as bv32, y as bv32, z as bv32);
    Back(MajOf(u, v, w));
    MajBits(u, v, w, i);
  }

  // ---- Words and bytes ----

  // Byte i of a word, from the highest.
  lemma WordOfBytes(a: bv8, b: bv8, c: bv8, d: bv8)
    ensures var w := WordOf(a, b, c, d);
            w == 0x100_0000 * a as nat + 0x1_0000 * b as nat + 0x100 * c as nat + d as nat
  {}

  function WordBits(a: bv8, b: bv8, c: bv8, d: bv8): bv32 {
    ((a as bv32) << 24) | ((b as bv32) << 16) | ((c as bv32) << 8) | (d as bv32)
  }

  lemma WordIsBits(a: bv8, b: bv8, c: bv8, d: bv8)
    ensures WordOf(a, b, c, d) == WordBits(a, b, c, d) as nat
  {}

  lemma BytesOfWord(a: bv8, b: bv8, c: bv8, d: bv8)
    ensures var w := WordOf(a, b, c, d);
            WordByte(w, 0) == a && WordByte(w, 1) == b && WordByte(w, 2) == c && WordByte(w, 3) == d
  {
    hide WordOf, WordBits, ByteBits;
    WordIsBits(a, b, c, d);
    Back(WordBits(a, b, c, d));
    BytesOfBits(a, b, c, d);
  }

  lemma BytesOfBits(a: bv8, b: bv8, c: bv8, d: bv8)
    ensures var u := WordBits(a, b, c, d);
            ByteBits(u, 0) == a && ByteBits(u, 1) == b && ByteBits(u, 2) == c && ByteBits(u, 3) == d
  {
    hide ByteBits;
    RawBytes(a, b, c, d);
  }

  lemma RawBytes(a: bv8, b: bv8, c: bv8, d: bv8)
    ensures var u := ((a as bv32) << 24) | ((b as bv32) << 16) | ((c as bv32) << 8) | (d as bv32);
            ByteBits(u, 0) == a && ByteBits(u, 1) == b && ByteBits(u, 2) == c && ByteBits(u, 3) == d
  {}

  // ---- The constants ----

  // r is the integer part of 2^32 times the square root of p, and w the first 32 bits of its fraction.
  predicate SquareRoot(p: nat, r: nat, w: Word) {
    r * r <= p * 0x1_0000_0000_0000_0000 < (r + 1) * (r + 1) && r % TWO32 == w
  }

  // Likewise for the cube root.
  predicate CubeRoot(p: nat, r: nat, w: Word) {
    r * r * r <= p * 0x1_0000_0000_0000_0000_0000_0000 < (r + 1) * (r + 1) * (r + 1) && r % TWO32 == w
  }

  /** The initial hash values are the fractions of the square roots of the first eight primes. */
  lemma InitialAreSquareRoots()
    ensures SquareRoot(2, 0x16a09e667, INITIAL[0])
    ensures SquareRoot(3, 0x1bb67ae85, INITIAL[1])
    ensures SquareRoot(5, 0x23c6ef372, INITIAL[2])
    ensures SquareRoot(7, 0x2a54ff53a, INITIAL[3])
    ensures SquareRoot(11, 0x3510e527f, INITIAL[4])
    ensures SquareRoot(13, 0x39b05688c, INITIAL[5])
    ensures SquareRoot(17, 0x41f83d9ab, INITIAL[6])
    ensures SquareRoot(19, 0x45be0cd19, INITIAL[7])
  {}

  // The constants are the fractions of the cube roots of the first sixty-four primes.
  lemma ConstantsFrom0()
    ensures CubeRoot(2, 0x1428a2f98, Constant(0)) && CubeRoot(3, 0x171374491, Constant(1))
    ensures CubeRoot(5, 0x1b5c0fbcf, Constant(2)) && CubeRoot(7, 0x1e9b5dba5, Constant(3))
    ensures CubeRoot(11, 0x23956c25b, Constant(4)) && CubeRoot(13, 0x259f111f1, Constant(5))
    ensures CubeRoot(17, 0x2923f82a4, Constant(6)) && CubeRoot(19, 0x2ab1c5ed5, Constant(7))
    ensures CubeRoot(23, 0x2d807aa98, Constant(8)) && CubeRoot(29, 0x312835b01, Constant(9))
    ensures CubeRoot(31, 0x3243185be, Constant(10)) && CubeRoot(37, 0x3550c7dc3, Constant(11))
    ensures CubeRoot(41, 0x372be5d74, Constant(12)) && CubeRoot(43, 0x380deb1fe, Constant(13))
    ensures CubeRoot(47, 0x39bdc06a7, Constant(14)) && CubeRoot(53, 0x3c19bf174, Constant(15))
  {}

  lemma ConstantsFrom16()
    ensures CubeRoot(59, 0x3e49b69c1, Constant(16)) && CubeRoot(61, 0x3efbe4786, Constant(17))
    ensures CubeRoot(67, 0x40fc19dc6, Constant(18)) && CubeRoot(71, 0x4240ca1cc, Constant(19))
    ensures CubeRoot(73, 0x42de92c6f, Constant(20)) && CubeRoot(79, 0x44a7484aa, Constant(21))
    ensures CubeRoot(83, 0x45cb0a9dc, Constant(22)) && CubeRoot(89, 0x476f988da, Constant(23))
    ensures CubeRoot(97, 0x4983e5152, Constant(24)) && CubeRoot(101, 0x4a831c66d, Constant(25))
    ensures CubeRoot(103, 0x4b00327c8, Constant(26)) && CubeRoot(107, 0x4bf597fc7, Constant(27))
    ensures CubeRoot(109, 0x4c6e00bf3, Constant(28)) && CubeRoot(113, 0x4d5a79147, Constant(29))
    ensures CubeRoot(127, 0x506ca6351, Constant(30)) && CubeRoot(131, 0x514292967, Constant(31))
  {}

  lemma ConstantsFrom32()
    ensures CubeRoot(137, 0x527b70a85, Constant(32)) && CubeRoot(139, 0x52e1b2138, Constant(33))
    ensures CubeRoot(149, 0x54d2c6dfc, Constant(34)) && CubeRoot(151, 0x553380d13, Constant(35))
    ensures CubeRoot(157, 0x5650a7354, Constant(36)) && CubeRoot(163, 0x5766a0abb, Constant(37))
    ensures CubeRoot(167, 0x581c2c92e, Constant(38)) && CubeRoot(173, 0x592722c85, Constant(39))
    ensures CubeRoot(179, 0x5a2bfe8a1, Constant(40)) && CubeRoot(181, 0x5a81a664b, Constant(41))
    ensures CubeRoot(191, 0x5c24b8b70, Constant(42)) && CubeRoot(193, 0x5c76c51a3, Constant(43))
    ensures CubeRoot(197, 0x5d192e819, Constant(44)) && CubeRoot(199, 0x5d6990624, Constant(45))
    ensures CubeRoot(211, 0x5f40e3585, Constant(46)) && CubeRoot(223, 0x6106aa070, Constant(47))
  {}

  lemma ConstantsFrom48()
    ensures CubeRoot(227, 0x619a4c116, Constant(48)) && CubeRoot(229, 0x61e376c08, Constant(49))
    ensures CubeRoot(233, 0x62748774c, Constant(50)) && CubeRoot(239, 0x634b0bcb5, Constant(51))
    ensures CubeRoot(241, 0x6391c0cb3, Constant(52)) && CubeRoot(251, 0x64ed8aa4a, Constant(53))
    ensures CubeRoot(257, 0x65b9cca4f, Constant(54)) && CubeRoot(263, 0x6682e6ff3, Constant(55))
    ensures CubeRoot(269, 0x6748f82ee, Constant(56)) && CubeRoot(271, 0x678a5636f, Constant(57))
    ensures CubeRoot(277, 0x684c87814, Constant(58)) && CubeRoot(281, 0x68cc70208, Constant(59))
    ensures CubeRoot(283, 0x690befffa, Constant(60)) && CubeRoot(293, 0x6a4506ceb, Constant(61))
    ensures CubeRoot(307, 0x6bef9a3f7, Constant(62)) && CubeRoot(311, 0x6c67178f2, Constant(63))
  {}

}
