/** The AES-128 block cipher: sections 5.1 and 5.3 of FIPS 197 on 16-byte blocks, stored column by
    column, and the proof that the inverse cipher undoes the cipher. */
module Aes {
  import opened SubstitutionBox
  import opened Galois

  type Block = s: seq<bv8> | |s| == 16 witness [0, 0, 0, 0, 0, 0, 0, 0, 0, 0, 0, 0, 0, 0, 0, 0]

  // Round keys 0 to 10, one after the other.
  type RoundKeys = s: seq<bv8> | |s| == 176 witness seq(176, _ => 0)

  type Column = s: seq<bv8> | |s| == 4 witness [0, 0, 0, 0]

  function Xor(a: Block, b: Block): Block {
    seq(16, k requires 0 <= k < 16 => a[k] ^ b[k])
  }

  function AddRoundKey(s: Block, rk: RoundKeys, round: nat): Block
    requires round <= 10
  {
    Xor(s, rk[16 * round..16 * round + 16])
  }

  /** Round `round` adds bytes 16 * round to 16 * round + 15 of the expanded key, one to each byte of the state. */
  lemma AddRoundKeyByte(s: Block, rk: RoundKeys, round: nat, k: nat)
    requires round <= 10 && k < 16
    ensures AddRoundKey(s, rk, round)[k] == s[k] ^ rk[16 * round + k]
  {}

  function SubBytes(s: Block): Block {
    seq(16, k requires 0 <= k < 16 => Sbox(s[k]))
  }

  function InvSubBytes(s: Block): Block {
    seq(16, k requires 0 <= k < 16 => Rsbox(s[k]))
  }

  function ShiftRows(s: Block): Block {
    [s[0], s[5], s[10], s[15], s[4], s[9], s[14], s[3], s[8], s[13], s[2], s[7], s[12], s[1], s[6], s[11]]
  }

  function InvShiftRows(s: Block): Block {
    [s[0], s[13], s[10], s[7], s[4], s[1], s[14], s[11], s[8], s[5], s[2], s[15], s[12], s[9], s[6], s[3]]
  }

  // {03} times b
  function Tripled(b: bv8): bv8 { Plus(Xtime(b), b) }

  // The column times {03}x^3 + {01}x^2 + {01}x + {02}, equation 5.6.
  function MixColumn(c: Column): Column {
    [Plus4(Xtime(c[0]), Tripled(c[1]), c[2], c[3]),
     Plus4(c[0], Xtime(c[1]), Tripled(c[2]), c[3]),
     Plus4(c[0], c[1], Xtime(c[2]), Tripled(c[3])),
     Plus4(Tripled(c[0]), c[1], c[2], Xtime(c[3]))]
  }

  // The column times {0b}x^3 + {0d}x^2 + {09}x + {0e}, equation 5.10.
  function InvMixColumn(c: Column): Column {
    [Plus4(Gfmul(c[0], 0xe), Gfmul(c[1], 0xb), Gfmul(c[2], 0xd), Gfmul(c[3], 0x9)),
     Plus4(Gfmul(c[0], 0x9), Gfmul(c[1], 0xe), Gfmul(c[2], 0xb), Gfmul(c[3], 0xd)),
     Plus4(Gfmul(c[0], 0xd), Gfmul(c[1], 0x9), Gfmul(c[2], 0xe), Gfmul(c[3], 0xb)),
     Plus4(Gfmul(c[0], 0xb), Gfmul(c[1], 0xd), Gfmul(c[2], 0x9), Gfmul(c[3], 0xe))]
  }

  function MixColumns(s: Block): Block {
    MixColumn(s[0..4]) + MixColumn(s[4..8]) + MixColumn(s[8..12]) + MixColumn(s[12..16])
  }

  function InvMixColumns(s: Block): Block {
    InvMixColumn(s[0..4]) + InvMixColumn(s[4..8]) + InvMixColumn(s[8..12]) + InvMixColumn(s[12..16])
  }

  // The state after the first `round` rounds of the cipher.
  function Rounds(s: Block, rk: RoundKeys, round: nat): Block
    requires round <= 9
  {
    if round == 0 then AddRoundKey(s, rk, 0)
    else AddRoundKey(MixColumns(ShiftRows(SubBytes(Rounds(s, rk, round - 1)))), rk, round)
  }

  // Section 5.1.
  function Cipher(s: Block, rk: RoundKeys): Block {
    AddRoundKey(ShiftRows(SubBytes(Rounds(s, rk, 9))), rk, 10)
  }

  // The state of the inverse cipher once the keys of rounds 10 down to `round` have been added.
  function InvRounds(s: Block, rk: RoundKeys, round: nat): Block
    requires round <= 10
    decreases 10 - round
  {
    if round == 10 then AddRoundKey(s, rk, 10)
    else
      var t := InvRounds(s, rk, round + 1);
      AddRoundKey(InvSubBytes(InvShiftRows(if round == 9 then t else InvMixColumns(t))), rk, round)
  }

  // Section 5.3.
  function InvCipher(s: Block, rk: RoundKeys): Block {
    InvRounds(s, rk, 0)
  }

  // ---- Each transformation is undone by its inverse ----

  lemma XorTwice(a: Block, b: Block)
    ensures Xor(Xor(a, b), b) == a
  {
    forall k | 0 <= k < 16 ensures a[k] ^ b[k] ^ b[k] == a[k] {}
  }

  lemma SubBytesUndone(s: Block)
    ensures InvSubBytes(SubBytes(s)) == s
  {
    hide Sbox, Rsbox;
    forall k | 0 <= k < 16 ensures Rsbox(Sbox(s[k])) == s[k] {
      Inverse(s[k]);
    }
  }

  lemma ShiftRowsUndone(s: Block)
    ensures InvShiftRows(ShiftRows(s)) == s
  {}

  // Row r is rotated left by r columns, equation 5.3.
  lemma ShiftRowsMeaning(s: Block, r: nat, c: nat)
    requires r < 4 && c < 4
    ensures ShiftRows(s)[4 * c + r] == s[4 * ((c + r) % 4) + r]
  {
    if r == 0 {} else if r == 1 {} else if r == 2 {} else {}
  }

  // A byte doubled 0 to 4 times.
  datatype Powers = Powers(p0: bv8, p1: bv8, p2: bv8, p3: bv8, p4: bv8)

  function PowersOf(b: bv8): Powers {
    Powers(b, Xtime(b), Xtime(Xtime(b)), Xtime(Xtime(Xtime(b))), Xtime(Xtime(Xtime(Xtime(b)))))
  }

  predicate Doubling(p: Powers) {
    p.p1 == Xtime(p.p0) && p.p2 == Xtime(p.p1) && p.p3 == Xtime(p.p2) && p.p4 == Xtime(p.p3)
  }

  // Sums of doublings: the four multipliers of the inverse matrix.
  function TimesE(p3: bv8, p2: bv8, p1: bv8): bv8 { p3 ^ p2 ^ p1 }
  function TimesB(p3: bv8, p1: bv8, p0: bv8): bv8 { p3 ^ p1 ^ p0 }
  function TimesD(p3: bv8, p2: bv8, p0: bv8): bv8 { p3 ^ p2 ^ p0 }
  function Times9(p3: bv8, p0: bv8): bv8 { p3 ^ p0 }

  lemma Multipliers(b: bv8)
    ensures var b1 := Xtime(b); var b2 := Xtime(b1); var b3 := Xtime(b2);
            && Gfmul(b, 0xe) == TimesE(b3, b2, b1) && Gfmul(b, 0xb) == TimesB(b3, b1, b)
            && Gfmul(b, 0xd) == TimesD(b3, b2, b) && Gfmul(b, 0x9) == Times9(b3, b)
  {
    GfmulQuarter2(b, 0x9);
    GfmulQuarter2(b, 0xb);
    GfmulEighth6(b, 0xd);
    GfmulEighth7(b, 0xe);
    hide Xtime, Gfmul;
  }

  // {02}a + {03}b + c + d
  function Mixed(a: bv8, b: bv8, c: bv8, d: bv8): bv8 {
    Plus4(Xtime(a), Tripled(b), c, d)
  }

  lemma PlusTerms(a: bv8, b1: bv8, b0: bv8, c: bv8, d: bv8)
    ensures Plus4(a, Plus(b1, b0), c, d) == a ^ (b1 ^ b0) ^ c ^ d
  {}

  // Doubling a mixed byte mixes the doubled bytes.
  lemma MixedDoubled(a: Powers, b: Powers, c: Powers, d: Powers)
    requires Doubling(a) && Doubling(b) && Doubling(c) && Doubling(d)
    ensures var m := Mixed(a.p0, b.p0, c.p0, d.p0); var m1 := Xtime(m); var m2 := Xtime(m1); var m3 := Xtime(m2);
            && m == a.p1 ^ (b.p1 ^ b.p0) ^ c.p0 ^ d.p0
            && m1 == a.p2 ^ (b.p2 ^ b.p1) ^ c.p1 ^ d.p1
            && m2 == a.p3 ^ (b.p3 ^ b.p2) ^ c.p2 ^ d.p2
            && m3 == a.p4 ^ (b.p4 ^ b.p3) ^ c.p3 ^ d.p3
  {
    hide Xtime, Plus, Plus4;
    XtimePlus4(a.p1, Plus(b.p1, b.p0), c.p0, d.p0);
    XtimePlus(b.p1, b.p0);
    XtimePlus4(a.p2, Plus(b.p2, b.p1), c.p1, d.p1);
    XtimePlus(b.p2, b.p1);
    XtimePlus4(a.p3, Plus(b.p3, b.p2), c.p2, d.p2);
    XtimePlus(b.p3, b.p2);
    PlusTerms(a.p1, b.p1, b.p0, c.p0, d.p0);
    PlusTerms(a.p2, b.p2, b.p1, c.p1, d.p1);
    PlusTerms(a.p3, b.p3, b.p2, c.p2, d.p2);
    PlusTerms(a.p4, b.p4, b.p3, c.p3, d.p3);
  }

  lemma ExpandE(a: Powers, b: Powers, c: Powers, d: Powers)
    requires Doubling(a) && Doubling(b) && Doubling(c) && Doubling(d)
    ensures Gfmul(Mixed(a.p0, b.p0, c.p0, d.p0), 0xe)
         == (a.p4 ^ (b.p4 ^ b.p3) ^ c.p3 ^ d.p3) ^ (a.p3 ^ (b.p3 ^ b.p2) ^ c.p2 ^ d.p2) ^ (a.p2 ^ (b.p2 ^ b.p1) ^ c.p1 ^ d.p1)
  {
    hide Xtime, Gfmul, Mixed, TimesE;
    Multipliers(Mixed(a.p0, b.p0, c.p0, d.p0));
    MixedDoubled(a, b, c, d);
    SumE(a, b, c, d);
  }

  lemma SumE(a: Powers, b: Powers, c: Powers, d: Powers)
    ensures TimesE(a.p4 ^ (b.p4 ^ b.p3) ^ c.p3 ^ d.p3, a.p3 ^ (b.p3 ^ b.p2) ^ c.p2 ^ d.p2, a.p2 ^ (b.p2 ^ b.p1) ^ c.p1 ^ d.p1)
         == (a.p4 ^ (b.p4 ^ b.p3) ^ c.p3 ^ d.p3) ^ (a.p3 ^ (b.p3 ^ b.p2) ^ c.p2 ^ d.p2) ^ (a.p2 ^ (b.p2 ^ b.p1) ^ c.p1 ^ d.p1)
  {}

  lemma ExpandB(a: Powers, b: Powers, c: Powers, d: Powers)
    requires Doubling(a) && Doubling(b) && Doubling(c) && Doubling(d)
    ensures Gfmul(Mixed(a.p0, b.p0, c.p0, d.p0), 0xb)
         == (a.p4 ^ (b.p4 ^ b.p3) ^ c.p3 ^ d.p3) ^ (a.p2 ^ (b.p2 ^ b.p1) ^ c.p1 ^ d.p1) ^ (a.p1 ^ (b.p1 ^ b.p0) ^ c.p0 ^ d.p0)
  {
    hide Xtime, Gfmul, Mixed, TimesB;
    Multipliers(Mixed(a.p0, b.p0, c.p0, d.p0));
    MixedDoubled(a, b, c, d);
    SumB(a, b, c, d);
  }

  lemma SumB(a: Powers, b: Powers, c: Powers, d: Powers)
    ensures TimesB(a.p4 ^ (b.p4 ^ b.p3) ^ c.p3 ^ d.p3, a.p2 ^ (b.p2 ^ b.p1) ^ c.p1 ^ d.p1, a.p1 ^ (b.p1 ^ b.p0) ^ c.p0 ^ d.p0)
         == (a.p4 ^ (b.p4 ^ b.p3) ^ c.p3 ^ d.p3) ^ (a.p2 ^ (b.p2 ^ b.p1) ^ c.p1 ^ d.p1) ^ (a.p1 ^ (b.p1 ^ b.p0) ^ c.p0 ^ d.p0)
  {}

  lemma ExpandD(a: Powers, b: Powers, c: Powers, d: Powers)
    requires Doubling(a) && Doubling(b) && Doubling(c) && Doubling(d)
    ensures Gfmul(Mixed(a.p0, b.p0, c.p0, d.p0), 0xd)
         == (a.p4 ^ (b.p4 ^ b.p3) ^ c.p3 ^ d.p3) ^ (a.p3 ^ (b.p3 ^ b.p2) ^ c.p2 ^ d.p2) ^ (a.p1 ^ (b.p1 ^ b.p0) ^ c.p0 ^ d.p0)
  {
    hide Xtime, Gfmul, Mixed, TimesD;
    Multipliers(Mixed(a.p0, b.p0, c.p0, d.p0));
    MixedDoubled(a, b, c, d);
    SumD(a, b, c, d);
  }

  lemma SumD(a: Powers, b: Powers, c: Powers, d: Powers)
    ensures TimesD(a.p4 ^ (b.p4 ^ b.p3) ^ c.p3 ^ d.p3, a.p3 ^ (b.p3 ^ b.p2) ^ c.p2 ^ d.p2, a.p1 ^ (b.p1 ^ b.p0) ^ c.p0 ^ d.p0)
         == (a.p4 ^ (b.p4 ^ b.p3) ^ c.p3 ^ d.p3) ^ (a.p3 ^ (b.p3 ^ b.p2) ^ c.p2 ^ d.p2) ^ (a.p1 ^ (b.p1 ^ b.p0) ^ c.p0 ^ d.p0)
  {}

  lemma Expand9(a: Powers, b: Powers, c: Powers, d: Powers)
    requires Doubling(a) && Doubling(b) && Doubling(c) && Doubling(d)
    ensures Gfmul(Mixed(a.p0, b.p0, c.p0, d.p0), 0x9)
         == (a.p4 ^ (b.p4 ^ b.p3) ^ c.p3 ^ d.p3) ^ (a.p1 ^ (b.p1 ^ b.p0) ^ c.p0 ^ d.p0)
  {
    hide Xtime, Gfmul, Mixed, Times9;
    Multipliers(Mixed(a.p0, b.p0, c.p0, d.p0));
    MixedDoubled(a, b, c, d);
    Sum9(a, b, c, d);
  }

  lemma Sum9(a: Powers, b: Powers, c: Powers, d: Powers)
    ensures Times9(a.p4 ^ (b.p4 ^ b.p3) ^ c.p3 ^ d.p3, a.p1 ^ (b.p1 ^ b.p0) ^ c.p0 ^ d.p0)
         == (a.p4 ^ (b.p4 ^ b.p3) ^ c.p3 ^ d.p3) ^ (a.p1 ^ (b.p1 ^ b.p0) ^ c.p0 ^ d.p0)
  {}

  // One row of the inverse matrix against the four columns of the matrix: only a is left over.
  lemma RowCancels(a: Powers, b: Powers, c: Powers, d: Powers)
    ensures Plus4Of((a.p4 ^ (b.p4 ^ b.p3) ^ c.p3 ^ d.p3) ^ (a.p3 ^ (b.p3 ^ b.p2) ^ c.p2 ^ d.p2) ^ (a.p2 ^ (b.p2 ^ b.p1) ^ c.p1 ^ d.p1),
                    (b.p4 ^ (c.p4 ^ c.p3) ^ d.p3 ^ a.p3) ^ (b.p2 ^ (c.p2 ^ c.p1) ^ d.p1 ^ a.p1) ^ (b.p1 ^ (c.p1 ^ c.p0) ^ d.p0 ^ a.p0),
                    (c.p4 ^ (d.p4 ^ d.p3) ^ a.p3 ^ b.p3) ^ (c.p3 ^ (d.p3 ^ d.p2) ^ a.p2 ^ b.p2) ^ (c.p1 ^ (d.p1 ^ d.p0) ^ a.p0 ^ b.p0),
                    (d.p4 ^ (a.p4 ^ a.p3) ^ b.p3 ^ c.p3) ^ (d.p1 ^ (a.p1 ^ a.p0) ^ b.p0 ^ c.p0)) == a.p0
  {}

  function Plus4Of(a: bv8, b: bv8, c: bv8, d: bv8): bv8 { a ^ b ^ c ^ d }

  lemma Plus4Is(a: bv8, b: bv8, c: bv8, d: bv8)
    ensures Plus4(a, b, c, d) == Plus4Of(a, b, c, d)
  {}

  lemma RowUndone(a: bv8, b: bv8, c: bv8, d: bv8)
    ensures Plus4(Gfmul(Mixed(a, b, c, d), 0xe), Gfmul(Mixed(b, c, d, a), 0xb),
                  Gfmul(Mixed(c, d, a, b), 0xd), Gfmul(Mixed(d, a, b, c), 0x9)) == a
  {
    var pa, pb, pc, pd := PowersOf(a), PowersOf(b), PowersOf(c), PowersOf(d);
    hide Xtime, Gfmul, Mixed, Plus4, Plus4Of;
    ExpandE(pa, pb, pc, pd);
    ExpandB(pb, pc, pd, pa);
    ExpandD(pc, pd, pa, pb);
    Expand9(pd, pa, pb, pc);
    RowCancels(pa, pb, pc, pd);
    Plus4Is(Gfmul(Mixed(a, b, c, d), 0xe), Gfmul(Mixed(b, c, d, a), 0xb),
            Gfmul(Mixed(c, d, a, b), 0xd), Gfmul(Mixed(d, a, b, c), 0x9));
  }

  // The rows of MixColumn are rotations of one another.
  lemma MixColumnRows(a: bv8, b: bv8, c: bv8, d: bv8)
    ensures MixColumn([a, b, c, d]) == [Mixed(a, b, c, d), Mixed(b, c, d, a), Mixed(c, d, a, b), Mixed(d, a, b, c)]
  {
    hide Xtime, Plus4, Tripled;
    var x := [a, b, c, d];
    Plus4Rotate(a, Xtime(b), Tripled(c), d);
    Plus4Rotate(a, b, Xtime(c), Tripled(d));
    Plus4Rotate(b, Xtime(c), Tripled(d), a);
    Plus4Rotate(Xtime(d), Tripled(a), b, c);
    Plus4Rotate(Tripled(a), b, c, Xtime(d));
    Plus4Rotate(b, c, Xtime(d), Tripled(a));
    Plus4Rotate(c, Xtime(d), Tripled(a), b);
  }

  lemma InvMixColumnRows(a: bv8, b: bv8, c: bv8, d: bv8)
    ensures InvMixColumn([a, b, c, d])
         == [Plus4(Gfmul(a, 0xe), Gfmul(b, 0xb), Gfmul(c, 0xd), Gfmul(d, 0x9)),
             Plus4(Gfmul(b, 0xe), Gfmul(c, 0xb), Gfmul(d, 0xd), Gfmul(a, 0x9)),
             Plus4(Gfmul(c, 0xe), Gfmul(d, 0xb), Gfmul(a, 0xd), Gfmul(b, 0x9)),
             Plus4(Gfmul(d, 0xe), Gfmul(a, 0xb), Gfmul(b, 0xd), Gfmul(c, 0x9))]
  {
    hide Gfmul, Plus4;
    Plus4Rotate(Gfmul(a, 0x9), Gfmul(b, 0xe), Gfmul(c, 0xb), Gfmul(d, 0xd));
    Plus4Rotate(Gfmul(a, 0xd), Gfmul(b, 0x9), Gfmul(c, 0xe), Gfmul(d, 0xb));
    Plus4Rotate(Gfmul(b, 0x9), Gfmul(c, 0xe), Gfmul(d, 0xb), Gfmul(a, 0xd));
    Plus4Rotate(Gfmul(d, 0xe), Gfmul(a, 0xb), Gfmul(b, 0xd), Gfmul(c, 0x9));
  }

  lemma MixColumnUndone(x: Column)
    ensures InvMixColumn(MixColumn(x)) == x
  {
    var a, b, c, d := x[0], x[1], x[2], x[3];
    assert x == [a, b, c, d];
    hide Gfmul, Plus4, Mixed, MixColumn, InvMixColumn;
    MixColumnRows(a, b, c, d);
    InvMixColumnRows(Mixed(a, b, c, d), Mixed(b, c, d, a), Mixed(c, d, a, b), Mixed(d, a, b, c));
    RowUndone(a, b, c, d);
    RowUndone(b, c, d, a);
    RowUndone(c, d, a, b);
    RowUndone(d, a, b, c);
  }

  lemma MixColumnsUndone(s: Block)
    ensures InvMixColumns(MixColumns(s)) == s
  {
    hide MixColumn, InvMixColumn;
    var m := MixColumns(s);
    var c0, c1, c2, c3 := MixColumn(s[0..4]), MixColumn(s[4..8]), MixColumn(s[8..12]), MixColumn(s[12..16]);
    assert m[0..4] == c0 && m[4..8] == c1 && m[8..12] == c2 && m[12..16] == c3;
    MixColumnUndone(s[0..4]);
    MixColumnUndone(s[4..8]);
    MixColumnUndone(s[8..12]);
    MixColumnUndone(s[12..16]);
    assert s[0..4] + s[4..8] + s[8..12] + s[12..16] == s;
  }

  // The inverse cipher passes backwards through the states of the cipher.
  lemma {:induction false} RoundsUndone(s: Block, rk: RoundKeys, round: nat)
    requires 1 <= round <= 10
    ensures round < 10 ==> InvRounds(Cipher(s, rk), rk, round) == MixColumns(ShiftRows(SubBytes(Rounds(s, rk, round - 1))))
    ensures round == 10 ==> InvRounds(Cipher(s, rk), rk, round) == ShiftRows(SubBytes(Rounds(s, rk, round - 1)))
    decreases 10 - round
  {
    hide Xor, SubBytes, InvSubBytes, ShiftRows, InvShiftRows, MixColumns, InvMixColumns;
    if round == 10 {
      XorTwice(ShiftRows(SubBytes(Rounds(s, rk, 9))), rk[160..176]);
    } else {
      RoundsUndone(s, rk, round + 1);
      var r := Rounds(s, rk, round);
      var before := MixColumns(ShiftRows(SubBytes(Rounds(s, rk, round - 1))));
      MixColumnsUndone(ShiftRows(SubBytes(r)));
      ShiftRowsUndone(SubBytes(r));
      SubBytesUndone(r);
      XorTwice(before, rk[16 * round..16 * round + 16]);
    }
  }

  /** Decryption undoes encryption, for every block and every 176 bytes of round keys. */
  lemma CipherUndone(s: Block, rk: RoundKeys)
    ensures InvCipher(Cipher(s, rk), rk) == s
  {
    hide Xor, SubBytes, InvSubBytes, ShiftRows, InvShiftRows, MixColumns, InvMixColumns, Cipher;
    RoundsUndone(s, rk, 1);
    var r := Rounds(s, rk, 0);
    MixColumnsUndone(ShiftRows(SubBytes(r)));
    ShiftRowsUndone(SubBytes(r));
    SubBytesUndone(r);
    XorTwice(s, rk[0..16]);
  }
}
