/** Published examples that fix the cipher, its key expansion and the code made with it: appendix B of
    FIPS 197 and section 4 of RFC 4493. A block is four columns of four bytes here. */
module AesExamples {
  import opened SubstitutionBox
  import opened Galois
  import opened Aes
  import opened KeySchedule
  import opened Modes

  datatype Col = Col(a: bv8, b: bv8, c: bv8, d: bv8)
  datatype Cols = Cols(c0: Col, c1: Col, c2: Col, c3: Col)

  function Bytes(w: Cols): Block {
    [w.c0.a, w.c0.b, w.c0.c, w.c0.d, w.c1.a, w.c1.b, w.c1.c, w.c1.d,
     w.c2.a, w.c2.b, w.c2.c, w.c2.d, w.c3.a, w.c3.b, w.c3.c, w.c3.d]
  }

  function Of(w: Col): Column { [w.a, w.b, w.c, w.d] }

  lemma Parts(w: Cols)
    ensures Bytes(w)[0..4] == Of(w.c0) && Bytes(w)[4..8] == Of(w.c1)
    ensures Bytes(w)[8..12] == Of(w.c2) && Bytes(w)[12..16] == Of(w.c3)
  {}

  lemma FourWords(e: seq<bv8>, i: nat)
    requires i + 16 <= |e|
    ensures e[i..i + 16] == e[i..i + 4] + e[i + 4..i + 8] + e[i + 8..i + 12] + e[i + 12..i + 16]
  {}

  lemma Joined(w: Cols)
    ensures Bytes(w) == Of(w.c0) + Of(w.c1) + Of(w.c2) + Of(w.c3)
  {
    hide Bytes, Of;
    Parts(w);
    FourWords(Bytes(w), 0);
  }

  lemma Same(s: Block, t: Block)
    requires s[0] == t[0] && s[1] == t[1] && s[2] == t[2] && s[3] == t[3] && s[4] == t[4] && s[5] == t[5]
    requires s[6] == t[6] && s[7] == t[7] && s[8] == t[8] && s[9] == t[9] && s[10] == t[10] && s[11] == t[11]
    requires s[12] == t[12] && s[13] == t[13] && s[14] == t[14] && s[15] == t[15]
    ensures s == t
  {}

  // ---- The rounds, on columns ----

  function SubCol(w: Col): Col { Col(Sbox(w.a), Sbox(w.b), Sbox(w.c), Sbox(w.d)) }

  function XorCol(w: Col, k: Col): Col { Col(Plus(w.a, k.a), Plus(w.b, k.b), Plus(w.c, k.c), Plus(w.d, k.d)) }

  function XorCols(w: Cols, k: Cols): Cols {
    Cols(XorCol(w.c0, k.c0), XorCol(w.c1, k.c1), XorCol(w.c2, k.c2), XorCol(w.c3, k.c3))
  }

  function MixCol(w: Col): Col {
    Col(Plus4(Xtime(w.a), Tripled(w.b), w.c, w.d), Plus4(w.a, Xtime(w.b), Tripled(w.c), w.d),
        Plus4(w.a, w.b, Xtime(w.c), Tripled(w.d)), Plus4(Tripled(w.a), w.b, w.c, Xtime(w.d)))
  }

  function SubShift(w: Cols): Cols {
    var (s, t, u, v) := (SubCol(w.c0), SubCol(w.c1), SubCol(w.c2), SubCol(w.c3));
    Cols(Col(s.a, t.b, u.c, v.d), Col(t.a, u.b, v.c, s.d), Col(u.a, v.b, s.c, t.d), Col(v.a, s.b, t.c, u.d))
  }

  function MixCols(w: Cols): Cols { Cols(MixCol(w.c0), MixCol(w.c1), MixCol(w.c2), MixCol(w.c3)) }

  lemma SubShiftIs(w: Cols)
    ensures Bytes(SubShift(w)) == ShiftRows(SubBytes(Bytes(w)))
  {
    hide Sbox;
    Same(Bytes(SubShift(w)), ShiftRows(SubBytes(Bytes(w))));
  }

  lemma MixColIs(w: Col)
    ensures Of(MixCol(w)) == MixColumn(Of(w))
  {
    hide Xtime, Tripled, Plus4;
  }

  lemma MixIs(w: Cols)
    ensures Bytes(MixCols(w)) == MixColumns(Bytes(w))
  {
    hide MixCol, MixColumn, Bytes;
    Parts(w);
    Joined(MixCols(w));
    MixColIs(w.c0);
    MixColIs(w.c1);
    MixColIs(w.c2);
    MixColIs(w.c3);
  }

  lemma XorAt(a: Block, b: Block)
    ensures Xor(a, b)[0] == Plus(a[0], b[0]) && Xor(a, b)[1] == Plus(a[1], b[1]) && Xor(a, b)[2] == Plus(a[2], b[2]) && Xor(a, b)[3] == Plus(a[3], b[3])
    ensures Xor(a, b)[4] == Plus(a[4], b[4]) && Xor(a, b)[5] == Plus(a[5], b[5]) && Xor(a, b)[6] == Plus(a[6], b[6]) && Xor(a, b)[7] == Plus(a[7], b[7])
    ensures Xor(a, b)[8] == Plus(a[8], b[8]) && Xor(a, b)[9] == Plus(a[9], b[9]) && Xor(a, b)[10] == Plus(a[10], b[10]) && Xor(a, b)[11] == Plus(a[11], b[11])
    ensures Xor(a, b)[12] == Plus(a[12], b[12]) && Xor(a, b)[13] == Plus(a[13], b[13]) && Xor(a, b)[14] == Plus(a[14], b[14]) && Xor(a, b)[15] == Plus(a[15], b[15])
  {}

  lemma XorIs(w: Cols, k: Cols)
    ensures Bytes(XorCols(w, k)) == Xor(Bytes(w), Bytes(k))
  {
    hide Plus, Xor;
    XorAt(Bytes(w), Bytes(k));
    Same(Bytes(XorCols(w, k)), Xor(Bytes(w), Bytes(k)));
  }

  // ---- The key 2b7e1516 28aed2a6 abf71588 09cf4f3c ----

  // Its round keys, as appendix A.1 of FIPS 197 lists them.
  const K0 := Cols(Col(0x2b, 0x7e, 0x15, 0x16), Col(0x28, 0xae, 0xd2, 0xa6),
                   Col(0xab, 0xf7, 0x15, 0x88), Col(0x09, 0xcf, 0x4f, 0x3c))
  const K1 := Cols(Col(0xa0, 0xfa, 0xfe, 0x17), Col(0x88, 0x54, 0x2c, 0xb1),
                   Col(0x23, 0xa3, 0x39, 0x39), Col(0x2a, 0x6c, 0x76, 0x05))
  const K2 := Cols(Col(0xf2, 0xc2, 0x95, 0xf2), Col(0x7a, 0x96, 0xb9, 0x43),
                   Col(0x59, 0x35, 0x80, 0x7a), Col(0x73, 0x59, 0xf6, 0x7f))
  const K3 := Cols(Col(0x3d, 0x80, 0x47, 0x7d), Col(0x47, 0x16, 0xfe, 0x3e),
                   Col(0x1e, 0x23, 0x7e, 0x44), Col(0x6d, 0x7a, 0x88, 0x3b))
  const K4 := Cols(Col(0xef, 0x44, 0xa5, 0x41), Col(0xa8, 0x52, 0x5b, 0x7f),
                   Col(0xb6, 0x71, 0x25, 0x3b), Col(0xdb, 0x0b, 0xad, 0x00))
  const K5 := Cols(Col(0xd4, 0xd1, 0xc6, 0xf8), Col(0x7c, 0x83, 0x9d, 0x87),
                   Col(0xca, 0xf2, 0xb8, 0xbc), Col(0x11, 0xf9, 0x15, 0xbc))
  const K6 := Cols(Col(0x6d, 0x88, 0xa3, 0x7a), Col(0x11, 0x0b, 0x3e, 0xfd),
                   Col(0xdb, 0xf9, 0x86, 0x41), Col(0xca, 0x00, 0x93, 0xfd))
  const K7 := Cols(Col(0x4e, 0x54, 0xf7, 0x0e), Col(0x5f, 0x5f, 0xc9, 0xf3),
                   Col(0x84, 0xa6, 0x4f, 0xb2), Col(0x4e, 0xa6, 0xdc, 0x4f))
  const K8 := Cols(Col(0xea, 0xd2, 0x73, 0x21), Col(0xb5, 0x8d, 0xba, 0xd2),
                   Col(0x31, 0x2b, 0xf5, 0x60), Col(0x7f, 0x8d, 0x29, 0x2f))
  const K9 := Cols(Col(0xac, 0x77, 0x66, 0xf3), Col(0x19, 0xfa, 0xdc, 0x21),
                   Col(0x28, 0xd1, 0x29, 0x41), Col(0x57, 0x5c, 0x00, 0x6e))
  const K10 := Cols(Col(0xd0, 0x14, 0xf9, 0xa8), Col(0xc9, 0xee, 0x25, 0x89),
                    Col(0xe1, 0x3f, 0x0c, 0xc8), Col(0xb6, 0x63, 0x0c, 0xa6))

  function Key(n: nat): Cols {
    match n
    case 0 => K0 case 1 => K1 case 2 => K2 case 3 => K3
    case 4 => K4 case 5 => K5 case 6 => K6 case 7 => K7
    case 8 => K8 case 9 => K9 case _ => K10
  }

  // A word turned, substituted and combined with a constant.
  function Turned(w: Col, constant: bv8): Col {
    XorCol(SubCol(Col(w.b, w.c, w.d, w.a)), Col(constant, 0, 0, 0))
  }

  // The next four words, with the constant of their round.
  function NextKey(k: Cols, constant: bv8): Cols {
    var c0 := XorCol(k.c0, Turned(k.c3, constant));
    var c1 := XorCol(k.c1, c0);
    var c2 := XorCol(k.c2, c1);
    Cols(c0, c1, c2, XorCol(k.c3, c2))
  }

  lemma KeysFollow2(n: nat)
    requires 1 <= n <= 2
    ensures |CONSTANTS| == 11 && Key(n) == NextKey(Key(n - 1), CONSTANTS[n])
  {
    if n == 2 {} else {}
  }

  lemma KeysFollow4(n: nat)
    requires 3 <= n <= 4
    ensures |CONSTANTS| == 11 && Key(n) == NextKey(Key(n - 1), CONSTANTS[n])
  {
    if n == 4 {} else {}
  }

  lemma KeysFollow6(n: nat)
    requires 5 <= n <= 6
    ensures |CONSTANTS| == 11 && Key(n) == NextKey(Key(n - 1), CONSTANTS[n])
  {
    if n == 6 {} else {}
  }

  lemma KeysFollow8(n: nat)
    requires 7 <= n <= 8
    ensures |CONSTANTS| == 11 && Key(n) == NextKey(Key(n - 1), CONSTANTS[n])
  {
    if n == 8 {} else {}
  }

  lemma KeysFollow10(n: nat)
    requires 9 <= n <= 10
    ensures |CONSTANTS| == 11 && Key(n) == NextKey(Key(n - 1), CONSTANTS[n])
  {
    if n == 10 {} else {}
  }

  lemma KeyFollows(n: nat)
    requires 1 <= n <= 10
    ensures Key(n) == NextKey(Key(n - 1), RoundConstant(n))
  {
    hide NextKey, Key, RoundConstant;
    ConstantsArePowers(n);
    if n <= 2 {
      KeysFollow2(n);
    } else if n <= 4 {
      KeysFollow4(n);
    } else if n <= 6 {
      KeysFollow6(n);
    } else if n <= 8 {
      KeysFollow8(n);
    } else {
      KeysFollow10(n);
    }
  }

  function KEY(): Block { Bytes(Key(0)) }

  lemma OfXor(a: Col, b: Col)
    ensures Of(XorCol(a, b)) == XorWord(Of(a), Of(b))
  {
    hide Plus, XorWord;
    WordXorAt(Of(a), Of(b));
    var s, t: Column := Of(XorCol(a, b)), XorWord(Of(a), Of(b));
    assert s[0] == t[0] && s[1] == t[1] && s[2] == t[2] && s[3] == t[3];
  }

  lemma WordXorAt(a: Column, b: Column)
    ensures XorWord(a, b)[0] == Plus(a[0], b[0]) && XorWord(a, b)[1] == Plus(a[1], b[1])
    ensures XorWord(a, b)[2] == Plus(a[2], b[2]) && XorWord(a, b)[3] == Plus(a[3], b[3])
  {}

  // Words 4n to 4n + 3 of the expansion.
  ghost predicate ExpandsTo(n: nat, k: Cols) {
    Word(4 * n, KEY()) == Of(k.c0) && Word(4 * n + 1, KEY()) == Of(k.c1)
    && Word(4 * n + 2, KEY()) == Of(k.c2) && Word(4 * n + 3, KEY()) == Of(k.c3)
  }

  // One word from the one before it and the one four places back.
  lemma NextWord(i: nat, a: Col, b: Col)
    requires i >= 4 && Word(i - 4, KEY()) == Of(a) && Word(i - 1, KEY()) == Of(b)
    ensures i % 4 != 0 ==> Word(i, KEY()) == Of(XorCol(a, b))
    ensures i % 4 == 0 ==> Word(i, KEY()) == Of(XorCol(a, Turned(b, RoundConstant(i / 4))))
  {
    hide Sbox, XorCol, XorWord, RoundConstant, KEY, Of, SubCol, RotWord, SubWord, Word;
    WordIs(i);
    if i % 4 == 0 {
      var c := RoundConstant(i / 4);
      OfSub(b);
      OfConstant(c);
      OfXor(SubCol(Col(b.b, b.c, b.d, b.a)), Col(c, 0, 0, 0));
      OfXor(a, Turned(b, c));
    } else {
      OfXor(a, b);
    }
  }

  lemma NextWords(n: nat, k: Cols)
    requires 1 <= n && ExpandsTo(n - 1, k)
    ensures ExpandsTo(n, NextKey(k, RoundConstant(n)))
  {
    hide XorCol, RoundConstant, KEY, Of, Turned, Word;
    var next := NextKey(k, RoundConstant(n));
    NextWord(4 * n, k.c0, k.c3);
    NextWord(4 * n + 1, k.c1, next.c0);
    NextWord(4 * n + 2, k.c2, next.c1);
    NextWord(4 * n + 3, k.c3, next.c2);
  }

  lemma OfSub(w: Col)
    ensures Of(SubCol(Col(w.b, w.c, w.d, w.a))) == SubWord(RotWord(Of(w)))
  {
    hide Sbox;
  }

  lemma OfConstant(c: bv8)
    ensures Of(Col(c, 0, 0, 0)) == [c, 0, 0, 0]
  {}

  lemma WordIs(i: nat)
    requires i >= 4
    ensures Word(i, KEY()) == XorWord(Word(i - 4, KEY()), Mask(i, Word(i - 1, KEY())))
  {
    hide KEY, XorWord, Mask;
  }

  lemma {:induction false} Expansion(n: nat)
    requires n <= 10
    ensures ExpandsTo(n, Key(n))
  {
    if n == 0 {
      FirstWords();
    } else {
      Expansion(n - 1);
      KeyFollows(n);
      hide Key, NextKey, RoundConstant, ExpandsTo;
      NextWords(n, Key(n - 1));
    }
  }

  lemma FirstWords()
    ensures ExpandsTo(0, Key(0))
  {
    hide Bytes;
    Parts(Key(0));
  }

  lemma WordSlice(i: nat)
    requires i < 44
    ensures Expand(KEY())[4 * i..4 * i + 4] == Word(i, KEY())
  {
    hide Word, KEY;
    forall k | 0 <= k < 4 ensures Expand(KEY())[4 * i + k] == Word(i, KEY())[k] {
      assert (4 * i + k) / 4 == i && (4 * i + k) % 4 == k;
    }
  }

  /** The expansion of the key is the list of appendix A.1, round key by round key. */
  lemma ExpandedKey(n: nat)
    requires n <= 10
    ensures Expand(KEY())[16 * n..16 * n + 16] == Bytes(Key(n))
  {
    hide Expand, Word, KEY, Key, Bytes, Of;
    var e := Expand(KEY());
    WordSlice(4 * n);
    WordSlice(4 * n + 1);
    WordSlice(4 * n + 2);
    WordSlice(4 * n + 3);
    Expansion(n);
    Joined(Key(n));
    FourWords(e, 16 * n);
  }

  // ---- Encryption under this key ----

  function Step(w: Cols, k: Cols): Cols { XorCols(MixCols(SubShift(w)), k) }

  // The states after rounds 0 to 9.
  ghost predicate Trace(w: Cols, states: nat -> Cols) {
    states(0) == XorCols(w, Key(0)) && forall n: nat :: 1 <= n <= 9 ==> states(n) == Step(states(n - 1), Key(n))
  }

  lemma StepIs(w: Cols, n: nat)
    requires n <= 10
    ensures Bytes(Step(w, Key(n))) == AddRoundKey(MixColumns(ShiftRows(SubBytes(Bytes(w)))), Expand(KEY()), n)
    ensures Bytes(XorCols(SubShift(w), Key(n))) == AddRoundKey(ShiftRows(SubBytes(Bytes(w))), Expand(KEY()), n)
    ensures Bytes(XorCols(w, Key(n))) == AddRoundKey(Bytes(w), Expand(KEY()), n)
  {
    hide Bytes, Key, KEY, Expand, SubShift, MixCols, XorCols, Xor, SubBytes, ShiftRows, MixColumns;
    SubShiftIs(w);
    MixIs(SubShift(w));
    ExpandedKey(n);
    XorIs(MixCols(SubShift(w)), Key(n));
    XorIs(SubShift(w), Key(n));
    XorIs(w, Key(n));
  }

  lemma {:induction false} Traced(w: Cols, states: nat -> Cols, n: nat)
    requires Trace(w, states) && n <= 9
    ensures Rounds(Bytes(w), Expand(KEY()), n) == Bytes(states(n))
  {
    hide Bytes, KEY, Expand, AddRoundKey, Step, XorCols, Key;
    if n == 0 {
      StepIs(w, 0);
    } else {
      Traced(w, states, n - 1);
      StepIs(states(n - 1), n);
    }
  }

  // A trace ends in the ciphertext.
  lemma Ciphered(w: Cols, states: nat -> Cols)
    requires Trace(w, states)
    ensures Cipher(Bytes(w), Expand(KEY())) == Bytes(XorCols(SubShift(states(9)), Key(10)))
  {
    hide Bytes, KEY, Expand, AddRoundKey, XorCols, SubShift, Trace, Rounds;
    Traced(w, states, 9);
    StepIs(states(9), 10);
  }

  // The states of appendix B of FIPS 197.
  const B0 := Cols(Col(0x19, 0x3d, 0xe3, 0xbe), Col(0xa0, 0xf4, 0xe2, 0x2b),
                   Col(0x9a, 0xc6, 0x8d, 0x2a), Col(0xe9, 0xf8, 0x48, 0x08))
  const B1 := Cols(Col(0xa4, 0x9c, 0x7f, 0xf2), Col(0x68, 0x9f, 0x35, 0x2b),
                   Col(0x6b, 0x5b, 0xea, 0x43), Col(0x02, 0x6a, 0x50, 0x49))
  const B2 := Cols(Col(0xaa, 0x8f, 0x5f, 0x03), Col(0x61, 0xdd, 0xe3, 0xef),
                   Col(0x82, 0xd2, 0x4a, 0xd2), Col(0x68, 0x32, 0x46, 0x9a))
  const B3 := Cols(Col(0x48, 0x6c, 0x4e, 0xee), Col(0x67, 0x1d, 0x9d, 0x0d),
                   Col(0x4d, 0xe3, 0xb1, 0x38), Col(0xd6, 0x5f, 0x58, 0xe7))
  const B4 := Cols(Col(0xe0, 0x92, 0x7f, 0xe8), Col(0xc8, 0x63, 0x63, 0xc0),
                   Col(0xd9, 0xb1, 0x35, 0x50), Col(0x85, 0xb8, 0xbe, 0x01))
  const B5 := Cols(Col(0xf1, 0x00, 0x6f, 0x55), Col(0xc1, 0x92, 0x4c, 0xef),
                   Col(0x7c, 0xc8, 0x8b, 0x32), Col(0x5d, 0xb5, 0xd5, 0x0c))
  const B6 := Cols(Col(0x26, 0x0e, 0x2e, 0x17), Col(0x3d, 0x41, 0xb7, 0x7d),
                   Col(0xe8, 0x64, 0x72, 0xa9), Col(0xfd, 0xd2, 0x8b, 0x25))
  const B7 := Cols(Col(0x5a, 0x41, 0x42, 0xb1), Col(0x19, 0x49, 0xdc, 0x1f),
                   Col(0xa3, 0xe0, 0x19, 0x65), Col(0x7a, 0x8c, 0x04, 0x0c))
  const B8 := Cols(Col(0xea, 0x83, 0x5c, 0xf0), Col(0x04, 0x45, 0x33, 0x2d),
                   Col(0x65, 0x5d, 0x98, 0xad), Col(0x85, 0x96, 0xb0, 0xc5))
  const B9 := Cols(Col(0xeb, 0x40, 0xf2, 0x1e), Col(0x59, 0x2e, 0x38, 0x84),
                   Col(0x8b, 0xa1, 0x13, 0xe7), Col(0x1b, 0xc3, 0x42, 0xd2))

  function AppendixB(n: nat): Cols {
    match n
    case 0 => B0 case 1 => B1 case 2 => B2 case 3 => B3
    case 4 => B4 case 5 => B5 case 6 => B6 case 7 => B7
    case 8 => B8 case _ => B9
  }

  lemma AppendixB1()
    ensures Step(B0, K1) == B1
  {}

  lemma AppendixB2()
    ensures Step(B1, K2) == B2
  {}

  lemma AppendixB3()
    ensures Step(B2, K3) == B3
  {}

  lemma AppendixB4()
    ensures Step(B3, K4) == B4
  {}

  lemma AppendixB5()
    ensures Step(B4, K5) == B5
  {}

  lemma AppendixB6()
    ensures Step(B5, K6) == B6
  {}

  lemma AppendixB7()
    ensures Step(B6, K7) == B7
  {}

  lemma AppendixB8()
    ensures Step(B7, K8) == B8
  {}

  lemma AppendixB9()
    ensures Step(B8, K9) == B9
  {}

  lemma AppendixBLast(w: Cols)
    requires w == Cols(Col(0x32, 0x43, 0xf6, 0xa8), Col(0x88, 0x5a, 0x30, 0x8d),
                           Col(0x31, 0x31, 0x98, 0xa2), Col(0xe0, 0x37, 0x07, 0x34))
    ensures B0 == XorCols(w, K0) && Bytes(w) == [0x32, 0x43, 0xf6, 0xa8, 0x88, 0x5a, 0x30, 0x8d, 0x31, 0x31, 0x98, 0xa2, 0xe0, 0x37, 0x07, 0x34]
    ensures Bytes(XorCols(SubShift(B9), K10)) == [0x39, 0x25, 0x84, 0x1d, 0x02, 0xdc, 0x09, 0xfb, 0xdc, 0x11, 0x85, 0x97, 0x19, 0x6a, 0x0b, 0x32]
  {}

  /** The example of appendix B of FIPS 197. */
  lemma AppendixBExample()
    ensures Cipher([0x32, 0x43, 0xf6, 0xa8, 0x88, 0x5a, 0x30, 0x8d, 0x31, 0x31, 0x98, 0xa2, 0xe0, 0x37, 0x07, 0x34], Expand(KEY()))
         == [0x39, 0x25, 0x84, 0x1d, 0x02, 0xdc, 0x09, 0xfb, 0xdc, 0x11, 0x85, 0x97, 0x19, 0x6a, 0x0b, 0x32]
  {
    hide Step, XorCols, SubShift, Bytes, Cipher, Expand, KEY;
    var w := Cols(Col(0x32, 0x43, 0xf6, 0xa8), Col(0x88, 0x5a, 0x30, 0x8d),
                  Col(0x31, 0x31, 0x98, 0xa2), Col(0xe0, 0x37, 0x07, 0x34));
    AppendixBLast(w);
    AppendixB1();
    AppendixB2();
    AppendixB3();
    AppendixB4();
    AppendixB5();
    AppendixB6();
    AppendixB7();
    AppendixB8();
    AppendixB9();
    Ciphered(w, AppendixB);
  }

  // The states of the cipher on a block of zeros.
  const Z0 := Cols(Col(0x2b, 0x7e, 0x15, 0x16), Col(0x28, 0xae, 0xd2, 0xa6),
                   Col(0xab, 0xf7, 0x15, 0x88), Col(0x09, 0xcf, 0x4f, 0x3c))
  const Z1 := Cols(Col(0xdc, 0xd8, 0x7f, 0x6f), Col(0x9b, 0x60, 0xaa, 0x8f),
                   Col(0x1f, 0x01, 0x0f, 0x04), Col(0x57, 0x90, 0xa2, 0xd3))
  const Z2 := Cols(Col(0x9e, 0x03, 0x85, 0x09), Col(0x44, 0x9c, 0x46, 0x72),
                   Col(0xc3, 0x2b, 0x0a, 0x75), Col(0x38, 0xdd, 0x82, 0xa0))
  const Z3 := Cols(Col(0xd5, 0x65, 0x67, 0x02), Col(0x6b, 0xc0, 0x31, 0xf3),
                   Col(0xcd, 0x76, 0x64, 0xe0), Col(0x29, 0xf8, 0xfc, 0x32))
  const Z4 := Cols(Col(0x5c, 0xce, 0xff, 0xfb), Col(0xd9, 0xe1, 0xfe, 0x98),
                   Col(0x9c, 0xd7, 0xdf, 0x39), Col(0x7b, 0x87, 0xe8, 0xa7))
  const Z5 := Cols(Col(0x91, 0x95, 0xb7, 0xf8), Col(0x90, 0x13, 0x9a, 0x53),
                   Col(0x04, 0x7e, 0x97, 0x48), Col(0x7c, 0x11, 0xe4, 0xcb))
  const Z6 := Cols(Col(0x64, 0x6f, 0x75, 0x29), Col(0xf7, 0x6c, 0xbc, 0x45),
                   Col(0xfd, 0x19, 0x93, 0xa6), Col(0x7e, 0xc5, 0x34, 0xfb))
  const Z7 := Cols(Col(0xeb, 0xc7, 0x56, 0x59), Col(0x55, 0x09, 0xb1, 0xd6),
                   Col(0x2e, 0x77, 0x2e, 0xa9), Col(0x11, 0x95, 0x21, 0xc4))
  const Z8 := Cols(Col(0x0d, 0x76, 0xdd, 0x09), Col(0x64, 0x57, 0x14, 0x48),
                   Col(0x6a, 0x70, 0x96, 0x5f), Col(0x2a, 0x08, 0x88, 0x01))
  const Z9 := Cols(Col(0x18, 0xc1, 0x55, 0xa2), Col(0xa9, 0x4d, 0x5e, 0x73),
                   Col(0xef, 0xb9, 0x74, 0x12), Col(0xfb, 0x13, 0x78, 0x1d))

  function Zeros(n: nat): Cols {
    match n
    case 0 => Z0 case 1 => Z1 case 2 => Z2 case 3 => Z3
    case 4 => Z4 case 5 => Z5 case 6 => Z6 case 7 => Z7
    case 8 => Z8 case _ => Z9
  }

  lemma Zeros1()
    ensures Step(Z0, K1) == Z1
  {}

  lemma Zeros2()
    ensures Step(Z1, K2) == Z2
  {}

  lemma Zeros3()
    ensures Step(Z2, K3) == Z3
  {}

  lemma Zeros4()
    ensures Step(Z3, K4) == Z4
  {}

  lemma Zeros5()
    ensures Step(Z4, K5) == Z5
  {}

  lemma Zeros6()
    ensures Step(Z5, K6) == Z6
  {}

  lemma Zeros7()
    ensures Step(Z6, K7) == Z7
  {}

  lemma Zeros8()
    ensures Step(Z7, K8) == Z8
  {}

  lemma Zeros9()
    ensures Step(Z8, K9) == Z9
  {}

  lemma ZerosLast(w: Cols)
    requires w == Cols(Col(0x00, 0x00, 0x00, 0x00), Col(0x00, 0x00, 0x00, 0x00),
                           Col(0x00, 0x00, 0x00, 0x00), Col(0x00, 0x00, 0x00, 0x00))
    ensures Z0 == XorCols(w, K0) && Bytes(w) == [0x00, 0x00, 0x00, 0x00, 0x00, 0x00, 0x00, 0x00, 0x00, 0x00, 0x00, 0x00, 0x00, 0x00, 0x00, 0x00]
    ensures Bytes(XorCols(SubShift(Z9), K10)) == [0x7d, 0xf7, 0x6b, 0x0c, 0x1a, 0xb8, 0x99, 0xb3, 0x3e, 0x42, 0xf0, 0x47, 0xb9, 0x1b, 0x54, 0x6f]
  {}

  // The first line of section 4 of RFC 4493.
  lemma ZerosExample()
    ensures Cipher([0x00, 0x00, 0x00, 0x00, 0x00, 0x00, 0x00, 0x00, 0x00, 0x00, 0x00, 0x00, 0x00, 0x00, 0x00, 0x00], Expand(KEY()))
         == [0x7d, 0xf7, 0x6b, 0x0c, 0x1a, 0xb8, 0x99, 0xb3, 0x3e, 0x42, 0xf0, 0x47, 0xb9, 0x1b, 0x54, 0x6f]
  {
    hide Step, XorCols, SubShift, Bytes, Cipher, Expand, KEY;
    var w := Cols(Col(0x00, 0x00, 0x00, 0x00), Col(0x00, 0x00, 0x00, 0x00),
                  Col(0x00, 0x00, 0x00, 0x00), Col(0x00, 0x00, 0x00, 0x00));
    ZerosLast(w);
    Zeros1();
    Zeros2();
    Zeros3();
    Zeros4();
    Zeros5();
    Zeros6();
    Zeros7();
    Zeros8();
    Zeros9();
    Ciphered(w, Zeros);
  }

  // The states of the last block of example 1, which is empty.
  const N0 := Cols(Col(0x5c, 0xa3, 0xb9, 0x26), Col(0x42, 0x4c, 0xb4, 0x6a),
                   Col(0x52, 0xfc, 0xd4, 0x96), Col(0xed, 0xa2, 0x1e, 0x07))
  const N1 := Cols(Col(0xc2, 0xff, 0x59, 0x39), Col(0x9e, 0x62, 0x56, 0xf2),
                   Col(0x39, 0x2f, 0xa9, 0x51), Col(0x83, 0x31, 0x83, 0x46))
  const N2 := Cols(Col(0xd4, 0x9c, 0x49, 0x50), Col(0xad, 0x8a, 0x52, 0x83),
                   Col(0x6d, 0x7d, 0x58, 0x49), Col(0xea, 0x80, 0x1d, 0x4e))
  const N3 := Cols(Col(0x6a, 0xa5, 0xd4, 0xef), Col(0x9b, 0xc2, 0x32, 0x67),
                   Col(0xfd, 0x3f, 0xd6, 0x35), Col(0x3a, 0x61, 0x9c, 0x01))
  const N4 := Cols(Col(0x0e, 0x71, 0xf1, 0x6c), Col(0x1e, 0x0a, 0xe7, 0x4d),
                   Col(0xf9, 0xbd, 0x9a, 0x71), Col(0x7f, 0x74, 0xcc, 0x89))
  const N5 := Cols(Col(0x2f, 0xc0, 0x93, 0x94), Col(0x0d, 0x88, 0xf3, 0x80),
                   Col(0x0c, 0x4f, 0xd4, 0xe2), Col(0x67, 0x72, 0xa9, 0xbb))
  const N6 := Cols(Col(0xb2, 0x3c, 0xc7, 0x06), Col(0xc2, 0x83, 0xb6, 0x8c),
                   Col(0xed, 0x35, 0xd7, 0x45), Col(0x9b, 0x65, 0x05, 0xf5))
  const N7 := Cols(Col(0xe7, 0x54, 0x01, 0x62), Col(0xb0, 0x9f, 0x1d, 0xbf),
                   Col(0x5b, 0x5c, 0x6c, 0x0e), Col(0x60, 0xc3, 0x0d, 0x0a))
  const N8 := Cols(Col(0x98, 0x7c, 0x35, 0xc3), Col(0xc3, 0x36, 0x47, 0x32),
                   Col(0x45, 0xc2, 0x02, 0x69), Col(0xab, 0x41, 0x6c, 0x8d))
  const N9 := Cols(Col(0x05, 0xff, 0x2c, 0xf1), Col(0x54, 0x40, 0x05, 0x7a),
                   Col(0xdf, 0x20, 0x96, 0xa0), Col(0xfa, 0x1c, 0x39, 0x91))

  function NoBytes(n: nat): Cols {
    match n
    case 0 => N0 case 1 => N1 case 2 => N2 case 3 => N3
    case 4 => N4 case 5 => N5 case 6 => N6 case 7 => N7
    case 8 => N8 case _ => N9
  }

  lemma NoBytes1()
    ensures Step(N0, K1) == N1
  {}

  lemma NoBytes2()
    ensures Step(N1, K2) == N2
  {}

  lemma NoBytes3()
    ensures Step(N2, K3) == N3
  {}

  lemma NoBytes4()
    ensures Step(N3, K4) == N4
  {}

  lemma NoBytes5()
    ensures Step(N4, K5) == N5
  {}

  lemma NoBytes6()
    ensures Step(N5, K6) == N6
  {}

  lemma NoBytes7()
    ensures Step(N6, K7) == N7
  {}

  lemma NoBytes8()
    ensures Step(N7, K8) == N8
  {}

  lemma NoBytes9()
    ensures Step(N8, K9) == N9
  {}

  lemma NoBytesLast(w: Cols)
    requires w == Cols(Col(0x77, 0xdd, 0xac, 0x30), Col(0x6a, 0xe2, 0x66, 0xcc),
                           Col(0xf9, 0x0b, 0xc1, 0x1e), Col(0xe4, 0x6d, 0x51, 0x3b))
    ensures N0 == XorCols(w, K0) && Bytes(w) == [0x77, 0xdd, 0xac, 0x30, 0x6a, 0xe2, 0x66, 0xcc, 0xf9, 0x0b, 0xc1, 0x1e, 0xe4, 0x6d, 0x51, 0x3b]
    ensures Bytes(XorCols(SubShift(N9), K10)) == [0xbb, 0x1d, 0x69, 0x29, 0xe9, 0x59, 0x37, 0x28, 0x7f, 0xa3, 0x7d, 0x12, 0x9b, 0x75, 0x67, 0x46]
  {}

  // The last block of example 1.
  lemma NoBytesExample()
    ensures Cipher([0x77, 0xdd, 0xac, 0x30, 0x6a, 0xe2, 0x66, 0xcc, 0xf9, 0x0b, 0xc1, 0x1e, 0xe4, 0x6d, 0x51, 0x3b], Expand(KEY()))
         == [0xbb, 0x1d, 0x69, 0x29, 0xe9, 0x59, 0x37, 0x28, 0x7f, 0xa3, 0x7d, 0x12, 0x9b, 0x75, 0x67, 0x46]
  {
    hide Step, XorCols, SubShift, Bytes, Cipher, Expand, KEY;
    var w := Cols(Col(0x77, 0xdd, 0xac, 0x30), Col(0x6a, 0xe2, 0x66, 0xcc),
                  Col(0xf9, 0x0b, 0xc1, 0x1e), Col(0xe4, 0x6d, 0x51, 0x3b));
    NoBytesLast(w);
    NoBytes1();
    NoBytes2();
    NoBytes3();
    NoBytes4();
    NoBytes5();
    NoBytes6();
    NoBytes7();
    NoBytes8();
    NoBytes9();
    Ciphered(w, NoBytes);
  }

  // The states of the last block of example 2, which is whole.
  const S0 := Cols(Col(0xbb, 0x51, 0x7d, 0xec), Col(0x33, 0x9f, 0x7e, 0x56),
                   Col(0x3e, 0x4f, 0x8b, 0x16), Col(0x08, 0x6a, 0xf0, 0xc8))
  const S1 := Cols(Col(0xcc, 0x12, 0x96, 0x1f), Col(0xc0, 0xc5, 0x21, 0x60),
                   Col(0x14, 0xbe, 0xa4, 0x70), Col(0x96, 0xac, 0xa3, 0xf9))
  const S2 := Cols(Col(0x45, 0x9c, 0x5a, 0xe9), Col(0x36, 0xb5, 0xe2, 0xa9),
                   Col(0x5e, 0x8d, 0xbb, 0xd5), Col(0xa4, 0x0d, 0xbd, 0x42))
  const S3 := Cols(Col(0x43, 0x56, 0x47, 0xa8), Col(0xce, 0x39, 0x70, 0x2a),
                   Col(0xa1, 0xc4, 0xf8, 0x78), Col(0x1d, 0x24, 0x31, 0xa0))
  const S4 := Cols(Col(0x4c, 0x59, 0x14, 0xe7), Col(0x84, 0x71, 0x04, 0xbd),
                   Col(0xcd, 0x31, 0x4e, 0x2a), Col(0xad, 0x99, 0xc5, 0x74))
  const S5 := Cols(Col(0xc5, 0x46, 0xbf, 0x30), Col(0xa2, 0x2c, 0xf5, 0x34),
                   Col(0x02, 0xe7, 0x8a, 0x80), Col(0x71, 0x09, 0x80, 0xf0))
  const S6 := Cols(Col(0x5b, 0xc2, 0x07, 0x87), Col(0x0b, 0x4a, 0x1d, 0xe2),
                   Col(0x26, 0x8c, 0xc8, 0xe1), Col(0x52, 0xeb, 0xf1, 0x3e))
  const S7 := Cols(Col(0x07, 0x4b, 0x1e, 0x04), Col(0x13, 0x53, 0xe6, 0x65),
                   Col(0x0c, 0x54, 0x73, 0xb7), Col(0x7d, 0xe3, 0xb9, 0x25))
  const S8 := Cols(Col(0xe7, 0x63, 0x1f, 0x69), Col(0x8b, 0xb8, 0x46, 0xdc),
                   Col(0xda, 0x2c, 0x29, 0x80), Col(0x73, 0x2f, 0x82, 0x41))
  const S9 := Cols(Col(0x0d, 0x4c, 0x51, 0x80), Col(0x1a, 0xe9, 0xa6, 0xed),
                   Col(0xff, 0x71, 0x61, 0x7a), Col(0xd3, 0x1d, 0x8c, 0xc4))

  function SixteenBytes(n: nat): Cols {
    match n
    case 0 => S0 case 1 => S1 case 2 => S2 case 3 => S3
    case 4 => S4 case 5 => S5 case 6 => S6 case 7 => S7
    case 8 => S8 case _ => S9
  }

  lemma SixteenBytes1()
    ensures Step(S0, K1) == S1
  {}

  lemma SixteenBytes2()
    ensures Step(S1, K2) == S2
  {}

  lemma SixteenBytes3()
    ensures Step(S2, K3) == S3
  {}

  lemma SixteenBytes4()
    ensures Step(S3, K4) == S4
  {}

  lemma SixteenBytes5()
    ensures Step(S4, K5) == S5
  {}

  lemma SixteenBytes6()
    ensures Step(S5, K6) == S6
  {}

  lemma SixteenBytes7()
    ensures Step(S6, K7) == S7
  {}

  lemma SixteenBytes8()
    ensures Step(S7, K8) == S8
  {}

  lemma SixteenBytes9()
    ensures Step(S8, K9) == S9
  {}

  lemma SixteenBytesLast(w: Cols)
    requires w == Cols(Col(0x90, 0x2f, 0x68, 0xfa), Col(0x1b, 0x31, 0xac, 0xf0),
                           Col(0x95, 0xb8, 0x9e, 0x9e), Col(0x01, 0xa5, 0xbf, 0xf4))
    ensures S0 == XorCols(w, K0) && Bytes(w) == [0x90, 0x2f, 0x68, 0xfa, 0x1b, 0x31, 0xac, 0xf0, 0x95, 0xb8, 0x9e, 0x9e, 0x01, 0xa5, 0xbf, 0xf4]
    ensures Bytes(XorCols(SubShift(S9), K10)) == [0x07, 0x0a, 0x16, 0xb4, 0x6b, 0x4d, 0x41, 0x44, 0xf7, 0x9b, 0xdd, 0x9d, 0xd0, 0x4a, 0x28, 0x7c]
  {}

  // The last block of example 2.
  lemma SixteenBytesExample()
    ensures Cipher([0x90, 0x2f, 0x68, 0xfa, 0x1b, 0x31, 0xac, 0xf0, 0x95, 0xb8, 0x9e, 0x9e, 0x01, 0xa5, 0xbf, 0xf4], Expand(KEY()))
         == [0x07, 0x0a, 0x16, 0xb4, 0x6b, 0x4d, 0x41, 0x44, 0xf7, 0x9b, 0xdd, 0x9d, 0xd0, 0x4a, 0x28, 0x7c]
  {
    hide Step, XorCols, SubShift, Bytes, Cipher, Expand, KEY;
    var w := Cols(Col(0x90, 0x2f, 0x68, 0xfa), Col(0x1b, 0x31, 0xac, 0xf0),
                  Col(0x95, 0xb8, 0x9e, 0x9e), Col(0x01, 0xa5, 0xbf, 0xf4));
    SixteenBytesLast(w);
    SixteenBytes1();
    SixteenBytes2();
    SixteenBytes3();
    SixteenBytes4();
    SixteenBytes5();
    SixteenBytes6();
    SixteenBytes7();
    SixteenBytes8();
    SixteenBytes9();
    Ciphered(w, SixteenBytes);
  }

  // ---- Codes ----

  // One bit up, through all the columns.
  function UpCol(w: Col, next: bv8): Col { Col(Up(w.a, w.b), Up(w.b, w.c), Up(w.c, w.d), Up(w.d, next)) }

  function UpCols(w: Cols): Cols {
    Cols(UpCol(w.c0, w.c1.a), UpCol(w.c1, w.c2.a), UpCol(w.c2, w.c3.a), UpCol(w.c3, 0))
  }

  lemma UpAt(b: Block, r: seq<bv8>)
    requires r == ShiftLeft(b)
    ensures r[0] == Up(b[0], b[1]) && r[1] == Up(b[1], b[2]) && r[2] == Up(b[2], b[3]) && r[3] == Up(b[3], b[4])
    ensures r[4] == Up(b[4], b[5]) && r[5] == Up(b[5], b[6]) && r[6] == Up(b[6], b[7]) && r[7] == Up(b[7], b[8])
    ensures r[8] == Up(b[8], b[9]) && r[9] == Up(b[9], b[10]) && r[10] == Up(b[10], b[11]) && r[11] == Up(b[11], b[12])
    ensures r[12] == Up(b[12], b[13]) && r[13] == Up(b[13], b[14]) && r[14] == Up(b[14], b[15]) && r[15] == Up(b[15], 0)
  {
    hide ShiftLeft, Up;
    forall k | 0 <= k < 15 ensures r[k] == Up(b[k], b[k + 1]) {
      ShiftLeftAt(b, k);
    }
    ShiftLeftAt(b, 15);
  }

  lemma UpIs(w: Cols)
    ensures ShiftLeft(Bytes(w)) == Bytes(UpCols(w))
  {
    hide ShiftLeft, Up;
    UpAt(Bytes(w), ShiftLeft(Bytes(w)));
    Same(ShiftLeft(Bytes(w)), Bytes(UpCols(w)));
  }

  // The subkeys of section 4 of RFC 4493.
  const L := Cols(Col(0x7d, 0xf7, 0x6b, 0x0c), Col(0x1a, 0xb8, 0x99, 0xb3),
                  Col(0x3e, 0x42, 0xf0, 0x47), Col(0xb9, 0x1b, 0x54, 0x6f))
  const L1 := Cols(Col(0xfb, 0xee, 0xd6, 0x18), Col(0x35, 0x71, 0x33, 0x66),
                   Col(0x7c, 0x85, 0xe0, 0x8f), Col(0x72, 0x36, 0xa8, 0xde))
  const L2 := Cols(Col(0xf7, 0xdd, 0xac, 0x30), Col(0x6a, 0xe2, 0x66, 0xcc),
                   Col(0xf9, 0x0b, 0xc1, 0x1e), Col(0xe4, 0x6d, 0x51, 0x3b))

  lemma Subkeys()
    ensures Subkey(Bytes(L)) == Bytes(L1) && Subkey(Bytes(L1)) == Bytes(L2)
  {
    hide ShiftLeft;
    UpIs(L);
    UpIs(L1);
    Doublings();
    Same(Subkey(Bytes(L1)), Bytes(L2));
  }

  lemma Doublings()
    ensures UpCols(L) == L1 && L.c0.a & 0x80 == 0
    ensures UpCols(L1) == L2.(c3 := L2.c3.(d := L2.c3.d ^ 0x87)) && L1.c0.a & 0x80 != 0
  {}

  // The exclusive or with zeros, and the block of padding alone.
  lemma ZeroXor(x: Block)
    ensures Xor(ZERO, x) == x
  {
    forall k | 0 <= k < 16 ensures ZERO[k] ^ x[k] == x[k] {
      ZeroAt(k);
    }
  }

  lemma ZeroAt(k: nat)
    requires k < 16
    ensures ZERO[k] == 0
  {}

  // The padding of nothing, and the text of example 2.
  const PADDING := Cols(Col(0x80, 0x00, 0x00, 0x00), Col(0x00, 0x00, 0x00, 0x00),
                        Col(0x00, 0x00, 0x00, 0x00), Col(0x00, 0x00, 0x00, 0x00))
  const TEXT := Cols(Col(0x6b, 0xc1, 0xbe, 0xe2), Col(0x2e, 0x40, 0x9f, 0x96),
                     Col(0xe9, 0x3d, 0x7e, 0x11), Col(0x73, 0x93, 0x17, 0x2a))

  lemma EmptyPadAt(p: Block)
    requires p == Pad([])
    ensures p[0] == 0x80 && p[1] == 0 && p[2] == 0 && p[3] == 0 && p[4] == 0 && p[5] == 0 && p[6] == 0 && p[7] == 0
    ensures p[8] == 0 && p[9] == 0 && p[10] == 0 && p[11] == 0 && p[12] == 0 && p[13] == 0 && p[14] == 0 && p[15] == 0
  {}

  lemma EmptyPad()
    ensures Pad([]) == Bytes(PADDING)
  {
    hide Pad;
    EmptyPadAt(Pad([]));
    Same(Pad([]), Bytes(PADDING));
  }

  lemma LastBlocks()
    ensures Bytes(XorCols(L2, PADDING)) == [0x77, 0xdd, 0xac, 0x30, 0x6a, 0xe2, 0x66, 0xcc, 0xf9, 0x0b, 0xc1, 0x1e, 0xe4, 0x6d, 0x51, 0x3b]
    ensures Bytes(XorCols(L1, TEXT)) == [0x90, 0x2f, 0x68, 0xfa, 0x1b, 0x31, 0xac, 0xf0, 0x95, 0xb8, 0x9e, 0x9e, 0x01, 0xa5, 0xbf, 0xf4]
    ensures Bytes(L) == [0x7d, 0xf7, 0x6b, 0x0c, 0x1a, 0xb8, 0x99, 0xb3, 0x3e, 0x42, 0xf0, 0x47, 0xb9, 0x1b, 0x54, 0x6f]
  {}

  /** Example 1: the code of nothing. */
  lemma EmptyCode()
    ensures Cmac(Enc(Expand(KEY())), [])
         == [0xbb, 0x1d, 0x69, 0x29, 0xe9, 0x59, 0x37, 0x28, 0x7f, 0xa3, 0x7d, 0x12, 0x9b, 0x75, 0x67, 0x46]
  {
    hide Cipher, Expand, KEY, Xor, Subkey, Pad, Bytes, XorCols;
    ZerosExample();
    Subkeys();
    LastBlocks();
    EmptyPad();
    XorIs(L2, PADDING);
    ZeroXor(Bytes(XorCols(L2, PADDING)));
    NoBytesExample();
  }

  /** Example 2: the code of a whole block. */
  lemma BlockCode()
    ensures Cmac(Enc(Expand(KEY())), [0x6b, 0xc1, 0xbe, 0xe2, 0x2e, 0x40, 0x9f, 0x96, 0xe9, 0x3d, 0x7e, 0x11, 0x73, 0x93, 0x17, 0x2a])
         == [0x07, 0x0a, 0x16, 0xb4, 0x6b, 0x4d, 0x41, 0x44, 0xf7, 0x9b, 0xdd, 0x9d, 0xd0, 0x4a, 0x28, 0x7c]
  {
    hide Cipher, Expand, KEY, Xor, Subkey, Pad, XorCols;
    var m: Block := [0x6b, 0xc1, 0xbe, 0xe2, 0x2e, 0x40, 0x9f, 0x96, 0xe9, 0x3d, 0x7e, 0x11, 0x73, 0x93, 0x17, 0x2a];
    assert m == Bytes(TEXT) && m[..0] == [] && m[0..] == m;
    hide Bytes;
    ZerosExample();
    Subkeys();
    LastBlocks();
    XorIs(L1, TEXT);
    ZeroXor(Bytes(XorCols(L1, TEXT)));
    SixteenBytesExample();
  }
}
