/** The expansion of a cipher key into the eleven round keys: section 5.2 of FIPS 197. */
module KeySchedule {
  import opened SubstitutionBox
  import opened Galois
  import opened Aes

  function RotWord(w: Column): Column { [w[1], w[2], w[3], w[0]] }

  function SubWord(w: Column): Column { [Sbox(w[0]), Sbox(w[1]), Sbox(w[2]), Sbox(w[3])] }

  function XorWord(a: Column, b: Column): Column {
    seq(4, j requires 0 <= j < 4 => a[j] ^ b[j])
  }

  // The powers of {02} in the field: x^(n-1) for n from 1.
  function RoundConstant(n: nat): bv8
    requires n > 0
  {
    if n == 1 then 1 else Xtime(RoundConstant(n - 1))
  }

  // Word i of the schedule: section 5.2, with a key of four words.
  function Word(i: nat, key: Block): (w: Column) {
    if i < 4 then key[4 * i..4 * i + 4]
    else XorWord(Word(i - 4, key), Mask(i, Word(i - 1, key)))
  }

  // What the word four places back is combined with.
  function Mask(i: nat, previous: Column): Column
    requires i >= 4
  {
    if i % 4 != 0 then previous
    else XorWord(SubWord(RotWord(previous)), [RoundConstant(i / 4), 0, 0, 0])
  }

  function Expand(key: Block): RoundKeys {
    seq(176, k requires 0 <= k < 176 => Word(k / 4, key)[k % 4])
  }

  // The table in the program.
  const CONSTANTS: seq<bv8> := [0x8d, 0x01, 0x02, 0x04, 0x08, 0x10, 0x20, 0x40, 0x80, 0x1b, 0x36]

  lemma {:induction false} ConstantsArePowers(n: nat)
    requires 1 <= n <= 10
    ensures |CONSTANTS| == 11 && CONSTANTS[n] == RoundConstant(n)
    decreases n
  {
    if n > 1 {
      ConstantsArePowers(n - 1);
      NextConstant(n);
    }
  }

  lemma NextConstant(n: nat)
    requires 2 <= n <= 10
    ensures CONSTANTS[n] == Xtime(CONSTANTS[n - 1])
  {}

  /** The round keys, written word by word. */
  method Expansion(roundKey: array<bv8>, key: array<bv8>, keyOff: nat)
    requires roundKey.Length == 176 && keyOff + 16 <= key.Length && roundKey != key
    modifies roundKey
    ensures roundKey[..] == Expand(key[keyOff..keyOff + 16])
  {
    hide Sbox, Word, Mask, SubWord, XorWord, RoundConstant;
    ghost var k := key[keyOff..keyOff + 16];
    for j := 0 to 16
      invariant forall n :: 0 <= n < j ==> roundKey[n] == k[n]
    {
      roundKey[j] := key[keyOff + j];
    }
    forall n | 0 <= n < 16 ensures roundKey[n] == Word(n / 4, k)[n % 4] {
      FirstWords(n, k);
    }
    var word := new bv8[4];
    for i := 4 to 44
      invariant forall n :: 0 <= n < 4 * i ==> roundKey[n] == Word(n / 4, k)[n % 4]
      modifies roundKey, word
    {
      ghost var w := Word(i - 1, k);
      ghost var before := roundKey[..];
      for j := 0 to 4
        invariant forall n :: 0 <= n < j ==> word[n] == w[n]
        modifies word
      {
        IndexInWord(i - 1, j);
        word[j] := roundKey[4 * (i - 1) + j];
      }
      assert word[..] == w;
      NextMask(word, i);
      for j := 0 to 4
        invariant forall n :: 0 <= n < 4 * i + j ==> roundKey[n] == Word(n / 4, k)[n % 4]
        modifies roundKey
      {
        IndexInWord(i - 4, j);
        IndexInWord(i, j);
        WordAt(i, k, j);
        roundKey[4 * i + j] := roundKey[4 * (i - 4) + j] ^ word[j];
      }
    }
    assert forall n :: 0 <= n < 176 ==> roundKey[n] == Expand(k)[n];
  }

  lemma FirstWords(n: nat, key: Block)
    requires n < 16
    ensures Word(n / 4, key)[n % 4] == key[n]
  {}

  lemma IndexInWord(i: nat, j: nat)
    requires j < 4
    ensures (4 * i + j) / 4 == i && (4 * i + j) % 4 == j
  {}

  lemma WordAt(i: nat, key: Block, j: nat)
    requires i >= 4 && j < 4
    ensures Word(i, key)[j] == Word(i - 4, key)[j] ^ Mask(i, Word(i - 1, key))[j]
  {
    var a, b := Word(i - 4, key), Mask(i, Word(i - 1, key));
    assert Word(i, key) == XorWord(a, b);
    hide Mask, Word;
    XorWordAt(a, b, j);
  }

  lemma XorWordAt(a: Column, b: Column, j: nat)
    requires j < 4
    ensures XorWord(a, b)[j] == a[j] ^ b[j]
  {}

  method Rotate(word: array<bv8>)
    requires word.Length == 4
    modifies word
    ensures word[..] == RotWord(old(word[..]))
  {
    var first := word[0];
    word[0] := word[1];
    word[1] := word[2];
    word[2] := word[3];
    word[3] := first;
  }

  method Substitute(word: array<bv8>)
    requires word.Length == 4
    modifies word
    ensures word[..] == SubWord(old(word[..]))
  {
    hide Sbox;
    ghost var w := word[..];
    for j := 0 to 4
      invariant forall n :: 0 <= n < 4 ==> word[n] == if n < j then Sbox(w[n]) else w[n]
    {
      word[j] := Sbox(word[j]);
    }
  }

  // Rotation, substitution and constant, on every fourth word.
  method NextMask(word: array<bv8>, i: nat)
    requires word.Length == 4 && 4 <= i < 44
    modifies word
    ensures word[..] == Mask(i, old(word[..]))
  {
    hide *;
    if i % 4 == 0 {
      ghost var w := word[..];
      Rotate(word);
      Substitute(word);
      ConstantsArePowers(i / 4);
      word[0] := word[0] ^ CONSTANTS[i / 4];
      MaskAt(i, w);
    } else {
      MaskOther(i, word[..]);
    }
  }

  lemma MaskOther(i: nat, w: Column)
    requires i >= 4 && i % 4 != 0
    ensures Mask(i, w) == w
  {}

  lemma MaskAt(i: nat, w: Column)
    requires i >= 4 && i % 4 == 0
    ensures var s := SubWord(RotWord(w)); Mask(i, w) == s[0 := s[0] ^ RoundConstant(i / 4)]
  {
    var s := SubWord(RotWord(w));
    hide SubWord, RotWord, RoundConstant;
    FirstOnly(s, RoundConstant(i / 4));
  }

  lemma FirstOnly(s: Column, c: bv8)
    ensures XorWord(s, [c, 0, 0, 0]) == s[0 := s[0] ^ c]
  {
    var d: Column := [c, 0, 0, 0];
    forall j | 0 <= j < 4 ensures XorWord(s, d)[j] == s[0 := s[0] ^ c][j] {
      if j > 0 {
        assert d[j] == 0;
        XorZero(s[j]);
      }
    }
  }

  lemma XorZero(x: bv8)
    ensures x ^ 0 == x
  {}
}
