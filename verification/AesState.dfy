/** The cipher as the program runs it: in place, on sixteen bytes of a buffer. */
module AesState {
  import opened SubstitutionBox
  import opened Galois
  import opened Aes

  function BlockAt(s: seq<bv8>, off: nat): Block
    requires off + 16 <= |s|
  {
    s[off..off + 16]
  }

  // The buffer with b written at off.
  function Splice(s: seq<bv8>, off: nat, b: seq<bv8>): (r: seq<bv8>)
    requires off + |b| <= |s|
    ensures |r| == |s|
  {
    s[..off] + b + s[off + |b|..]
  }

  lemma SpliceAt(r: seq<bv8>, s: seq<bv8>, off: nat, b: Block)
    requires off + 16 <= |s| == |r|
    requires forall k :: 0 <= k < |s| ==> r[k] == if off <= k < off + 16 then b[k - off] else s[k]
    ensures r == Splice(s, off, b)
  {}

  lemma SpliceBlock(s: seq<bv8>, off: nat, b: Block)
    requires off + 16 <= |s|
    ensures BlockAt(Splice(s, off, b), off) == b
    ensures forall c: Block :: Splice(Splice(s, off, b), off, c) == Splice(s, off, c)
  {
    forall c: Block ensures Splice(Splice(s, off, b), off, c) == Splice(s, off, c) {
      assert Splice(s, off, b)[..off] == s[..off] && Splice(s, off, b)[off + 16..] == s[off + 16..];
    }
  }

  method AddRoundKeyAt(buf: array<bv8>, off: nat, round: nat, roundKey: array<bv8>)
    requires off + 16 <= buf.Length && round <= 10 && roundKey.Length == 176 && buf != roundKey
    modifies buf
    ensures buf[..] == Splice(old(buf[..]), off, AddRoundKey(BlockAt(old(buf[..]), off), roundKey[..], round))
  {
    ghost var s, rk := buf[..], roundKey[..];
    for i := 0 to 4
      invariant forall k :: 0 <= k < buf.Length ==>
        buf[k] == if off <= k < off + 4 * i then s[k] ^ rk[16 * round + (k - off)] else s[k]
    {
      for j := 0 to 4
        invariant forall k :: 0 <= k < buf.Length ==>
          buf[k] == if off <= k < off + 4 * i + j then s[k] ^ rk[16 * round + (k - off)] else s[k]
      {
        buf[off + 4 * i + j] := buf[off + 4 * i + j] ^ roundKey[16 * round + 4 * i + j];
      }
    }
    ghost var b := AddRoundKey(BlockAt(s, off), rk, round);
    assert forall k :: off <= k < off + 16 ==> b[k - off] == s[k] ^ rk[16 * round + (k - off)];
    SpliceAt(buf[..], s, off, b);
  }

  function Substituted(s: Block, invert: bool): Block {
    if invert then InvSubBytes(s) else SubBytes(s)
  }

  function SboxLookup(x: bv8, invert: bool): bv8 { if invert then Rsbox(x) else Sbox(x) }

  method SubstituteBytesAt(buf: array<bv8>, off: nat, invert: bool)
    requires off + 16 <= buf.Length
    modifies buf
    ensures buf[..] == Splice(old(buf[..]), off, Substituted(BlockAt(old(buf[..]), off), invert))
  {
    hide Sbox, Rsbox;
    ghost var s := buf[..];
    for i := 0 to 4
      invariant forall k :: 0 <= k < buf.Length ==>
        buf[k] == if off <= k < off + 16 && (k - off) % 4 < i then SboxLookup(s[k], invert) else s[k]
    {
      for j := 0 to 4
        invariant forall k :: 0 <= k < buf.Length ==>
          buf[k] == if off <= k < off + 16 && ((k - off) % 4 < i || ((k - off) % 4 == i && k - off < 4 * j))
                    then SboxLookup(s[k], invert) else s[k]
      {
        buf[off + 4 * j + i] := SboxLookup(buf[off + 4 * j + i], invert);
      }
    }
    SpliceAt(buf[..], s, off, Substituted(BlockAt(s, off), invert));
  }

  function Shifted(s: Block, invert: bool): Block {
    if invert then InvShiftRows(s) else ShiftRows(s)
  }

  // The block with row r alone shifted.
  function RowShifted(s: Block, invert: bool, r: nat): Block
    requires r < 4
  {
    var t := Shifted(s, invert);
    s[r := t[r]][4 + r := t[4 + r]][8 + r := t[8 + r]][12 + r := t[12 + r]]
  }

  // Where the bytes of the rows go.
  lemma FirstRow(s: seq<bv8>, off: nat, invert: bool)
    requires off + 16 <= |s|
    ensures var t := Shifted(BlockAt(s, off), invert);
            if invert then t[1] == s[off + 13] && t[5] == s[off + 1] && t[9] == s[off + 5] && t[13] == s[off + 9]
            else t[1] == s[off + 5] && t[5] == s[off + 9] && t[9] == s[off + 13] && t[13] == s[off + 1]
  {}

  lemma MiddleRow(s: seq<bv8>, off: nat, invert: bool)
    requires off + 16 <= |s|
    ensures var t := Shifted(BlockAt(s, off), invert);
            t[2] == s[off + 10] && t[6] == s[off + 14] && t[10] == s[off + 2] && t[14] == s[off + 6]
  {}

  lemma LastRow(s: seq<bv8>, off: nat, invert: bool)
    requires off + 16 <= |s|
    ensures var t := Shifted(BlockAt(s, off), invert);
            if invert then t[3] == s[off + 7] && t[7] == s[off + 11] && t[11] == s[off + 15] && t[15] == s[off + 3]
            else t[3] == s[off + 15] && t[7] == s[off + 3] && t[11] == s[off + 7] && t[15] == s[off + 11]
  {}

  // The first block of swaps in `aes_shift_rows`.
  method CycleRow1(buf: array<bv8>, off: nat, invert: bool)
    requires off + 16 <= buf.Length
    modifies buf
    ensures buf[..] == Splice(old(buf[..]), off, RowShifted(BlockAt(old(buf[..]), off), invert, 1))
  {
    hide *;
    ghost var s := buf[..];
    var r1x := if invert then [3, 2, 1, 0] else [0, 1, 2, 3];
    var t := buf[off + 4 * r1x[0] + 1];
    buf[off + 4 * r1x[0] + 1] := buf[off + 4 * r1x[1] + 1];
    buf[off + 4 * r1x[1] + 1] := buf[off + 4 * r1x[2] + 1];
    buf[off + 4 * r1x[2] + 1] := buf[off + 4 * r1x[3] + 1];
    buf[off + 4 * r1x[3] + 1] := t;
    FirstRow(s, off, invert);
    SpliceRow(buf[..], s, off, invert, 1);
  }

  // Two columns either way are the same.
  method CycleRow2(buf: array<bv8>, off: nat, invert: bool)
    requires off + 16 <= buf.Length
    modifies buf
    ensures buf[..] == Splice(old(buf[..]), off, RowShifted(BlockAt(old(buf[..]), off), invert, 2))
  {
    hide *;
    ghost var s := buf[..];
    var t := buf[off + 2];
    buf[off + 2] := buf[off + 10];
    buf[off + 10] := t;
    t := buf[off + 6];
    buf[off + 6] := buf[off + 14];
    buf[off + 14] := t;
    MiddleRow(s, off, invert);
    SpliceRow(buf[..], s, off, invert, 2);
  }

  method CycleRow3(buf: array<bv8>, off: nat, invert: bool)
    requires off + 16 <= buf.Length
    modifies buf
    ensures buf[..] == Splice(old(buf[..]), off, RowShifted(BlockAt(old(buf[..]), off), invert, 3))
  {
    hide *;
    ghost var s := buf[..];
    var r3x := if invert then [0, 3, 2, 1] else [0, 1, 2, 3];
    var t := buf[off + 4 * r3x[0] + 3];
    buf[off + 4 * r3x[0] + 3] := buf[off + 4 * r3x[3] + 3];
    buf[off + 4 * r3x[3] + 3] := buf[off + 4 * r3x[2] + 3];
    buf[off + 4 * r3x[2] + 3] := buf[off + 4 * r3x[1] + 3];
    buf[off + 4 * r3x[1] + 3] := t;
    LastRow(s, off, invert);
    SpliceRow(buf[..], s, off, invert, 3);
  }

  lemma SpliceRow(t: seq<bv8>, s: seq<bv8>, off: nat, invert: bool, r: nat)
    requires |t| == |s| && off + 16 <= |s| && r < 4
    requires var b := Shifted(BlockAt(s, off), invert);
             t[off + r] == b[r] && t[off + 4 + r] == b[4 + r] && t[off + 8 + r] == b[8 + r] && t[off + 12 + r] == b[12 + r]
    requires forall k :: 0 <= k < |s| && k != off + r && k != off + 4 + r && k != off + 8 + r && k != off + 12 + r ==> t[k] == s[k]
    ensures t == Splice(s, off, RowShifted(BlockAt(s, off), invert, r))
  {
    hide Shifted;
    SpliceAt(t, s, off, RowShifted(BlockAt(s, off), invert, r));
  }

  lemma RowsShifted(b: Block, invert: bool)
    ensures RowShifted(RowShifted(RowShifted(b, invert, 1), invert, 2), invert, 3) == Shifted(b, invert)
  {}

  method ShiftRowsAt(buf: array<bv8>, off: nat, invert: bool)
    requires off + 16 <= buf.Length
    modifies buf
    ensures buf[..] == Splice(old(buf[..]), off, Shifted(BlockAt(old(buf[..]), off), invert))
  {
    hide RowShifted, Shifted, Splice, BlockAt;
    ghost var s := buf[..];
    ghost var b := BlockAt(s, off);
    ghost var b1 := RowShifted(b, invert, 1);
    CycleRow1(buf, off, invert);
    SpliceBlock(s, off, b1);
    CycleRow2(buf, off, invert);
    SpliceBlock(s, off, RowShifted(b1, invert, 2));
    CycleRow3(buf, off, invert);
    RowsShifted(b, invert);
  }

  // Doubling as the program computes it.
  function Doubled(c: bv8): bv8 { (c << 1) ^ (((c >> 7) & 1) * 0x1b) }

  // A byte of the forward mix from the byte, the doubled sum with its neighbour, and the column sum.
  function MixOut(a: bv8, c: bv8, s: bv8): bv8 { a ^ (c ^ s) }

  lemma MixStep(a: bv8, b: bv8, c: bv8, d: bv8)
    ensures MixOut(a, Doubled(Plus(a, b)), Plus4(a, b, c, d)) == Mixed(a, b, c, d)
  {
    DoubledSum(a, b);
    PlusTerms(Xtime(a), Xtime(b), b, c, d);
    PlusIs(a, b, c, d);
    hide Doubled, Xtime, Plus4, Plus, MixOut;
    MixTerms(a, b, c, d, Xtime(a), Xtime(b));
  }

  lemma PlusIs(a: bv8, b: bv8, c: bv8, d: bv8)
    ensures Plus(a, b) == a ^ b && Plus4(a, b, c, d) == a ^ b ^ c ^ d
  {}

  lemma DoubledIsXtime(c: bv8)
    ensures Doubled(c) == Xtime(c)
  {}

  lemma DoubledSum(a: bv8, b: bv8)
    ensures Doubled(a ^ b) == Xtime(a) ^ Xtime(b)
  {
    DoubledIsXtime(a);
    DoubledIsXtime(b);
    hide Xtime;
  }

  lemma MixTerms(a: bv8, b: bv8, c: bv8, d: bv8, x: bv8, y: bv8)
    ensures MixOut(a, x ^ y, a ^ b ^ c ^ d) == x ^ (y ^ b) ^ c ^ d
  {}

  function ColumnAt(s: seq<bv8>, p: nat): Column
    requires p + 4 <= |s|
  {
    [s[p], s[p + 1], s[p + 2], s[p + 3]]
  }

  function MixedColumn(c: Column, invert: bool): Column {
    if invert then InvMixColumn(c) else MixColumn(c)
  }

  function MixedState(s: Block, invert: bool): Block {
    if invert then InvMixColumns(s) else MixColumns(s)
  }

  // The buffer with the first n bytes of m written from p on.
  ghost function Written(s: seq<bv8>, p: nat, m: seq<bv8>, n: nat): (r: seq<bv8>)
    requires n <= |m| && p + |m| <= |s|
    ensures |r| == |s|
  {
    Splice(s, p, m[..n])
  }

  lemma WrittenNext(s: seq<bv8>, p: nat, m: seq<bv8>, n: nat)
    requires n < |m| && p + |m| <= |s|
    ensures Written(s, p, m, n)[p + n := m[n]] == Written(s, p, m, n + 1)
    ensures forall k :: p + n <= k < |s| ==> Written(s, p, m, n)[k] == s[k]
  {}

  lemma WrittenNone(s: seq<bv8>, p: nat, m: seq<bv8>)
    requires p + |m| <= |s|
    ensures Written(s, p, m, 0) == s
  {}

  // One column of `aes_mix_columns`, forwards: each byte is overwritten while its successors are
  // still needed.
  method MixForward(buf: array<bv8>, p: nat)
    requires p + 4 <= buf.Length
    modifies buf
    ensures buf[..] == Written(old(buf[..]), p, MixColumn(ColumnAt(old(buf[..]), p)), 4)
  {
    ghost var b := buf[..];
    ghost var m := MixColumn(ColumnAt(b, p));
    WrittenNone(b, p, m);
    hide MixColumn, ColumnAt, Doubled, MixOut, Plus, Plus4, Written;
    var s := Plus4(buf[p], buf[p + 1], buf[p + 2], buf[p + 3]);
    var c0 := buf[p];
    for j := 0 to 4
      invariant buf[..] == Written(b, p, m, j)
    {
      MixForwardStep(b, buf[..], p, j);
      var c := Plus(buf[p + j], if j == 3 then c0 else buf[p + j + 1]);
      c := Doubled(c);
      buf[p + j] := MixOut(buf[p + j], c, s);
    }
  }

  lemma MixForwardStep(b: seq<bv8>, t: seq<bv8>, p: nat, j: nat)
    requires p + 4 <= |b| && j < 4 && t == Written(b, p, MixColumn(ColumnAt(b, p)), j)
    ensures var c := Doubled(Plus(t[p + j], if j == 3 then b[p] else t[p + j + 1]));
            var v := MixOut(t[p + j], c, Plus4(b[p], b[p + 1], b[p + 2], b[p + 3]));
            t[p + j := v] == Written(b, p, MixColumn(ColumnAt(b, p)), j + 1)
  {
    hide MixColumn, Doubled, MixOut, Plus, Plus4, Written, ColumnAt;
    var x := ColumnAt(b, p);
    WrittenNext(b, p, MixColumn(x), j);
    MixByte(x, j);
    ColumnBytes(b, p, j);
    ColumnBytes(b, p, if j == 3 then 0 else j + 1);
    ColumnBytes(b, p, 0);
    ColumnBytes(b, p, 1);
    ColumnBytes(b, p, 2);
    ColumnBytes(b, p, 3);
  }

  lemma ColumnBytes(s: seq<bv8>, p: nat, j: nat)
    requires p + 4 <= |s| && j < 4
    ensures ColumnAt(s, p)[j] == s[p + j]
  {}

  lemma MixByte(x: Column, j: nat)
    requires j < 4
    ensures MixColumn(x)[j] == MixOut(x[j], Doubled(Plus(x[j], if j == 3 then x[0] else x[j + 1])), Plus4(x[0], x[1], x[2], x[3]))
  {
    var a, b, c, d := x[0], x[1], x[2], x[3];
    assert x == [a, b, c, d];
    hide MixColumn, Mixed, Doubled, MixOut, Plus, Plus4;
    MixColumnRows(a, b, c, d);
    MixStep(a, b, c, d);
    MixStep(b, c, d, a);
    MixStep(c, d, a, b);
    MixStep(d, a, b, c);
    Plus4Rotate(a, b, c, d);
    Plus4Rotate(b, c, d, a);
    Plus4Rotate(c, d, a, b);
  }

  // One column, backwards, from a copy.
  method MixBackward(buf: array<bv8>, p: nat)
    requires p + 4 <= buf.Length
    modifies buf
    ensures buf[..] == Written(old(buf[..]), p, InvMixColumn(ColumnAt(old(buf[..]), p)), 4)
  {
    ghost var b := buf[..];
    ghost var m := InvMixColumn(ColumnAt(b, p));
    hide Gfmul, Plus4;
    var s := [buf[p], buf[p + 1], buf[p + 2], buf[p + 3]];
    buf[p] := Plus4(Gfmul(s[0], 0xe), Gfmul(s[1], 0xb), Gfmul(s[2], 0xd), Gfmul(s[3], 0x9));
    buf[p + 1] := Plus4(Gfmul(s[0], 0x9), Gfmul(s[1], 0xe), Gfmul(s[2], 0xb), Gfmul(s[3], 0xd));
    buf[p + 2] := Plus4(Gfmul(s[0], 0xd), Gfmul(s[1], 0x9), Gfmul(s[2], 0xe), Gfmul(s[3], 0xb));
    buf[p + 3] := Plus4(Gfmul(s[0], 0xb), Gfmul(s[1], 0xd), Gfmul(s[2], 0x9), Gfmul(s[3], 0xe));
    WrittenFour(b, p, m);
  }

  lemma WrittenFour(s: seq<bv8>, p: nat, m: Column)
    requires p + 4 <= |s|
    ensures Written(s, p, m, 4) == s[p := m[0]][p + 1 := m[1]][p + 2 := m[2]][p + 3 := m[3]]
  {}

  lemma FourParts(a: seq<bv8>, b: seq<bv8>, c: seq<bv8>, d: seq<bv8>, i: nat)
    requires |a| == |b| == |c| == |d| == 4 && i < 4
    ensures (a + b + c + d)[4 * i..4 * i + 4] == if i == 0 then a else if i == 1 then b else if i == 2 then c else d
  {
    if i == 0 {} else if i == 1 {} else if i == 2 {} else {}
  }

  lemma MixedColumns(s: Block, invert: bool, i: nat)
    requires i < 4
    ensures MixedState(s, invert)[4 * i..4 * i + 4] == MixedColumn(ColumnAt(s, 4 * i), invert)
  {
    hide MixColumn, InvMixColumn;
    FourParts(MixedColumn(s[0..4], invert), MixedColumn(s[4..8], invert),
              MixedColumn(s[8..12], invert), MixedColumn(s[12..16], invert), i);
    assert s[4 * i..4 * i + 4] == ColumnAt(s, 4 * i);
    hide ColumnAt;
  }

  // Writing column i of m extends what has been written of m.
  lemma WrittenColumn(s: seq<bv8>, off: nat, m: Block, i: nat, c: Column)
    requires off + 16 <= |s| && i < 4 && c == m[4 * i..4 * i + 4]
    ensures Written(Written(s, off, m, 4 * i), off + 4 * i, c, 4) == Written(s, off, m, 4 * (i + 1))
    ensures ColumnAt(Written(s, off, m, 4 * i), off + 4 * i) == ColumnAt(BlockAt(s, off), 4 * i)
  {
    assert m[..4 * i + 4] == m[..4 * i] + c;
    var w, b := Written(s, off, m, 4 * i), BlockAt(s, off);
    var p := off + 4 * i;
    assert w[p] == s[p] == b[4 * i] && w[p + 1] == s[p + 1] == b[4 * i + 1];
    assert w[p + 2] == s[p + 2] == b[4 * i + 2] && w[p + 3] == s[p + 3] == b[4 * i + 3];
  }

  method MixColumnsAt(buf: array<bv8>, off: nat, invert: bool)
    requires off + 16 <= buf.Length
    modifies buf
    ensures buf[..] == Splice(old(buf[..]), off, MixedState(BlockAt(old(buf[..]), off), invert))
  {
    ghost var s := buf[..];
    ghost var b := BlockAt(s, off);
    ghost var m := MixedState(b, invert);
    WrittenNone(s, off, m);
    hide MixedState, MixColumn, InvMixColumn, Written, ColumnAt, BlockAt, Splice;
    for i := 0 to 4
      invariant buf[..] == Written(s, off, m, 4 * i)
    {
      MixedColumns(b, invert, i);
      WrittenColumn(s, off, m, i, MixedColumn(ColumnAt(b, 4 * i), invert));
      if invert {
        MixBackward(buf, off + 4 * i);
      } else {
        MixForward(buf, off + 4 * i);
      }
    }
    WrittenAll(s, off, m);
  }

  lemma WrittenAll(s: seq<bv8>, off: nat, m: Block)
    requires off + 16 <= |s|
    ensures Written(s, off, m, 16) == Splice(s, off, m)
  {}

  // The state of `aes_xcrypt` before round i, forwards and backwards.
  lemma ForwardRound(s: Block, rk: RoundKeys, i: nat)
    requires 1 <= i <= 9
    ensures Rounds(s, rk, i) == AddRoundKey(MixColumns(ShiftRows(SubBytes(Rounds(s, rk, i - 1)))), rk, i)
  {}

  lemma BackwardRound(s: Block, rk: RoundKeys, round: nat)
    requires round <= 9
    ensures InvRounds(s, rk, round)
         == AddRoundKey(InvSubBytes(InvShiftRows(if round == 9 then InvRounds(s, rk, 10) else InvMixColumns(InvRounds(s, rk, round + 1)))), rk, round)
  {}

  /** The block cipher and its inverse, in place. */
  method Xcrypt(buf: array<bv8>, off: nat, roundKey: array<bv8>, decrypt: bool)
    requires off + 16 <= buf.Length && roundKey.Length == 176 && buf != roundKey
    modifies buf
    ensures buf[..] == Splice(old(buf[..]), off,
              if decrypt then InvCipher(BlockAt(old(buf[..]), off), roundKey[..])
              else Cipher(BlockAt(old(buf[..]), off), roundKey[..]))
  {
    if decrypt {
      Decrypt(buf, off, roundKey);
    } else {
      Encrypt(buf, off, roundKey);
    }
  }

  method Encrypt(buf: array<bv8>, off: nat, roundKey: array<bv8>)
    requires off + 16 <= buf.Length && roundKey.Length == 176 && buf != roundKey
    modifies buf
    ensures buf[..] == Splice(old(buf[..]), off, Cipher(BlockAt(old(buf[..]), off), roundKey[..]))
  {
    hide Splice, BlockAt, AddRoundKey, SubBytes, ShiftRows, MixColumns, Rounds;
    ghost var s, rk := buf[..], roundKey[..];
    ghost var b := BlockAt(s, off);
    ghost var t := FirstState(b, rk);
    AddRoundKeyAt(buf, off, 0, roundKey);
    var i := 1;
    while true
      invariant 1 <= i <= 10 && roundKey[..] == rk
      invariant buf[..] == Splice(s, off, Rounds(b, rk, i - 1))
      decreases 10 - i
    {
      ghost var r := Rounds(b, rk, i - 1);
      SpliceBlock(s, off, r);
      SubstituteBytesAt(buf, off, false);
      SpliceBlock(s, off, SubBytes(r));
      ShiftRowsAt(buf, off, false);
      SpliceBlock(s, off, ShiftRows(SubBytes(r)));
      if i == 10 {
        break;
      }
      MixColumnsAt(buf, off, false);
      SpliceBlock(s, off, MixColumns(ShiftRows(SubBytes(r))));
      AddRoundKeyAt(buf, off, i, roundKey);
      ForwardRound(b, rk, i);
      i := i + 1;
    }
    AddRoundKeyAt(buf, off, 10, roundKey);
  }

  ghost function FirstState(b: Block, rk: RoundKeys): (t: Block)
    ensures t == Rounds(b, rk, 0) == AddRoundKey(b, rk, 0)
  {
    Rounds(b, rk, 0)
  }

  ghost function LastKeyed(b: Block, rk: RoundKeys): (t: Block)
    ensures t == InvRounds(b, rk, 10) == AddRoundKey(b, rk, 10)
  {
    InvRounds(b, rk, 10)
  }

  method Decrypt(buf: array<bv8>, off: nat, roundKey: array<bv8>)
    requires off + 16 <= buf.Length && roundKey.Length == 176 && buf != roundKey
    modifies buf
    ensures buf[..] == Splice(old(buf[..]), off, InvCipher(BlockAt(old(buf[..]), off), roundKey[..]))
  {
    hide Splice, BlockAt, AddRoundKey, InvSubBytes, InvShiftRows, InvMixColumns, InvRounds;
    ghost var s, rk := buf[..], roundKey[..];
    ghost var b := BlockAt(s, off);
    ghost var t := LastKeyed(b, rk);
    AddRoundKeyAt(buf, off, 10, roundKey);
    var i := 0;
    while true
      invariant 0 <= i <= 9 && roundKey[..] == rk
      invariant buf[..] == Splice(s, off, if i == 0 then InvRounds(b, rk, 10) else InvMixColumns(InvRounds(b, rk, 10 - i)))
      decreases 9 - i
    {
      ghost var r := if i == 0 then InvRounds(b, rk, 10) else InvMixColumns(InvRounds(b, rk, 10 - i));
      SpliceBlock(s, off, r);
      ShiftRowsAt(buf, off, true);
      SpliceBlock(s, off, InvShiftRows(r));
      SubstituteBytesAt(buf, off, true);
      SpliceBlock(s, off, InvSubBytes(InvShiftRows(r)));
      AddRoundKeyAt(buf, off, 9 - i, roundKey);
      BackwardRound(b, rk, 9 - i);
      SpliceBlock(s, off, InvRounds(b, rk, 9 - i));
      if i == 9 {
        break;
      }
      MixColumnsAt(buf, off, true);
      i := i + 1;
    }
  }
}
