/** SHA-256: the hash of FIPS 180-4, and the program's streaming form of it. */
module Sha256 {
  import opened WireUtil

  // Words of 32 bits: sums are modulo 2^32, everything else works on the bits.
  const TWO32 := 0x1_0000_0000
  type Word = x: nat | x < TWO32

  type Words = s: seq<Word> | |s| == 8 witness [0, 0, 0, 0, 0, 0, 0, 0]

  // A block of 512 bits.
  type Chunk = s: seq<bv8> | |s| == 64 witness seq(64, _ => 0)

  function Add(x: Word, y: Word): Word { (x + y) % TWO32 }

  lemma AddReorder(x: Word, y: Word, z: Word)
    ensures Add(Add(x, y), z) == Add(Add(x, z), y) == Add(x, Add(z, y))
  {
    AddIs(x, y);
    AddIs(x, z);
    AddIs(z, y);
    AddIs(Add(x, y), z);
    AddIs(Add(x, z), y);
    AddIs(x, Add(z, y));
    hide Add;
  }

  lemma AddIs(x: Word, y: Word)
    ensures Add(x, y) == if x + y < TWO32 then x + y else x + y - TWO32
  {}

  // ---- The functions of sections 3.2 and 4.1.2 ----

  function Shr(x: bv32, n: nat): bv32
    requires n < 32
  {
    x >> n
  }

  function Rotr(x: bv32, n: nat): bv32
    requires n < 32
  {
    (x >> n) | (x << (32 - n))
  }

  function Parity(u: bv32, v: bv32, w: bv32): bv32 { u ^ v ^ w }
  function ChOf(u: bv32, v: bv32, w: bv32): bv32 { (u & v) ^ (!u & w) }
  function MajOf(u: bv32, v: bv32, w: bv32): bv32 { (u & v) ^ (u & w) ^ (v & w) }
  function Sum0Of(u: bv32): bv32 { Parity(Rotr(u, 2), Rotr(u, 13), Rotr(u, 22)) }
  function Sum1Of(u: bv32): bv32 { Parity(Rotr(u, 6), Rotr(u, 11), Rotr(u, 25)) }
  function Sig0Of(u: bv32): bv32 { Parity(Rotr(u, 7), Rotr(u, 18), Shr(u, 3)) }
  function Sig1Of(u: bv32): bv32 { Parity(Rotr(u, 17), Rotr(u, 19), Shr(u, 10)) }

  // The same on words.
  function Ch(x: Word, y: Word, z: Word): Word { ChOf(x as bv32, y as bv32, z as bv32) as nat }
  function Maj(x: Word, y: Word, z: Word): Word { MajOf(x as bv32, y as bv32, z as bv32) as nat }
  function Sum0(x: Word): Word { Sum0Of(x as bv32) as nat }
  function Sum1(x: Word): Word { Sum1Of(x as bv32) as nat }
  function Sig0(x: Word): Word { Sig0Of(x as bv32) as nat }
  function Sig1(x: Word): Word { Sig1Of(x as bv32) as nat }

  // Section 4.2.2, row by row.
  const ROW0: seq<Word> := [0x428a2f98, 0x71374491, 0xb5c0fbcf, 0xe9b5dba5, 0x3956c25b, 0x59f111f1, 0x923f82a4, 0xab1c5ed5]
  const ROW1: seq<Word> := [0xd807aa98, 0x12835b01, 0x243185be, 0x550c7dc3, 0x72be5d74, 0x80deb1fe, 0x9bdc06a7, 0xc19bf174]
  const ROW2: seq<Word> := [0xe49b69c1, 0xefbe4786, 0x0fc19dc6, 0x240ca1cc, 0x2de92c6f, 0x4a7484aa, 0x5cb0a9dc, 0x76f988da]
  const ROW3: seq<Word> := [0x983e5152, 0xa831c66d, 0xb00327c8, 0xbf597fc7, 0xc6e00bf3, 0xd5a79147, 0x06ca6351, 0x14292967]
  const ROW4: seq<Word> := [0x27b70a85, 0x2e1b2138, 0x4d2c6dfc, 0x53380d13, 0x650a7354, 0x766a0abb, 0x81c2c92e, 0x92722c85]
  const ROW5: seq<Word> := [0xa2bfe8a1, 0xa81a664b, 0xc24b8b70, 0xc76c51a3, 0xd192e819, 0xd6990624, 0xf40e3585, 0x106aa070]
  const ROW6: seq<Word> := [0x19a4c116, 0x1e376c08, 0x2748774c, 0x34b0bcb5, 0x391c0cb3, 0x4ed8aa4a, 0x5b9cca4f, 0x682e6ff3]
  const ROW7: seq<Word> := [0x748f82ee, 0x78a5636f, 0x84c87814, 0x8cc70208, 0x90befffa, 0xa4506ceb, 0xbef9a3f7, 0xc67178f2]

  const K: seq<Word> := (ROW0 + ROW1) + (ROW2 + ROW3) + ((ROW4 + ROW5) + (ROW6 + ROW7))

  // Section 5.3.3.
  const INITIAL: Words := [0x6a09e667, 0xbb67ae85, 0x3c6ef372, 0xa54ff53a, 0x510e527f, 0x9b05688c, 0x1f83d9ab, 0x5be0cd19]

  // The constants of round t; the table's length is stated once, here.
  function Constant(t: nat): Word
    requires t < 64
  {
    assert |K| == 64;
    K[t]
  }

  // ---- Section 6.2.2 ----

  function WordOf(b0: bv8, b1: bv8, b2: bv8, b3: bv8): Word {
    (((b0 as bv32) << 24) | ((b1 as bv32) << 16) | ((b2 as bv32) << 8) | (b3 as bv32)) as nat
  }

  // Step 1: the message schedule.
  function Schedule(t: nat, block: Chunk): Word {
    if t < 16 then WordOf(block[4 * t], block[4 * t + 1], block[4 * t + 2], block[4 * t + 3])
    else Add(Add(Add(Sig1(Schedule(t - 2, block)), Schedule(t - 7, block)), Sig0(Schedule(t - 15, block))), Schedule(t - 16, block))
  }

  function Temp1(v: Words, k: Word, w: Word): Word {
    Add(Add(Add(Add(v[7], Sum1(v[4])), Ch(v[4], v[5], v[6])), k), w)
  }

  function Temp2(v: Words): Word { Add(Sum0(v[0]), Maj(v[0], v[1], v[2])) }

  // Step 3: the working variables a to h shift by one place, with new values of a and e.
  function ShiftIn(v: Words, a: Word, e: Word): Words {
    [a, v[0], v[1], v[2], e, v[4], v[5], v[6]]
  }

  function Round(v: Words, k: Word, w: Word): Words {
    ShiftIn(v, Add(Temp1(v, k, w), Temp2(v)), Add(v[3], Temp1(v, k, w)))
  }

  function Rounds(t: nat, h: Words, block: Chunk): Words
    requires t <= 64
  {
    if t == 0 then h else Round(Rounds(t - 1, h, block), Constant(t - 1), Schedule(t - 1, block))
  }

  // Step 4.
  function AddWords(a: Words, b: Words): Words {
    seq(8, j requires 0 <= j < 8 => Add(a[j], b[j]))
  }

  function Compress(h: Words, block: Chunk): Words { AddWords(h, Rounds(64, h, block)) }

  // The hash values after all the blocks of a padded message.
  function HashBlocks(data: seq<bv8>): Words
    requires |data| % 64 == 0
    decreases |data|
  {
    if |data| == 0 then INITIAL else Compress(HashBlocks(data[..|data| - 64]), data[|data| - 64..])
  }

  // ---- Section 5.1.1 ----

  const WORD64 := 0x1_0000_0000_0000_0000

  // A number as eight bytes, the most significant first.
  function BigEndian64(n: nat): (s: seq<bv8>)
    ensures |s| == 8
  {
    seq(8, i requires 0 <= i < 8 => Byte(n, 7 - i))
  }

  // The number of zero bytes that fill the last block up to its length field.
  function Zeros(n: nat): (z: nat)
    ensures z < 64 && (n + 1 + z + 8) % 64 == 0
  {
    (119 - n % 64) % 64
  }

  function Padded(m: seq<bv8>): (p: seq<bv8>)
    ensures |p| % 64 == 0
  {
    m + [0x80] + seq(Zeros(|m|), _ => 0) + BigEndian64(8 * |m| % WORD64)
  }

  // The bytes of a word, the most significant first.
  function ByteBits(u: bv32, i: nat): bv8
    requires i < 4
  {
    match i
    case 0 => ((u >> 24) & 0xff) as bv8
    case 1 => ((u >> 16) & 0xff) as bv8
    case 2 => ((u >> 8) & 0xff) as bv8
    case _ => (u & 0xff) as bv8
  }

  function WordByte(w: Word, i: nat): bv8
    requires i < 4
  {
    ByteBits(w as bv32, i)
  }

  function Digest(h: Words): (d: seq<bv8>)
    ensures |d| == 32
  {
    seq(32, n requires 0 <= n < 32 => WordByte(h[n / 4], n % 4))
  }

  function Hash(m: seq<bv8>): seq<bv8> { Digest(HashBlocks(Padded(m))) }

  /** No two messages have the same padding, as long as their length fits the length field. */
  lemma PaddingTellsMessage(m: seq<bv8>, n: seq<bv8>)
    requires Padded(m) == Padded(n) && 8 * |m| < WORD64 && 8 * |n| < WORD64
    ensures m == n
  {
    hide Byte, Unpack, Pack, Zeros;
    var p := Padded(m);
    var tail := p[|p| - 8..];
    assert tail == BigEndian64(8 * |m|) && tail == BigEndian64(8 * |n|);
    forall i | 0 <= i < 8 ensures Byte(8 * |m|, i) == Byte(8 * |n|, i) {
      assert tail[7 - i] == BigEndian64(8 * |m|)[7 - i] == BigEndian64(8 * |n|)[7 - i];
    }
    SameBytes(8 * |m|, 8 * |n|);
    Pack64Unpack64(8 * |m|);
    Pack64Unpack64(8 * |n|);
    assert m == p[..|m|] && n == p[..|n|];
  }

  lemma SameBytes(a: nat, b: nat)
    requires forall i :: 0 <= i < 8 ==> Byte(a, i) == Byte(b, i)
    ensures Unpack(a, 8) == Unpack(b, 8)
  {}

  // ---- The compression loop with a rotating index table ----

  // Where the program keeps working variable j after i rounds.
  function Place(i: nat, j: int): (p: nat)
    ensures p < 8
  {
    (j - i) % 8
  }

  lemma PlaceMoves(i: nat, j: nat)
    requires j < 8
    ensures Place(i + 1, j) == Place(i, if j == 0 then 7 else j - 1)
  {}

  lemma PlacesDiffer(i: nat, j: nat, k: nat)
    requires j < k < 8
    ensures Place(i, j) != Place(i, k)
  {
    assert j - i == 8 * ((j - i) / 8) + Place(i, j);
    assert k - i == 8 * ((k - i) / 8) + Place(i, k);
  }

  // The variables v, each in its place after i rounds.
  ghost predicate Rotated(s: seq<Word>, v: Words, i: nat) {
    |s| == 8 && forall j :: 0 <= j < 8 ==> s[Place(i, j)] == v[j]
  }

  lemma RoundRotates(s: seq<Word>, v: Words, i: nat, a: Word, e: Word)
    requires Rotated(s, v, i)
    ensures Rotated(s[Place(i, 7) := a][Place(i, 3) := e], ShiftIn(v, a, e), i + 1)
  {
    hide Place;
    var u := s[Place(i, 7) := a][Place(i, 3) := e];
    var r := ShiftIn(v, a, e);
    forall j | 0 <= j < 8 ensures u[Place(i + 1, j)] == r[j] {
      PlaceMoves(i, j);
      PlacesDiffer(i, 3, 7);
      if 0 < j {
        PlacesDiffer(i, j - 1, 7);
      }
      if 0 < j < 4 {
        PlacesDiffer(i, j - 1, 3);
      } else if 4 < j {
        PlacesDiffer(i, 3, j - 1);
      }
    }
  }

  lemma NotRotated(s: seq<Word>, v: Words, i: nat)
    requires |s| == 8 && i % 8 == 0
    ensures Rotated(s, v, i) <==> s == v
  {
    forall j | 0 <= j < 8 ensures Place(i, j) == j {
      assert j - i == 8 * ((j - i) / 8) + Place(i, j);
    }
    hide Place;
    if Rotated(s, v, i) {
      forall j | 0 <= j < 8 ensures s[j] == v[j] {
        assert s[Place(i, j)] == v[j];
      }
    }
  }

  // The state of the program after the bytes of m: what has been hashed, what waits, how many bits.
  ghost predicate Absorbed(m: seq<bv8>, waiting: seq<bv8>, h: Words, bits: nat) {
    |waiting| == |m| % 64
    && waiting == m[|m| - |waiting|..]
    && h == HashBlocks(m[..|m| - |waiting|])
    && bits == 8 * (|m| - |waiting|) % WORD64
  }

  lemma NothingAbsorbed()
    ensures Absorbed([], [], INITIAL, 0)
  {}

  // One more byte, when the block is not yet full and when it becomes full.
  lemma ByteWaits(m: seq<bv8>, waiting: seq<bv8>, h: Words, bits: nat, x: bv8)
    requires Absorbed(m, waiting, h, bits) && |waiting| < 63
    ensures Absorbed(m + [x], waiting + [x], h, bits)
  {
    hide HashBlocks;
    var n := m + [x];
    NextRemainder(|m|);
    assert n[|n| - |waiting + [x]|..] == waiting + [x];
    assert n[..|n| - |waiting + [x]|] == m[..|m| - |waiting|];
  }

  lemma NextRemainder(n: nat)
    ensures (n + 1) % 64 == if n % 64 == 63 then 0 else n % 64 + 1
  {}

  lemma BlockFills(m: seq<bv8>, waiting: seq<bv8>, h: Words, bits: nat, x: bv8, block: Chunk)
    requires Absorbed(m, waiting, h, bits) && block == waiting + [x]
    ensures Absorbed(m + [x], [], Compress(h, block), (bits + 512) % WORD64)
  {
    hide HashBlocks, Compress;
    var k := |m| - 63;
    NextRemainder(|m|);
    WholeBlocks(|m|);
    MoreBits(8 * k, 512);
    BlocksAppend(m[..k], block);
    TakeAppend(m, k, [x]);
    NothingWaits(m + [x]);
  }

  lemma TakeAppend(m: seq<bv8>, k: nat, b: seq<bv8>)
    requires k <= |m|
    ensures m + b == m[..k] + (m[k..] + b)
  {}

  lemma NothingWaits(n: seq<bv8>)
    ensures n[..|n| - 0] == n && n[|n| - 0..] == []
  {}

  lemma WholeBlocks(n: nat)
    ensures (n - n % 64) % 64 == 0
  {
    assert n - n % 64 == 64 * (n / 64);
  }

  lemma BlocksAppend(data: seq<bv8>, block: Chunk)
    requires |data| % 64 == 0
    ensures (|data| + 64) % 64 == 0 && HashBlocks(data + block) == Compress(HashBlocks(data), block)
  {
    hide Compress;
    var d := data + block;
    assert d[..|d| - 64] == data && d[|d| - 64..] == block;
  }

  lemma MoreBits(n: nat, more: nat)
    ensures (n % WORD64 + more) % WORD64 == (n + more) % WORD64
  {
    assert n == WORD64 * (n / WORD64) + n % WORD64;
  }

  lemma ZerosAre(n: nat)
    ensures Zeros(n) == if n % 64 < 56 then 55 - n % 64 else 119 - n % 64
  {}

  // The last block of a padded message, where the length still fits behind what waits.
  lemma OneLastBlock(m: seq<bv8>, waiting: seq<bv8>, h: Words, bits: nat, z: seq<bv8>, length: seq<bv8>, last: Chunk)
    requires Absorbed(m, waiting, h, bits) && |waiting| < 56
    requires z == seq(55 - |waiting|, _ => 0) && length == BigEndian64((bits + 8 * |waiting|) % WORD64)
    requires last == waiting + [0x80] + z + length
    ensures HashBlocks(Padded(m)) == Compress(h, last)
  {
    hide HashBlocks, Compress, BigEndian64, Zeros;
    var k := |m| - |waiting|;
    WholeBlocks(|m|);
    ZerosAre(|m|);
    MoreBits(8 * k, 8 * |waiting|);
    BlocksAppend(m[..k], last);
    assert Padded(m) == m + [0x80] + z + length;
    hide *;
    Regroup(m, k, [0x80], z, length);
  }

  lemma Regroup(m: seq<bv8>, k: nat, c: seq<bv8>, d: seq<bv8>, e: seq<bv8>)
    requires k <= |m|
    ensures m + c + d + e == m[..k] + (m[k..] + c + d + e)
  {
    TakeAppend(m, k, c);
    var x, y := m[..k], m[k..] + c;
    assert (x + y) + d + e == x + (y + d + e);
  }

  // The last two blocks, where it does not.
  lemma TwoLastBlocks(m: seq<bv8>, waiting: seq<bv8>, h: Words, bits: nat, y: seq<bv8>, full: Chunk, z: seq<bv8>,
                      length: seq<bv8>, last: Chunk)
    requires Absorbed(m, waiting, h, bits) && |waiting| >= 56
    requires y == seq(63 - |waiting|, _ => 0) && full == waiting + [0x80] + y
    requires z == seq(56, _ => 0) && length == BigEndian64((bits + 8 * |waiting|) % WORD64) && last == z + length
    ensures HashBlocks(Padded(m)) == Compress(Compress(h, full), last)
  {
    hide HashBlocks, Compress, BigEndian64, Zeros;
    var k := |m| - |waiting|;
    WholeBlocks(|m|);
    ZerosAre(|m|);
    MoreBits(8 * k, 8 * |waiting|);
    BlocksAppend(m[..k], full);
    BlocksAppend(m[..k] + full, last);
    assert y + z == seq(119 - |waiting|, _ => 0);
    assert Padded(m) == m + [0x80] + (y + z) + length;
    hide *;
    Regroup(m, k, [0x80], y + z, length);
    RegroupTwo(m[..k], waiting + [0x80], y, z, length);
  }

  lemma RegroupTwo(a: seq<bv8>, b: seq<bv8>, y: seq<bv8>, z: seq<bv8>, e: seq<bv8>)
    ensures a + (b + (y + z) + e) == (a + (b + y)) + (z + e)
  {}

  class Context {
    const data: array<bv8>
    const state: array<Word>
    var blockBytes: nat
    var bitsTotal: nat
    ghost var message: seq<bv8>

    ghost predicate Valid()
      reads this, data, state
    {
      data.Length == 64 && state.Length == 8 && state as object != data && blockBytes < 64
      && Absorbed(message, data[..blockBytes], state[..], bitsTotal)
    }

    constructor ()
      ensures Valid() && message == [] && fresh(data) && fresh(state)
    {
      data := new bv8[64](_ => 0);
      state := new Word[8](_ => 0);
      blockBytes := 0;
      bitsTotal := 0;
      message := [];
      new;
      hide *;
      NothingAbsorbed();
      forall k | 0 <= k < 8 { state[k] := INITIAL[k]; }
      assert state[..] == INITIAL && data[..0] == [];
    }

    // One byte into the buffer; a block that is full is hashed at once.
    method Take(x: bv8)
      requires Valid()
      modifies this, data, state
      ensures Valid() && message == old(message) + [x]
    {
      hide Absorbed, HashBlocks, Compress;
      ghost var m, waiting, h, bits := message, data[..blockBytes], state[..], bitsTotal;
      data[blockBytes] := x;
      blockBytes := blockBytes + 1;
      message := message + [x];
      assert data[..blockBytes] == waiting + [x];
      if blockBytes == 64 {
        assert data[..] == waiting + [x];
        BlockFills(m, waiting, h, bits, x, data[..]);
        HashBlock(state, data);
        bitsTotal := (bitsTotal + 512) % WORD64;
        blockBytes := 0;
        assert data[..0] == [];
      } else {
        ByteWaits(m, waiting, h, bits, x);
      }
    }

    /** Bytes are taken one at a time. */
    method Append(src: array<bv8>, len: nat)
      requires Valid() && len <= src.Length && src != data && src as object != state
      modifies this, data, state
      ensures Valid() && message == old(message) + src[..len]
    {
      hide Absorbed;
      ghost var before, input := message, src[..len];
      assert input[..0] == [];
      for i := 0 to len
        invariant Valid() && message == before + input[..i] && src[..len] == input
      {
        assert src[i] == src[..len][i];
        Take(src[i]);
        assert input[..i + 1] == input[..i] + [input[i]];
      }
    }

    /** The padding of section 5.1.1 goes into the buffer, over one block or two, and the digest of
        everything that was appended comes out, however it was cut. The context is used up. */
    method Finish(dst: array<bv8>)
      requires Valid() && 32 <= dst.Length && dst != data && dst as object != state
      modifies this, data, state, dst
      ensures dst[..] == Hash(old(message)) + old(dst[32..])
    {
      hide Absorbed, HashBlocks, Compress, Hash, BigEndian64, Digest, Padded, Byte;
      ghost var m, waiting, h, bits, n := message, data[..blockBytes], state[..], bitsTotal, blockBytes;
      ghost var tail := dst[32..];
      var end := if blockBytes < 56 then 56 else 64;
      Stop(end);
      ghost var stopped := data[..];
      ghost var padding := seq(end - n - 1, _ => 0);
      assert stopped[..end] == waiting + [0x80] + padding;
      if end == 64 {
        assert stopped == waiting + [0x80] + padding;
        HashBlock(state, data);
        forall k | 0 <= k < 64 { data[k] := 0; }
      }
      ghost var front, h1 := data[..56], state[..];
      assert h1 == if end == 64 then Compress(h, stopped) else h;
      bitsTotal := (bitsTotal + 8 * blockBytes) % WORD64;
      PutLength(bitsTotal);
      ghost var length := BigEndian64(bitsTotal);
      ghost var last := data[..];
      assert last == front + length && state[..] == h1;
      HashBlock(state, data);
      assert state[..] == Compress(h1, last);
      if end == 56 {
        OneLastBlock(m, waiting, h, bits, padding, length, last);
      } else {
        assert front == seq(56, _ => 0);
        TwoLastBlocks(m, waiting, h, bits, padding, stopped, front, length, last);
      }
      assert dst[32..] == tail;
      WriteDigest(dst);
      HashIs(m);
    }

    // The bit behind the message, and zeros up to end.
    method Stop(end: nat)
      requires data.Length == 64 && blockBytes < end <= 64
      modifies data
      ensures data[..] == old(data[..blockBytes]) + [0x80] + seq(end - blockBytes - 1, _ => 0) + old(data[end..])
    {
      ghost var before := data[..];
      var block := blockBytes;
      data[block] := 128;
      block := block + 1;
      while block < end
        invariant blockBytes < block <= end
        invariant forall k :: 0 <= k < 64 ==>
          data[k] == if k == blockBytes then 0x80 else if blockBytes < k < block then 0 else before[k]
      {
        data[block] := 0;
        block := block + 1;
      }
    }

    method PutLength(bits: nat)
      requires data.Length == 64
      modifies data
      ensures data[..] == old(data[..56]) + BigEndian64(bits)
    {
      hide Byte;
      ghost var before := data[..];
      for i := 0 to 8
        invariant forall k :: 0 <= k < 64 ==> data[k] == if 63 - i < k then Byte(bits, 63 - k) else before[k]
      {
        data[63 - i] := Byte(bits, i);
      }
    }

    // The words of the state, each with its most significant byte first.
    method WriteDigest(dst: array<bv8>)
      requires state.Length == 8 && 32 <= dst.Length && dst as object != state
      modifies dst
      ensures dst[..] == Digest(state[..]) + old(dst[32..])
    {
      hide WordByte;
      ghost var before, h := dst[..], state[..];
      for i := 0 to 4
        invariant state[..] == h
        invariant forall k :: 0 <= k < dst.Length ==>
          dst[k] == if k < 32 && k % 4 < i then WordByte(h[k / 4], k % 4) else before[k]
      {
        for j := 0 to 8
          invariant state[..] == h
          invariant forall k :: 0 <= k < dst.Length ==>
            dst[k] == if k < 32 && (k % 4 < i || (k % 4 == i && k / 4 < j)) then WordByte(h[k / 4], k % 4) else before[k]
        {
          dst[4 * j + i] := WordByte(state[j], i);
        }
      }
    }
  }

  lemma HashIs(m: seq<bv8>)
    ensures Hash(m) == Digest(HashBlocks(Padded(m)))
  {}

  lemma ScheduleFirst(t: nat, block: Chunk)
    requires t < 16
    ensures Schedule(t, block) == WordOf(block[4 * t], block[4 * t + 1], block[4 * t + 2], block[4 * t + 3])
  {
    hide WordOf;
  }

  // The program adds the terms in another order than the standard.
  lemma ScheduleNext(t: nat, block: Chunk, w2: Word, w7: Word, w15: Word, w16: Word)
    requires t >= 16 && w2 == Schedule(t - 2, block) && w7 == Schedule(t - 7, block)
    requires w15 == Schedule(t - 15, block) && w16 == Schedule(t - 16, block)
    ensures Schedule(t, block) == Add(Add(Add(Sig1(w2), Sig0(w15)), w7), w16)
  {
    var x, y := Sig1(w2), Sig0(w15);
    assert Schedule(t, block) == Add(Add(Add(x, w7), y), w16);
    hide *;
    AddReorder(x, y, w7);
  }

  method FillSchedule(data: array<bv8>) returns (w: array<Word>)
    requires data.Length == 64
    ensures fresh(w) && w.Length == 64
    ensures forall t :: 0 <= t < 64 ==> w[t] == Schedule(t, data[..])
  {
    hide *;
    ghost var block := data[..];
    w := new Word[64];
    for i := 0 to 64
      invariant forall t :: 0 <= t < i ==> w[t] == Schedule(t, block)
    {
      if i < 16 {
        ScheduleFirst(i, block);
        w[i] := WordOf(data[4 * i], data[4 * i + 1], data[4 * i + 2], data[4 * i + 3]);
      } else {
        ScheduleNext(i, block, w[i - 2], w[i - 7], w[i - 15], w[i - 16]);
        w[i] := Add(Add(Add(Sig1(w[i - 2]), Sig0(w[i - 15])), w[i - 7]), w[i - 16]);
      }
    }
  }

  // An index of the table before round i turns it.
  ghost predicate Due(x: int, i: nat, j: nat) {
    0 <= x <= 8 && (x - (j + 1 - i)) % 8 == 0
  }

  lemma DueTurns(x: int, i: nat, j: nat)
    requires Due(x, i, j)
    ensures (if x != 0 then x - 1 else 7) == Place(i, j)
  {
    var q := (x - (j + 1 - i)) / 8;
    assert x - (j + 1 - i) == 8 * q;
    assert j - i == 8 * ((j - i) / 8) + Place(i, j);
  }

  lemma PlaceDue(i: nat, j: nat)
    ensures Due(Place(i, j), i + 1, j)
  {
    assert j - i == 8 * ((j - i) / 8) + Place(i, j);
  }

  // Every index moves down by one, round the table.
  method Turn(idx: array<int>, ghost i: nat)
    requires idx.Length == 8
    requires forall j :: 0 <= j < 8 ==> Due(idx[j], i, j)
    modifies idx
    ensures forall j :: 0 <= j < 8 ==> idx[j] == Place(i, j)
  {
    hide Due, Place;
    for j := 0 to 8
      invariant forall n :: 0 <= n < j ==> idx[n] == Place(i, n)
      invariant forall n :: j <= n < 8 ==> Due(idx[n], i, n)
    {
      DueTurns(idx[j], i, j);
      idx[j] := if idx[j] != 0 then idx[j] - 1 else 7;
    }
  }

  // The sums of one round, at the places of a to h.
  method SumInPlace(s: array<Word>, iA: nat, iB: nat, iC: nat, iD: nat, iE: nat, iF: nat, iG: nat, iH: nat, k: Word, w: Word)
    requires iA < s.Length && iB < s.Length && iC < s.Length && iD < s.Length
    requires iE < s.Length && iF < s.Length && iG < s.Length && iH < s.Length
    requires iH !in {iA, iB, iC, iD, iE, iF, iG} && iD !in {iA, iB, iC}
    modifies s
    ensures var b := old(s[..]);
            var t := Add(Add(Add(Add(b[iH], Sum1(b[iE])), Ch(b[iE], b[iF], b[iG])), k), w);
            s[..] == b[iH := Add(Add(t, Maj(b[iA], b[iB], b[iC])), Sum0(b[iA]))][iD := Add(b[iD], t)]
  {
    hide *;
    s[iH] := Add(s[iH], Sum1(s[iE]));
    s[iH] := Add(s[iH], Ch(s[iE], s[iF], s[iG]));
    s[iH] := Add(s[iH], k);
    s[iH] := Add(s[iH], w);
    s[iD] := Add(s[iD], s[iH]);
    s[iH] := Add(s[iH], Maj(s[iA], s[iB], s[iC]));
    s[iH] := Add(s[iH], Sum0(s[iA]));
  }

  // One round on the working variables in their places.
  method RoundInPlace(s: array<Word>, idx: array<int>, k: Word, w: Word, ghost v: Words, ghost i: nat)
    requires s.Length == 8 && idx.Length == 8 && Rotated(s[..], v, i)
    requires forall j :: 0 <= j < 8 ==> idx[j] == Place(i, j)
    modifies s
    ensures Rotated(s[..], Round(v, k, w), i + 1)
  {
    ghost var b := s[..];
    RoundRotates(b, v, i, Add(Temp1(v, k, w), Temp2(v)), Add(v[3], Temp1(v, k, w)));
    PlacesAre(b, v, i);
    RoundIs(v, k, w);
    hide *;
    SumInPlace(s, idx[0], idx[1], idx[2], idx[3], idx[4], idx[5], idx[6], idx[7], k, w);
  }

  lemma PlacesAre(s: seq<Word>, v: Words, i: nat)
    requires Rotated(s, v, i)
    ensures s[Place(i, 0)] == v[0] && s[Place(i, 1)] == v[1] && s[Place(i, 2)] == v[2] && s[Place(i, 3)] == v[3]
    ensures s[Place(i, 4)] == v[4] && s[Place(i, 5)] == v[5] && s[Place(i, 6)] == v[6] && s[Place(i, 7)] == v[7]
    ensures Place(i, 7) !in {Place(i, 0), Place(i, 1), Place(i, 2), Place(i, 3), Place(i, 4), Place(i, 5), Place(i, 6)}
    ensures Place(i, 3) !in {Place(i, 0), Place(i, 1), Place(i, 2)}
  {
    hide Place;
    PlacesDiffer(i, 0, 7);
    PlacesDiffer(i, 1, 7);
    PlacesDiffer(i, 2, 7);
    PlacesDiffer(i, 3, 7);
    PlacesDiffer(i, 4, 7);
    PlacesDiffer(i, 5, 7);
    PlacesDiffer(i, 6, 7);
    PlacesDiffer(i, 0, 3);
    PlacesDiffer(i, 1, 3);
    PlacesDiffer(i, 2, 3);
  }

  // The sums of a round in the program's order.
  lemma RoundIs(v: Words, k: Word, w: Word)
    ensures var t := Add(Add(Add(Add(v[7], Sum1(v[4])), Ch(v[4], v[5], v[6])), k), w);
            Temp1(v, k, w) == t && Add(Temp1(v, k, w), Temp2(v)) == Add(Add(t, Maj(v[0], v[1], v[2])), Sum0(v[0]))
            && Round(v, k, w) == ShiftIn(v, Add(Temp1(v, k, w), Temp2(v)), Add(v[3], Temp1(v, k, w)))
  {
    var t, m, z := Temp1(v, k, w), Maj(v[0], v[1], v[2]), Sum0(v[0]);
    assert Temp2(v) == Add(z, m);
    hide *;
    AddReorder(t, m, z);
  }

  // The index table as it is set up.
  method NewTable() returns (idx: array<int>)
    ensures fresh(idx) && idx.Length == 8 && TableDue(idx[..], 0)
  {
    hide Due;
    idx := new int[8](j => j + 1);
    forall j | 0 <= j < 8 ensures Due(idx[j], 0, j) {
      FirstDue(j);
    }
  }

  ghost predicate TableDue(idx: seq<int>, i: nat) {
    |idx| == 8 && forall j :: 0 <= j < 8 ==> Due(idx[j], i, j)
  }

  // One pass of the loop: the table turns, and the round is made.
  method TurnAndSum(s: array<Word>, idx: array<int>, k: Word, w: Word, ghost v: Words, ghost i: nat)
    requires s.Length == 8 && s as object != idx && Rotated(s[..], v, i) && TableDue(idx[..], i)
    modifies s, idx
    ensures Rotated(s[..], Round(v, k, w), i + 1) && TableDue(idx[..], i + 1)
  {
    hide Due, Place, Rotated, Round;
    Turn(idx, i);
    RoundInPlace(s, idx, k, w, v, i);
    forall j | 0 <= j < 8 ensures Due(idx[j], i + 1, j) {
      PlaceDue(i, j);
    }
  }

  // The 64 rounds. The working variables stay where they are, and a table of indices turns round under
  // them; after 64 rounds it is back where it began.
  method RoundsInPlace(s: array<Word>, w: array<Word>, ghost block: Chunk, ghost n: nat)
    requires s.Length == 8 && w.Length == 64 == n && s != w
    requires forall t :: 0 <= t < 64 ==> w[t] == Schedule(t, block)
    modifies s
    ensures s[..] == Rounds(n, old(s[..]), block)
  {
    hide *;
    ghost var h, words := s[..], w[..];
    FirstRound(h, block);
    NotRotated(h, h, 0);
    var idx := NewTable();
    for i := 0 to 64
      invariant Rotated(s[..], Rounds(i, h, block), i)
      invariant TableDue(idx[..], i) && w[..] == words
      modifies s, idx
    {
      NextRound(i, h, block);
      TurnAndSum(s, idx, Constant(i), w[i], Rounds(i, h, block), i);
    }
    NotRotated(s[..], Rounds(n, h, block), n);
  }

  /** One block. */
  method HashBlock(state: array<Word>, data: array<bv8>)
    requires state.Length == 8 && data.Length == 64 && state as object != data
    modifies state
    ensures state[..] == Compress(old(state[..]), data[..])
  {
    hide *;
    ghost var h, block := state[..], data[..];
    var w := FillSchedule(data);
    var s := new Word[8];
    forall j | 0 <= j < 8 { s[j] := state[j]; }
    assert s[..] == h && data[..] == block;
    ghost var n := 64;
    RoundsInPlace(s, w, block, n);
    assert state[..] == h && data[..] == block;
    ghost var c := Compress(h, block);
    CompressIs(h, block, n);
    for j := 0 to 8
      invariant forall n :: 0 <= n < 8 ==> state[n] == if n < j then c[n] else h[n]
      invariant s[..] == Rounds(n, h, block) && data[..] == block
      modifies state
    {
      state[j] := Add(state[j], s[j]);
    }
    assert state[..] == c;
  }

  lemma FirstDue(j: nat)
    requires j < 8
    ensures Due(j + 1, 0, j)
  {}

  lemma NextRound(i: nat, h: Words, block: Chunk)
    requires i < 64
    ensures Rounds(i + 1, h, block) == Round(Rounds(i, h, block), Constant(i), Schedule(i, block))
  {
    hide Round, Constant, Schedule;
  }

  lemma FirstRound(h: Words, block: Chunk)
    ensures Rounds(0, h, block) == h
  {}

  lemma CompressIs(h: Words, block: Chunk, n: nat)
    requires n == 64
    ensures forall j :: 0 <= j < 8 ==> Compress(h, block)[j] == Add(h[j], Rounds(n, h, block)[j])
  {
    CompressRounds(h, block, n);
    hide Rounds, Add, Compress;
  }

  lemma CompressRounds(h: Words, block: Chunk, n: nat)
    requires n == 64
    ensures Compress(h, block) == AddWords(h, Rounds(n, h, block))
  {
    hide AddWords;
  }
}
