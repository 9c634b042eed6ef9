/** Cipher block chaining and the message authentication code of RFC 4493, over any block cipher. */
module Modes {
  import opened Aes
  import WireUtil

  // One direction of a block cipher under a fixed key.
  type BlockMap = Block -> Block

  // The AES cipher and its inverse under given round keys.
  function Enc(rk: RoundKeys): BlockMap { (x: Block) => Cipher(x, rk) }
  function Dec(rk: RoundKeys): BlockMap { (x: Block) => InvCipher(x, rk) }

  ghost predicate Undoes(dec: BlockMap, enc: BlockMap) {
    forall x: Block :: dec(enc(x)) == x
  }

  lemma AesUndone(rk: RoundKeys)
    ensures Undoes(Dec(rk), Enc(rk))
  {
    hide Cipher, InvCipher;
    forall x: Block ensures Dec(rk)(Enc(rk)(x)) == x {
      CipherUndone(x, rk);
    }
  }

  // ---- Cipher block chaining ----

  function CbcEncrypt(enc: BlockMap, iv: Block, data: seq<bv8>): (r: seq<bv8>)
    requires |data| % 16 == 0
    ensures |r| == |data|
    decreases |data|
  {
    if |data| == 0 then []
    else
      var c := enc(Xor(data[..16], iv));
      c + CbcEncrypt(enc, c, data[16..])
  }

  function CbcDecrypt(dec: BlockMap, iv: Block, data: seq<bv8>): (r: seq<bv8>)
    requires |data| % 16 == 0
    ensures |r| == |data|
    decreases |data|
  {
    if |data| == 0 then []
    else Xor(dec(data[..16]), iv) + CbcDecrypt(dec, data[..16], data[16..])
  }

  // The vector that the next block is chained to, after the ciphertext `cipher`.
  function NextIv(iv: Block, cipher: seq<bv8>): Block
    requires |cipher| % 16 == 0
  {
    if |cipher| == 0 then iv else cipher[|cipher| - 16..]
  }

  /** Decryption undoes encryption, for any number of blocks. */
  lemma {:induction false} CbcUndone(enc: BlockMap, dec: BlockMap, iv: Block, data: seq<bv8>)
    requires Undoes(dec, enc) && |data| % 16 == 0
    ensures CbcDecrypt(dec, iv, CbcEncrypt(enc, iv, data)) == data
    decreases |data|
  {
    hide Xor;
    if |data| > 0 {
      var x := Xor(data[..16], iv);
      var c := enc(x);
      var e := CbcEncrypt(enc, iv, data);
      assert e[..16] == c && e[16..] == CbcEncrypt(enc, c, data[16..]);
      CbcUndone(enc, dec, c, data[16..]);
      XorTwice(data[..16], iv);
      assert data == data[..16] + data[16..];
    }
  }

  // Chaining after c + e is chaining after e, from c.
  lemma NextIvSplit(iv: Block, c: Block, e: seq<bv8>)
    requires |e| % 16 == 0
    ensures NextIv(iv, c + e) == NextIv(c, e)
  {}

  /** Encrypting in two calls is encrypting in one. */
  lemma {:induction false} CbcEncryptSplit(enc: BlockMap, iv: Block, a: seq<bv8>, b: seq<bv8>)
    requires |a| % 16 == 0 && |b| % 16 == 0
    ensures var e := CbcEncrypt(enc, iv, a);
            var f := CbcEncrypt(enc, NextIv(iv, e), b);
            CbcEncrypt(enc, iv, a + b) == e + f && NextIv(iv, e + f) == NextIv(NextIv(iv, e), f)
    decreases |a|
  {
    hide Xor;
    if |a| == 0 {
      assert a + b == b && CbcEncrypt(enc, iv, a) == [];
      assert [] + CbcEncrypt(enc, iv, b) == CbcEncrypt(enc, iv, b);
    } else {
      var c := enc(Xor(a[..16], iv));
      assert (a + b)[..16] == a[..16] && (a + b)[16..] == a[16..] + b;
      CbcEncryptSplit(enc, c, a[16..], b);
      var e := CbcEncrypt(enc, c, a[16..]);
      var f := CbcEncrypt(enc, NextIv(c, e), b);
      NextIvSplit(iv, c, e);
      NextIvSplit(iv, c, e + f);
      hide NextIv;
      assert c + (e + f) == (c + e) + f;
    }
  }

  /** Decrypting in two calls is decrypting in one. */
  lemma {:induction false} CbcDecryptSplit(dec: BlockMap, iv: Block, a: seq<bv8>, b: seq<bv8>)
    requires |a| % 16 == 0 && |b| % 16 == 0
    ensures CbcDecrypt(dec, iv, a + b) == CbcDecrypt(dec, iv, a) + CbcDecrypt(dec, NextIv(iv, a), b)
    ensures NextIv(iv, a + b) == NextIv(NextIv(iv, a), b)
    decreases |a|
  {
    hide Xor;
    if |a| == 0 {
      assert a + b == b && CbcDecrypt(dec, iv, a) == [];
      assert [] + CbcDecrypt(dec, iv, b) == CbcDecrypt(dec, iv, b);
    } else {
      var h, t := a[..16], a[16..];
      assert a == h + t && a + b == h + (t + b);
      assert (a + b)[..16] == h && (a + b)[16..] == t + b;
      CbcDecryptSplit(dec, h, t, b);
      NextIvSplit(iv, h, t);
      NextIvSplit(iv, h, t + b);
      hide NextIv;
      var x, y, z := Xor(dec(h), iv), CbcDecrypt(dec, h, t), CbcDecrypt(dec, NextIv(h, t), b);
      assert x + (y + z) == (x + y) + z;
    }
  }

  // ---- Message authentication, section 2 of RFC 4493 ----

  // A byte moved up by one bit, with the top bit of the next one coming in.
  function Up(x: bv8, next: bv8): bv8 { (x << 1) | (next >> 7) }

  function Top(x: bv8): nat { if x & 0x80 == 0 then 0 else 1 }

  // The bits of s moved up by one, as one long big-endian word.
  function ShiftLeft(s: seq<bv8>): (r: seq<bv8>)
    ensures |r| == |s|
  {
    if |s| == 0 then []
    else [Up(s[0], if |s| > 1 then s[1] else 0)] + ShiftLeft(s[1..])
  }

  // Section 2.3: one subkey from the one before.
  function Subkey(l: Block): Block {
    var s := ShiftLeft(l);
    if l[0] & 0x80 == 0 then s else s[15 := s[15] ^ 0x87]
  }

  // The value of a string as a big-endian number.
  function BE(s: seq<bv8>): nat {
    if |s| == 0 then 0 else s[0] as nat * WireUtil.Pow256(|s| - 1) + BE(s[1..])
  }

  lemma ShiftByte(x: bv8, y: bv8)
    ensures Up(x, y) as nat + 256 * Top(x) == 2 * x as nat + Top(y)
  {}

  lemma TopZero()
    ensures Top(0) == 0
  {}

  /** Shifting doubles the number, up to the bit that falls out at the top. */
  lemma {:induction false} ShiftLeftDoubles(s: seq<bv8>)
    requires |s| > 0
    ensures BE(ShiftLeft(s)) + Top(s[0]) * WireUtil.Pow256(|s|) == 2 * BE(s)
  {
    hide Up, Top;
    var n := |s| - 1;
    var r := ShiftLeft(s);
    assert r[1..] == ShiftLeft(s[1..]);
    var next: bv8 := if n == 0 then 0 else s[1];
    assert r[0] == Up(s[0], next);
    hide ShiftLeft;
    ShiftByte(s[0], next);
    var carry := if n == 0 then 0 else Top(s[1]) * WireUtil.Pow256(n);
    assert BE(ShiftLeft(s[1..])) + carry == 2 * BE(s[1..]) by {
      if n > 0 {
        ShiftLeftDoubles(s[1..]);
      } else {
        assert |s[1..]| == 0 && |ShiftLeft(s[1..])| == 0;
      }
    }
    assert carry == Top(next) * WireUtil.Pow256(n) by { TopZero(); }
    ShiftAlgebra(r[0] as nat, Top(s[0]), s[0] as nat, Top(next), WireUtil.Pow256(n), WireUtil.Pow256(n + 1));
  }

  lemma ShiftAlgebra(r: nat, h: nat, x: nat, y: nat, p: nat, q: nat)
    requires r + 256 * h == 2 * x + y && q == 256 * p
    ensures r * p + h * q == 2 * (x * p) + y * p
  {
    assert (r + 256 * h) * p == (2 * x + y) * p;
    assert h * q == 256 * h * p;
  }

  lemma {:induction false} ShiftLeftAt(s: seq<bv8>, k: nat)
    requires k < |s|
    ensures ShiftLeft(s)[k] == Up(s[k], if k + 1 < |s| then s[k + 1] else 0)
  {
    if k > 0 {
      ShiftLeftAt(s[1..], k - 1);
    }
  }

  const ZERO: Block := [0, 0, 0, 0, 0, 0, 0, 0, 0, 0, 0, 0, 0, 0, 0, 0]

  function MacChain(enc: BlockMap, x: Block, data: seq<bv8>): Block
    requires |data| % 16 == 0
    decreases |data|
  {
    if |data| == 0 then x else MacChain(enc, enc(Xor(x, data[..16])), data[16..])
  }

  // A partial last block, filled up with one bit and zeros.
  function Pad(last: seq<bv8>): Block
    requires |last| < 16
  {
    last + [0x80] + ZERO[|last| + 1..]
  }

  // Where the last block of a message of n bytes begins.
  function LastStart(n: nat): (k: nat)
    ensures k <= n <= k + 16 && k % 16 == 0 && (n > 0 ==> k < n)
  {
    if n == 0 then 0 else (n - 1) / 16 * 16
  }

  // M_last of section 2.4.
  function LastBlock(l: Block, last: seq<bv8>): Block
    requires |last| <= 16
  {
    var k1 := Subkey(l);
    if |last| == 16 then Xor(k1, last) else Xor(Subkey(k1), Pad(last))
  }

  // Section 2.4.
  function Cmac(enc: BlockMap, m: seq<bv8>): Block {
    var n := LastStart(|m|);
    enc(Xor(MacChain(enc, ZERO, m[..n]), LastBlock(enc(ZERO), m[n..])))
  }

  lemma {:induction false} MacChainNext(enc: BlockMap, x: Block, data: seq<bv8>, b: Block)
    requires |data| % 16 == 0
    ensures MacChain(enc, x, data + b) == enc(Xor(MacChain(enc, x, data), b))
    decreases |data|
  {
    hide Xor;
    if |data| == 0 {
      assert data + b == b && b[..16] == b && |b[16..]| == 0;
    } else {
      assert (data + b)[..16] == data[..16] && (data + b)[16..] == data[16..] + b;
      MacChainNext(enc, enc(Xor(x, data[..16])), data[16..], b);
    }
  }

  // ---- What a change does to a code ----

  lemma {:induction false} ChainSplit(enc: BlockMap, x: Block, a: seq<bv8>, b: seq<bv8>)
    requires |a| % 16 == 0 && |b| % 16 == 0
    ensures MacChain(enc, x, a + b) == MacChain(enc, MacChain(enc, x, a), b)
    decreases |a|
  {
    hide Xor;
    if |a| == 0 {
      assert a + b == b;
    } else {
      assert (a + b)[..16] == a[..16] && (a + b)[16..] == a[16..] + b;
      ChainSplit(enc, enc(Xor(x, a[..16])), a[16..], b);
    }
  }

  lemma XorCancels(x: Block, y: Block, b: Block)
    ensures Xor(x, b) == Xor(y, b) ==> x == y
    ensures Xor(b, x) == Xor(b, y) ==> x == y
  {
    XorTwice(x, b);
    XorTwice(y, b);
    XorSwaps(b, x);
    XorSwaps(b, y);
    hide Xor;
  }

  lemma XorSwaps(x: Block, y: Block)
    ensures Xor(x, y) == Xor(y, x)
  {
    forall k | 0 <= k < 16 ensures x[k] ^ y[k] == y[k] ^ x[k] {}
  }

  // Different blocks stay different, whatever is absorbed after them.
  lemma {:induction false} ChainTells(enc: BlockMap, dec: BlockMap, x: Block, y: Block, data: seq<bv8>)
    requires Undoes(dec, enc) && x != y && |data| % 16 == 0
    ensures MacChain(enc, x, data) != MacChain(enc, y, data)
    decreases |data|
  {
    hide Xor;
    if |data| > 0 {
      var b := data[..16];
      XorCancels(x, y, b);
      assert dec(enc(Xor(x, b))) == Xor(x, b) && dec(enc(Xor(y, b))) == Xor(y, b);
      ChainTells(enc, dec, enc(Xor(x, b)), enc(Xor(y, b)), data[16..]);
    }
  }

  lemma LastBlockTells(l: Block, a: seq<bv8>, b: seq<bv8>)
    requires |a| == |b| <= 16 && a != b
    ensures LastBlock(l, a) != LastBlock(l, b)
  {
    hide Xor, Subkey;
    var k1 := Subkey(l);
    if |a| == 16 {
      XorCancels(a, b, k1);
    } else {
      assert Pad(a)[..|a|] == a && Pad(b)[..|b|] == b;
      XorCancels(Pad(a), Pad(b), Subkey(k1));
    }
  }

  lemma LastStartIs(n: nat, k: nat)
    requires n % 16 == 0 && 0 < k <= 16
    ensures LastStart(n + k) == n
  {
    assert n == 16 * (n / 16);
    assert n + k - 1 == 16 * (n / 16) + (k - 1);
  }

  // The code of whole blocks and a last one.
  lemma CodeOf(enc: BlockMap, data: seq<bv8>, last: seq<bv8>)
    requires |data| % 16 == 0 && 0 < |last| <= 16
    ensures Cmac(enc, data + last) == enc(Xor(MacChain(enc, ZERO, data), LastBlock(enc(ZERO), last)))
  {
    hide Xor, MacChain, LastBlock, LastStart;
    LastStartIs(|data|, |last|);
    assert (data + last)[..|data|] == data && (data + last)[|data|..] == last;
  }

  // Two codes under one cipher are equal only if what the cipher is applied to last is.
  lemma CodesDiffer(enc: BlockMap, dec: BlockMap, x: Block, y: Block, a: Block, b: Block)
    requires Undoes(dec, enc) && ((x != y && a == b) || (x == y && a != b))
    ensures enc(Xor(x, a)) != enc(Xor(y, b))
  {
    hide Xor;
    XorCancels(x, y, a);
    XorCancels(a, b, x);
    assert dec(enc(Xor(x, a))) == Xor(x, a) && dec(enc(Xor(y, b))) == Xor(y, b);
  }

  /** A message that differs in one block alone, the last one included, has another code. */
  lemma OneBlockTells(enc: BlockMap, dec: BlockMap, a: seq<bv8>, b: seq<bv8>, c: seq<bv8>, d: seq<bv8>)
    requires Undoes(dec, enc) && |a| % 16 == 0 && |b| == |c| <= 16 && b != c && (d == [] || |b| == 16)
    ensures Cmac(enc, a + b + d) != Cmac(enc, a + c + d)
  {
    hide Xor, MacChain, LastBlock, Undoes, Cmac;
    var l := enc(ZERO);
    if d == [] {
      assert a + b + d == a + b && a + c + d == a + c;
      CodeOf(enc, a, b);
      CodeOf(enc, a, c);
      LastBlockTells(l, b, c);
      var x := MacChain(enc, ZERO, a);
      CodesDiffer(enc, dec, x, x, LastBlock(l, b), LastBlock(l, c));
    } else {
      var n := LastStart(|d|);
      var e, last := d[..n], d[n..];
      assert a + b + d == (a + b + e) + last && a + c + d == (a + c + e) + last;
      CodeOf(enc, a + b + e, last);
      CodeOf(enc, a + c + e, last);
      ChainDiffers(enc, dec, a, b, c, e);
      CodesDiffer(enc, dec, MacChain(enc, ZERO, a + b + e), MacChain(enc, ZERO, a + c + e), LastBlock(l, last), LastBlock(l, last));
    }
  }

  lemma ChainDiffers(enc: BlockMap, dec: BlockMap, a: seq<bv8>, b: Block, c: Block, e: seq<bv8>)
    requires Undoes(dec, enc) && |a| % 16 == 0 && b != c && |e| % 16 == 0
    ensures MacChain(enc, ZERO, a + b + e) != MacChain(enc, ZERO, a + c + e)
  {
    hide Xor, Undoes;
    var x := MacChain(enc, ZERO, a);
    ChainSplit(enc, ZERO, a + b, e);
    ChainSplit(enc, ZERO, a + c, e);
    MacChainNext(enc, ZERO, a, b);
    MacChainNext(enc, ZERO, a, c);
    hide MacChain;
    CodesDiffer(enc, dec, x, x, b, c);
    ChainTells(enc, dec, enc(Xor(x, b)), enc(Xor(x, c)), e);
  }

  // ---- What chaining is, block by block ----

  /** A block of the ciphertext is the cipher of its block of the data and the block of ciphertext before it,
      or the vector for the first. */
  lemma CbcBlock(enc: BlockMap, iv: Block, a: seq<bv8>, b: Block, d: seq<bv8>)
    requires |a| % 16 == 0 && |d| % 16 == 0
    ensures var c, i := CbcEncrypt(enc, iv, a + (b + d)), |a|;
            c[i..i + 16] == enc(Xor(b, if i == 0 then iv else c[i - 16..i]))
  {
    hide Xor;
    CbcEncryptSplit(enc, iv, a, b + d);
    var e := CbcEncrypt(enc, iv, a);
    var v := NextIv(iv, e);
    assert (b + d)[..16] == b;
    FirstBlock(enc, v, b + d);
    hide CbcEncrypt;
    var f := CbcEncrypt(enc, v, b + d);
    BehindBlocks(e, f);
  }

  lemma FirstBlock(enc: BlockMap, iv: Block, data: seq<bv8>)
    requires |data| % 16 == 0 && |data| > 0
    ensures CbcEncrypt(enc, iv, data)[..16] == enc(Xor(data[..16], iv))
  {
    hide Xor;
  }

  lemma BehindBlocks(e: seq<bv8>, f: seq<bv8>)
    requires |f| >= 16
    ensures (e + f)[|e|..|e| + 16] == f[..16]
    ensures |e| >= 16 ==> (e + f)[|e| - 16..|e|] == e[|e| - 16..]
  {}

  // ---- Subkeys as polynomials ----

  // The coefficient in bit j of byte k of a block, whose first byte holds the highest ones.
  predicate Coefficient(l: Block, k: nat, j: bv3)
    requires k < 16
  {
    ByteBit(l[k], j)
  }

  predicate ByteBit(x: bv8, j: bv3) { (x >> j) & 1 == 1 }

  // The coefficient one place below.
  predicate Below(l: Block, k: nat, j: bv3)
    requires k < 16
  {
    if j > 0 then Coefficient(l, k, j - 1) else k < 15 && Coefficient(l, k + 1, 7)
  }

  lemma UpBit(x: bv8, next: bv8, j: bv3)
    ensures ByteBit(Up(x, next), j) <==> if j > 0 then ByteBit(x, j - 1) else ByteBit(next, 7)
  {}

  lemma ZeroBit(j: bv3)
    ensures !ByteBit(0, j)
  {}

  lemma ReducedBit(x: bv8, j: bv3)
    ensures ByteBit(x ^ 0x87, j) <==> (ByteBit(x, j) != (j == 0 || j == 1 || j == 2 || j == 7))
  {}

  lemma HighBit(x: bv8)
    ensures ByteBit(x, 7) <==> x & 0x80 != 0
  {}

  lemma SubkeyAt(l: Block, k: nat)
    requires k < 16
    ensures Subkey(l)[k] == if k == 15 && l[0] & 0x80 != 0 then ShiftLeft(l)[k] ^ 0x87 else ShiftLeft(l)[k]
  {
    hide ShiftLeft;
  }

  /** A subkey is the one before times x, modulo x^128 + x^7 + x^2 + x + 1: every coefficient moves up by
      one place, and where the highest was one, 1, x, x^2 and x^7 are added. */
  lemma SubkeyTimesX(l: Block, k: nat, j: bv3)
    requires k < 16
    ensures Coefficient(Subkey(l), k, j)
      <==> (Below(l, k, j) != (Coefficient(l, 0, 7) && k == 15 && (j == 0 || j == 1 || j == 2 || j == 7)))
  {
    hide ByteBit, Up, ShiftLeft, Subkey;
    SubkeyAt(l, k);
    ShiftLeftAt(l, k);
    UpBit(l[k], if k < 15 then l[k + 1] else 0, j);
    ZeroBit(7);
    HighBit(l[0]);
    ReducedBit(ShiftLeft(l)[15], j);
  }
}
