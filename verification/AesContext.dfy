/** The chaining and authentication routines of the program, on buffers in place. */
module AesContext {
  import opened Galois
  import opened Aes
  import opened AesState
  import KeySchedule
  import opened Modes

  // The sixteen bytes of b at bo are exclusive-ored into those of a at ao.
  method Xor128(a: array<bv8>, ao: nat, b: array<bv8>, bo: nat)
    requires ao + 16 <= a.Length && bo + 16 <= b.Length
    requires a == b ==> bo + 16 <= ao || ao + 16 <= bo
    modifies a
    ensures a[..] == Splice(old(a[..]), ao, Xor(BlockAt(old(a[..]), ao), BlockAt(old(b[..]), bo)))
  {
    ghost var s, t := a[..], b[..];
    for i := 0 to 16
      invariant forall k :: 0 <= k < a.Length ==> a[k] == if ao <= k < ao + i then s[k] ^ t[bo + (k - ao)] else s[k]
      invariant forall k :: bo <= k < bo + 16 ==> b[k] == t[k]
    {
      a[ao + i] := a[ao + i] ^ b[bo + i];
    }
    ghost var x := Xor(BlockAt(s, ao), BlockAt(t, bo));
    forall k | ao <= k < ao + 16 ensures x[k - ao] == s[k] ^ t[bo + (k - ao)] {
      assert BlockAt(s, ao)[k - ao] == s[k] && BlockAt(t, bo)[k - ao] == t[bo + (k - ao)];
    }
    SpliceAt(a[..], s, ao, x);
  }

  method CopyBlock(dst: array<bv8>, dstOff: nat, src: array<bv8>, srcOff: nat)
    requires dstOff + 16 <= dst.Length && srcOff + 16 <= src.Length && (dst == src ==> dstOff == srcOff)
    modifies dst
    ensures dst[..] == Splice(old(dst[..]), dstOff, BlockAt(old(src[..]), srcOff))
  {
    ghost var s, b := dst[..], BlockAt(src[..], srcOff);
    WrittenNone(s, dstOff, b);
    WrittenAll(s, dstOff, b);
    hide Written, Splice;
    for i := 0 to 16
      invariant dst[..] == Written(s, dstOff, b, i)
      invariant src != dst ==> BlockAt(src[..], srcOff) == b
    {
      WrittenNext(s, dstOff, b, i);
      assert src[srcOff + i] == if src == dst then dst[..][dstOff + i] else src[..][srcOff + i];
      dst[dstOff + i] := src[srcOff + i];
    }
  }

  /** The next subkey, in place. */
  method GenerateSubkey(key: array<bv8>)
    requires key.Length == 16
    modifies key
    ensures key[..] == Subkey(old(key[..]))
  {
    ghost var s := key[..];
    forall k | 0 <= k < 16 ensures ShiftLeft(s)[k] == Up(s[k], if k < 15 then s[k + 1] else 0) {
      ShiftLeftAt(s, k);
    }
    var msb := key[0] & 0x80;
    for i := 0 to 15
      invariant forall k :: 0 <= k < i ==> key[k] == ShiftLeft(s)[k]
      invariant forall k :: i <= k < 16 ==> key[k] == s[k]
    {
      key[i] := (key[i] << 1) | (key[i + 1] >> 7);
    }
    UpZero(key[15]);
    ShiftLeftAt(s, 15);
    hide Up, ShiftLeft;
    key[15] := key[15] << 1;
    assert key[..] == ShiftLeft(s);
    if msb != 0 {
      key[15] := key[15] ^ 0x87;
      assert key[..] == ShiftLeft(s)[15 := ShiftLeft(s)[15] ^ 0x87];
    }
  }

  lemma UpZero(x: bv8)
    ensures Up(x, 0) == x << 1
  {}

  // ---- aes128_cmac ----

  // The sixteen bytes that the program turns the subkey buffer into for the last n bytes.
  function Folded(k: Block, last: seq<bv8>): Block
    requires |last| <= 16
  {
    if |last| == 16 then Xor(k, last) else Xor(Subkey(k), Pad(last))
  }

  lemma FoldedAt(k: Block, last: seq<bv8>, i: nat)
    requires |last| <= 16 && i < 16
    ensures Folded(k, last)[i]
         == if |last| == 16 then k[i] ^ last[i]
            else if i < |last| then Subkey(k)[i] ^ last[i]
            else if i == |last| then Subkey(k)[i] ^ 0x80
            else Subkey(k)[i]
  {
    var t := Subkey(k);
    if |last| < 16 {
      PadAt(last, i);
      KeySchedule.XorZero(t[i]);
    }
    hide Subkey, Pad;
  }

  lemma PadAt(last: seq<bv8>, i: nat)
    requires |last| < 16 && i < 16
    ensures Pad(last)[i] == if i < |last| then last[i] else if i == |last| then 0x80 else 0
  {}

  // The subkey buffer l becomes the last block, as the loop of `aes128_cmac` does it.
  method FoldLast(l: array<bv8>, m: array<bv8>, mo: nat, len: nat)
    requires l.Length == 16 && len <= 16 && mo + len <= m.Length && l != m
    modifies l
    ensures l[..] == Folded(old(l[..]), m[mo..mo + len])
  {
    hide Subkey;
    ghost var k, last := l[..], m[mo..mo + len];
    if len < 16 {
      GenerateSubkey(l);
      l[len] := l[len] ^ 0x80;
    }
    ghost var t := l[..];
    for i := 0 to len
      invariant forall j :: 0 <= j < 16 ==> l[j] == if j < i then t[j] ^ last[j] else t[j]
    {
      l[i] := l[i] ^ m[mo + i];
    }
    forall i | 0 <= i < 16 ensures l[i] == Folded(k, last)[i] {
      FoldedAt(k, last, i);
    }
  }

  lemma LastBlockFolded(l: Block, last: seq<bv8>)
    requires |last| <= 16
    ensures LastBlock(l, last) == Folded(Subkey(l), last)
  {}

  lemma SpliceWhole(s: seq<bv8>, b: Block)
    requires |s| == 16
    ensures Splice(s, 0, b) == b && BlockAt(s, 0) == s
  {}

  // The chain before the last block, and the code it leads to.
  lemma ChainStep(enc: BlockMap, d: seq<bv8>, n: nat)
    requires n % 16 == 0 && n < |d|
    ensures |d| - n > 16 ==> MacChain(enc, ZERO, d[..n + 16]) == enc(Xor(MacChain(enc, ZERO, d[..n]), d[n..n + 16]))
    ensures |d| - n <= 16 ==> Cmac(enc, d) == enc(Xor(MacChain(enc, ZERO, d[..n]), Folded(Subkey(enc(ZERO)), d[n..])))
  {
    hide Xor, Subkey, Folded;
    if |d| - n > 16 {
      assert d[..n + 16] == d[..n] + d[n..n + 16];
      MacChainNext(enc, ZERO, d[..n], d[n..n + 16]);
    } else {
      assert LastStart(|d|) == n;
      LastBlockFolded(enc(ZERO), d[n..]);
    }
  }

  lemma EmptyFolded(k: Block)
    ensures Folded(k, []) == Subkey(k)[0 := Subkey(k)[0] ^ 0x80]
  {
    var t := Subkey(k);
    forall i | 0 <= i < 16 ensures Folded(k, [])[i] == t[0 := t[0] ^ 0x80][i] {
      FoldedAt(k, [], i);
    }
  }

  method FoldNothing(l: array<bv8>)
    requires l.Length == 16
    modifies l
    ensures l[..] == Folded(old(l[..]), [])
  {
    hide Subkey, Folded;
    EmptyFolded(l[..]);
    GenerateSubkey(l);
    l[0] := l[0] ^ 0x80;
  }

  lemma MacChainNone(enc: BlockMap)
    ensures MacChain(enc, ZERO, []) == ZERO
  {}

  lemma EmptyCmac(enc: BlockMap)
    ensures Cmac(enc, []) == enc(Xor(ZERO, Folded(Subkey(enc(ZERO)), [])))
  {
    MacChainNone(enc);
    LastBlockFolded(enc(ZERO), []);
    hide Xor, Subkey, Folded, LastBlock;
  }

  lemma BlockOf(s: seq<bv8>, off: nat)
    requires off + 16 <= |s|
    ensures BlockAt(s, off) == s[off..off + 16]
  {}

  // One link of the chain: the exclusive or and the cipher on the sixteen bytes of block.
  method Absorb(roundKey: array<bv8>, block: array<bv8>, m: array<bv8>, mo: nat)
    requires roundKey.Length == 176 && block.Length == 16 && mo + 16 <= m.Length
    requires block != roundKey && block != m
    modifies block
    ensures block[..] == Cipher(Xor(old(block[..]), m[mo..mo + 16]), roundKey[..])
  {
    hide Xor, Cipher, Splice, BlockAt;
    ghost var x, b := block[..], m[mo..mo + 16];
    SpliceWhole(x, Xor(x, b));
    BlockOf(m[..], mo);
    Xor128(block, 0, m, mo);
    SpliceWhole(block[..], Cipher(block[..], roundKey[..]));
    Xcrypt(block, 0, roundKey, false);
  }

  // The subkey buffer as it is before the message is read.
  method FirstSubkey(roundKey: array<bv8>, l: array<bv8>)
    requires roundKey.Length == 176 && l.Length == 16 && l != roundKey && l[..] == ZERO
    modifies l
    ensures l[..] == Subkey(Cipher(ZERO, roundKey[..]))
  {
    hide Subkey, Cipher, Splice, BlockAt;
    SpliceWhole(l[..], Cipher(l[..], roundKey[..]));
    Xcrypt(l, 0, roundKey, false);
    GenerateSubkey(l);
  }

  // The branch for the empty message.
  method AbsorbEmpty(roundKey: array<bv8>, block: array<bv8>, l: array<bv8>)
    requires roundKey.Length == 176 && block.Length == 16 && l.Length == 16
    requires block != roundKey && block != l && l != roundKey
    requires block[..] == ZERO && l[..] == Subkey(Cipher(ZERO, roundKey[..]))
    modifies block, l
    ensures block[..] == Cmac(Enc(roundKey[..]), [])
  {
    hide Subkey, Xor, Cipher, Folded, Cmac, ShiftLeft, Up, MacChain, LastBlock;
    FoldNothing(l);
    assert l[0..16] == l[..];
    Absorb(roundKey, block, l, 0);
    EmptyCmac(Enc(roundKey[..]));
  }

  /** The message authentication code of the length bytes of msg at off, written into mac at macOff,
      which may overlap the message. */
  method CmacAt(roundKey: array<bv8>, msg: array<bv8>, off: nat, length: nat, mac: array<bv8>, macOff: nat)
    requires roundKey.Length == 176 && off + length <= msg.Length
    requires macOff + 16 <= mac.Length && mac != roundKey
    modifies mac
    ensures mac[..] == Splice(old(mac[..]), macOff, Cmac(Enc(roundKey[..]), old(msg[off..off + length])))
  {
    hide Subkey, Xor, Cipher, Folded, MacChain, Cmac, Splice, BlockAt;
    ghost var rk := roundKey[..];
    ghost var enc := Enc(rk);
    ghost var d := msg[off..off + length];
    var l := new bv8[16](_ => 0);
    var block := new bv8[16](_ => 0);
    assert l[..] == ZERO && block[..] == ZERO;
    FirstSubkey(roundKey, l);
    if length == 0 {
      AbsorbEmpty(roundKey, block, l);
      assert d == [];
    } else {
      AbsorbMessage(roundKey, block, l, msg, off, length);
    }
    SpliceWhole(block[..], ZERO);
    CopyBlock(mac, macOff, block, 0);
  }

  // The loop of `aes128_cmac`: at the last block, length, message and offset all move to the subkey buffer.
  method AbsorbMessage(roundKey: array<bv8>, block: array<bv8>, l: array<bv8>, msg: array<bv8>, off: nat, length: nat)
    requires roundKey.Length == 176 && off + length <= msg.Length && block.Length == 16 && l.Length == 16
    requires block != roundKey && block != l && l != roundKey && msg != l && msg != block && length > 0
    requires block[..] == ZERO && l[..] == Subkey(Cipher(ZERO, roundKey[..]))
    modifies block, l
    ensures block[..] == Cmac(Enc(roundKey[..]), msg[off..off + length])
  {
    hide Subkey, Xor, Cipher, Folded, MacChain, Cmac;
    ghost var rk := roundKey[..];
    ghost var enc := Enc(rk);
    ghost var d := msg[off..off + length];
    var m, mo, len := msg, off, length;
    MacChainNone(enc);
    assert d[..0] == [];
    while len != 0
      invariant len == 0 || (len <= length && m == msg && mo == off + (length - len) && (length - len) % 16 == 0)
      invariant len == 0 ==> block[..] == Cmac(enc, d)
      invariant len != 0 ==> block[..] == MacChain(enc, ZERO, d[..length - len]) && l[..] == Subkey(enc(ZERO))
      invariant roundKey[..] == rk && msg[off..off + length] == d
      modifies l, block
    {
      ghost var n := length - len;
      ChainStep(enc, d, n);
      if len <= 16 {
        SliceTail(msg[..], off, length, n);
        FoldLast(l, m, mo, len);
        len := 16;
        m, mo := l, 0;
        assert l[0..16] == l[..];
      } else {
        SliceOfSlice(msg[..], off, length, n);
      }
      Absorb(roundKey, block, m, mo);
      mo := mo + 16;
      len := len - 16;
    }
  }

  // One block of `aes128_encrypt`: the exclusive or with the block before, and the cipher, in place.
  method ChainBlock(roundKey: array<bv8>, chunk: array<bv8>, p: nat, last: array<bv8>, lastOff: nat)
    requires roundKey.Length == 176 && p + 16 <= chunk.Length && lastOff + 16 <= last.Length
    requires chunk != roundKey && (chunk == last ==> lastOff + 16 <= p)
    modifies chunk
    ensures chunk[..] == Splice(old(chunk[..]), p,
              Cipher(Xor(BlockAt(old(chunk[..]), p), BlockAt(old(last[..]), lastOff)), roundKey[..]))
  {
    hide Xor, Cipher, Splice, BlockAt;
    SpliceBlock(chunk[..], p, Xor(BlockAt(chunk[..], p), BlockAt(last[..], lastOff)));
    Xor128(chunk, p, last, lastOff);
    Xcrypt(chunk, p, roundKey, false);
  }

  // One block of `aes128_decrypt`.
  method UnchainBlock(roundKey: array<bv8>, chunk: array<bv8>, p: nat, iv: array<bv8>)
    requires roundKey.Length == 176 && p + 16 <= chunk.Length && iv.Length == 16
    requires chunk != roundKey && chunk != iv
    modifies chunk
    ensures chunk[..] == Splice(old(chunk[..]), p, Xor(InvCipher(BlockAt(old(chunk[..]), p), roundKey[..]), iv[..]))
  {
    hide Xor, InvCipher, Splice, BlockAt;
    SpliceBlock(chunk[..], p, InvCipher(BlockAt(chunk[..], p), roundKey[..]));
    SpliceWhole(iv[..], ZERO);
    Xcrypt(chunk, p, roundKey, true);
    Xor128(chunk, p, iv, 0);
  }

  // ---- The context of a key and a chaining vector ----

  // The number of bytes in the blocks that a loop in steps of a block goes through.
  function RoundUp(n: nat): (r: nat)
    ensures n <= r < n + 16 && r % 16 == 0
  {
    (n + 15) / 16 * 16
  }

  class Context {
    const roundKey: array<bv8>
    const iv: array<bv8>

    ghost predicate Valid() {
      roundKey.Length == 176 && iv.Length == 16 && roundKey != iv
    }

    constructor ()
      ensures Valid() && fresh(roundKey) && fresh(iv)
    {
      roundKey := new bv8[176](_ => 0);
      iv := new bv8[16](_ => 0);
    }

    method Init(vector: array<bv8>, vectorOff: nat, key: array<bv8>, keyOff: nat)
      requires Valid() && vectorOff + 16 <= vector.Length && keyOff + 16 <= key.Length
      requires roundKey !in {vector, key} && iv !in {vector, key}
      modifies roundKey, iv
      ensures roundKey[..] == KeySchedule.Expand(key[keyOff..keyOff + 16])
      ensures iv[..] == vector[vectorOff..vectorOff + 16]
    {
      KeySchedule.Expansion(roundKey, key, keyOff);
      SpliceWhole(iv[..], BlockAt(vector[..], vectorOff));
      CopyBlock(iv, 0, vector, vectorOff);
      BlockOf(vector[..], vectorOff);
    }

    method InitCmac(key: array<bv8>, keyOff: nat)
      requires Valid() && keyOff + 16 <= key.Length && roundKey != key && iv != key
      modifies roundKey, iv
      ensures roundKey[..] == KeySchedule.Expand(key[keyOff..keyOff + 16])
    {
      KeySchedule.Expansion(roundKey, key, keyOff);
    }

    /** The chunk is encrypted in place, and the vector moves on to its last block. */
    method Encrypt(chunk: array<bv8>, off: nat, length: nat)
      requires Valid() && off + RoundUp(length) <= chunk.Length && chunk != roundKey && chunk != iv
      modifies chunk, iv
      ensures var d := old(chunk[off..off + RoundUp(length)]);
              var e := CbcEncrypt(Enc(roundKey[..]), old(iv[..]), d);
              chunk[..] == Splice(old(chunk[..]), off, e) && iv[..] == NextIv(old(iv[..]), e)
    {
      hide Xor, Cipher, CbcEncrypt, NextIv, Splice, BlockAt;
      ghost var s, v, rk := chunk[..], iv[..], roundKey[..];
      ghost var enc := Enc(rk);
      ghost var d := s[off..off + RoundUp(length)];
      var last, lastOff, p, i := iv, 0, off, 0;
      CbcStart(enc, v, s, off);
      assert d[..0] == [];
      while i < length
        invariant i % 16 == 0 && i <= RoundUp(length) && p == off + i
        invariant (last == iv && lastOff == 0) || (last == chunk && lastOff + 16 == p)
        invariant chunk[..] == Splice(s, off, CbcEncrypt(enc, v, d[..i]))
        invariant BlockAt(last[..], lastOff) == NextIv(v, CbcEncrypt(enc, v, d[..i]))
        invariant iv[..] == v && roundKey[..] == rk
        decreases RoundUp(length) - i
      {
        CbcEncryptNext(enc, v, s, off, d, i);
        ChainBlock(roundKey, chunk, p, last, lastOff);
        last, lastOff := chunk, p;
        p := p + 16;
        i := i + 16;
      }
      assert d[..i] == d;
      SpliceWhole(iv[..], BlockAt(last[..], lastOff));
      CopyBlock(iv, 0, last, lastOff);
    }

    /** The chunk is decrypted in place, and the vector moves on to the last block that was read. */
    method Decrypt(chunk: array<bv8>, off: nat, length: nat)
      requires Valid() && off + RoundUp(length) <= chunk.Length && chunk != roundKey && chunk != iv
      modifies chunk, iv
      ensures var d := old(chunk[off..off + RoundUp(length)]);
              chunk[..] == Splice(old(chunk[..]), off, CbcDecrypt(Dec(roundKey[..]), old(iv[..]), d))
              && iv[..] == NextIv(old(iv[..]), d)
    {
      hide Xor, InvCipher, CbcDecrypt, NextIv, Splice, BlockAt;
      ghost var s, v, rk := chunk[..], iv[..], roundKey[..];
      ghost var dec := Dec(rk);
      ghost var d := s[off..off + RoundUp(length)];
      var read := new bv8[16];
      var p, i := off, 0;
      CbcDecryptStart(dec, v, s, off);
      assert d[..0] == [];
      while i < length
        invariant i % 16 == 0 && i <= RoundUp(length) && p == off + i
        invariant chunk[..] == Splice(s, off, CbcDecrypt(dec, v, d[..i]))
        invariant iv[..] == NextIv(v, d[..i]) && roundKey[..] == rk
        decreases RoundUp(length) - i
        modifies read, chunk, iv
      {
        CbcDecryptNext(dec, v, s, off, d, i);
        ghost var b := BlockAt(chunk[..], p);
        SpliceWhole(read[..], b);
        CopyBlock(read, 0, chunk, p);
        UnchainBlock(roundKey, chunk, p, iv);
        SpliceWhole(iv[..], b);
        SpliceWhole(b, b);
        CopyBlock(iv, 0, read, 0);
        p := p + 16;
        i := i + 16;
      }
      assert d[..i] == d;
    }
  }

  lemma CbcDecryptStart(dec: BlockMap, v: Block, s: seq<bv8>, off: nat)
    requires off <= |s|
    ensures CbcDecrypt(dec, v, []) == [] && NextIv(v, []) == v && Splice(s, off, []) == s
  {}

  lemma CbcDecryptNext(dec: BlockMap, v: Block, s: seq<bv8>, off: nat, d: seq<bv8>, i: nat)
    requires |d| % 16 == 0 && off + |d| <= |s| && d == s[off..off + |d|] && i % 16 == 0 && i + 16 <= |d|
    ensures var e := CbcDecrypt(dec, v, d[..i]);
            var t := Splice(s, off, e);
            var b := BlockAt(t, off + i);
            Splice(t, off + i, Xor(dec(b), NextIv(v, d[..i]))) == Splice(s, off, CbcDecrypt(dec, v, d[..i + 16]))
            && b == NextIv(v, d[..i + 16])
  {
    hide Xor, CbcDecrypt, NextIv, Splice, BlockAt;
    var e, b := CbcDecrypt(dec, v, d[..i]), d[i..i + 16];
    BlockPast(s, off, e);
    SliceOfSlice(s, off, |d|, i);
    var w := NextIv(v, d[..i]);
    CbcDecryptSplit(dec, v, d[..i], b);
    assert d[..i + 16] == d[..i] + b;
    CbcDecryptOne(dec, w, b);
    SpliceMore(s, off, e, Xor(dec(b), w));
  }

  lemma CbcDecryptOne(dec: BlockMap, w: Block, b: Block)
    ensures CbcDecrypt(dec, w, b) == Xor(dec(b), w) && NextIv(w, b) == b
  {
    hide Xor;
    assert b[..16] == b && b[16..] == [];
  }

  lemma CbcStart(enc: BlockMap, v: Block, s: seq<bv8>, off: nat)
    requires off <= |s|
    ensures CbcEncrypt(enc, v, []) == [] && NextIv(v, []) == v && BlockAt(v, 0) == v && Splice(s, off, []) == s
  {}

  // What the next round of the loop writes, and what it leaves as the block to chain to.
  lemma CbcEncryptNext(enc: BlockMap, v: Block, s: seq<bv8>, off: nat, d: seq<bv8>, i: nat)
    requires |d| % 16 == 0 && off + |d| <= |s| && d == s[off..off + |d|] && i % 16 == 0 && i + 16 <= |d|
    ensures var e := CbcEncrypt(enc, v, d[..i]);
            var t := Splice(s, off, e);
            var c := enc(Xor(BlockAt(t, off + i), NextIv(v, e)));
            var u := Splice(t, off + i, c);
            u == Splice(s, off, CbcEncrypt(enc, v, d[..i + 16]))
            && BlockAt(u, off + i) == c == NextIv(v, CbcEncrypt(enc, v, d[..i + 16]))
  {
    hide Xor, CbcEncrypt, NextIv, Splice, BlockAt;
    var e, b := CbcEncrypt(enc, v, d[..i]), d[i..i + 16];
    BlockPast(s, off, e);
    SliceOfSlice(s, off, |d|, i);
    var w := NextIv(v, e);
    CbcEncryptSplit(enc, v, d[..i], b);
    assert d[..i + 16] == d[..i] + b;
    CbcOne(enc, w, b);
    SpliceMore(s, off, e, enc(Xor(b, w)));
  }

  lemma CbcOne(enc: BlockMap, w: Block, b: Block)
    ensures CbcEncrypt(enc, w, b) == enc(Xor(b, w)) == NextIv(w, enc(Xor(b, w)))
  {
    hide Xor;
    assert b[..16] == b && b[16..] == [];
    var c := enc(Xor(b, w));
    assert CbcEncrypt(enc, w, b) == c + CbcEncrypt(enc, c, []);
    assert c + [] == c && c[0..] == c;
  }

  lemma SliceTail(s: seq<bv8>, off: nat, n: nat, i: nat)
    requires off + n <= |s| && i <= n
    ensures s[off..off + n][i..] == s[off + i..off + n]
  {
    var a, b := s[off..off + n][i..], s[off + i..off + n];
    forall k | 0 <= k < n - i ensures a[k] == b[k] {
      assert a[k] == s[off..off + n][i + k] == s[off + (i + k)];
      assert b[k] == s[(off + i) + k];
    }
  }

  lemma SliceOfSlice(s: seq<bv8>, off: nat, n: nat, i: nat)
    requires off + n <= |s| && i + 16 <= n
    ensures s[off..off + n][i..i + 16] == s[off + i..off + i + 16]
  {
    var a, b := s[off..off + n][i..i + 16], s[off + i..off + i + 16];
    forall k | 0 <= k < 16 ensures a[k] == b[k] {
      assert a[k] == s[off..off + n][i + k] == s[off + (i + k)];
      assert b[k] == s[(off + i) + k];
    }
  }

  lemma BlockPast(s: seq<bv8>, off: nat, e: seq<bv8>)
    requires off + |e| + 16 <= |s|
    ensures BlockAt(Splice(s, off, e), off + |e|) == s[off + |e|..off + |e| + 16]
  {
    var p, t := off + |e|, Splice(s, off, e);
    var a, b := t[p..p + 16], s[p..p + 16];
    forall k | 0 <= k < 16 ensures a[k] == b[k] {
      assert t[p + k] == s[p + k];
    }
  }

  lemma SpliceMore(s: seq<bv8>, off: nat, e: seq<bv8>, c: Block)
    requires off + |e| + 16 <= |s|
    ensures Splice(Splice(s, off, e), off + |e|, c) == Splice(s, off, e + c)
    ensures BlockAt(Splice(s, off, e + c), off + |e|) == c
  {
    var p, t := off + |e|, Splice(s, off, e + c);
    var a := t[p..p + 16];
    forall k | 0 <= k < 16 ensures a[k] == c[k] {
      assert t[p + k] == (e + c)[|e| + k];
    }
  }
}
