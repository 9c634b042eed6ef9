/** Authenticated wires. The buffer of a wire holds

      0..16   the outer code, over everything behind it
      16..32  the inner code, over the header
      32..48  the chaining vector
      48..64  the header: signature, total length, padding and type
      64..    the payload, padded to whole blocks

    and header and payload are encrypted as one chain. */
module Wire {
  import opened Aes
  import opened AesState
  import opened Modes
  import opened AesContext
  import KeySchedule
  import opened WireUtil

  const MAC_INNER := 16
  const IV := 32
  const HEADER := 48
  const DATA := 64
  const CIPHER_OFFSET := 0
  const CMAC_OFFSET := 16
  const KEY_LEN := 32

  type Key = k: seq<bv8> | |k| == KEY_LEN witness ZERO + ZERO

  const SIGNATURE: seq<bv8> := [0x2d, 0x77, 0x69, 0x72, 0x65, 0x2d]

  // ---- Headers ----

  function HeaderBytes(length: nat, alignment: bv8, kind: bv8): (h: Block) {
    SIGNATURE + Unpack(length, 8) + [alignment, kind]
  }

  function Signature(h: Block): seq<bv8> { h[..6] }
  function Length(h: Block): nat { Pack(h[6..14]) }
  function Alignment(h: Block): bv8 { h[14] }
  function Kind(h: Block): bv8 { h[15] }

  /** The bytes of a header: "-wire-", the length with its lowest byte first, padding and type. */
  lemma HeaderExample()
    ensures HeaderBytes(0x150, 14, 1)
         == [0x2d, 0x77, 0x69, 0x72, 0x65, 0x2d, 0x50, 0x01, 0, 0, 0, 0, 0, 0, 14, 1]
  {
    hide Unpack;
    LengthExample();
  }

  // `header_get_data_length`
  function DataLength(h: Block): int { Length(h) - DATA - Alignment(h) as int }

  /** A header carries its fields. */
  lemma HeaderFields(length: nat, alignment: bv8, kind: bv8)
    requires length < 0x1_0000_0000_0000_0000
    ensures var h := HeaderBytes(length, alignment, kind);
            Signature(h) == SIGNATURE && Length(h) == length && Alignment(h) == alignment && Kind(h) == kind
  {
    Pack64Unpack64(length);
    var h := HeaderBytes(length, alignment, kind);
    assert h[6..14] == Unpack(length, 8);
  }

  // ---- What sealing and opening a wire mean ----

  // The two halves of a key: one cipher for the chain, another for the codes.
  function CipherKeys(key: Key): RoundKeys
    requires |key| == KEY_LEN
  {
    KeySchedule.Expand(key[..16])
  }

  function CodeCipher(key: Key): BlockMap
    requires |key| == KEY_LEN
  {
    Enc(KeySchedule.Expand(key[16..32]))
  }

  // Where the blocks of a wire of len bytes end.
  function End(len: nat): (e: nat)
    requires len >= DATA
    ensures len <= e < len + 16 && e % 16 == 0
  {
    DATA + RoundUp(len - DATA)
  }

  // Header and payload, as one chain.
  function Chained(w: seq<bv8>, len: nat, key: Key): (c: seq<bv8>)
    requires DATA <= len && End(len) <= |w|
    ensures |c| == End(len) - HEADER
  {
    CbcEncrypt(Enc(CipherKeys(key)), w[IV..HEADER], w[HEADER..End(len)])
  }

  function Sealed(w: seq<bv8>, len: nat, key: Key): (r: seq<bv8>)
    requires DATA <= len && End(len) <= |w|
    ensures |r| == |w|
  {
    var c := Chained(w, len, key);
    var body := Cmac(CodeCipher(key), c[..16]) + w[IV..HEADER] + c + w[End(len)..];
    Cmac(CodeCipher(key), body[..len - MAC_INNER]) + body
  }

  predicate InnerVerifies(w: seq<bv8>, key: Key)
    requires DATA <= |w|
  {
    w[MAC_INNER..IV] == Cmac(CodeCipher(key), w[HEADER..DATA])
  }

  predicate OuterVerifies(w: seq<bv8>, len: nat, key: Key)
    requires MAC_INNER <= len <= |w|
  {
    w[..MAC_INNER] == Cmac(CodeCipher(key), w[MAC_INNER..len])
  }

  function DecryptedHeader(w: seq<bv8>, key: Key): Block
    requires DATA <= |w|
  {
    CbcDecrypt(Dec(CipherKeys(key)), w[IV..HEADER], w[HEADER..DATA])
  }

  // A wire that this key sealed, as far as its codes, signature and length tell.
  predicate Authentic(w: seq<bv8>, len: nat, key: Key)
    requires DATA <= |w| && len <= |w|
  {
    var h := DecryptedHeader(w, key);
    InnerVerifies(w, key) && MAC_INNER <= len && OuterVerifies(w, len, key) && Signature(h) == SIGNATURE && Length(h) == len
  }

  // Whether a wire of len bytes is whole, and its blocks are within a buffer of that room.
  predicate Fits(len: nat, room: nat) { DATA <= len && End(len) <= room }

  // Header and payload in the clear, behind codes and vector as they were.
  function Opened(w: seq<bv8>, len: nat, key: Key): (r: seq<bv8>)
    requires DATA <= len && End(len) <= |w|
    ensures |r| == |w|
  {
    w[..HEADER] + CbcDecrypt(Dec(CipherKeys(key)), w[IV..HEADER], w[HEADER..End(len)]) + w[End(len)..]
  }

  /** Opening undoes sealing: what was sealed is authentic, and header and payload come back. */
  lemma OpenUndoesSeal(w: seq<bv8>, len: nat, key: Key)
    requires DATA <= len && End(len) <= |w|
    requires Signature(w[HEADER..DATA]) == SIGNATURE && Length(w[HEADER..DATA]) == len
    ensures var s := Sealed(w, len, key); Authentic(s, len, key) && Opened(s, len, key)[HEADER..] == w[HEADER..]
  {
    hide Cmac, CipherKeys, CodeCipher, CbcEncrypt, CbcDecrypt, Enc, Dec, NextIv;
    var rk, iv, d := CipherKeys(key), w[IV..HEADER], w[HEADER..End(len)];
    var c := Chained(w, len, key);
    var s := Sealed(w, len, key);
    SealedParts(w, len, key);
    AesUndone(rk);
    CbcUndone(Enc(rk), Dec(rk), iv, d);
    assert c == c[..16] + c[16..];
    CbcDecryptSplit(Dec(rk), iv, c[..16], c[16..]);
    assert DecryptedHeader(s, key) == d[..16] == w[HEADER..DATA];
    assert w[HEADER..] == d + w[End(len)..];
  }

  // Where everything is in a sealed wire.
  lemma SealedParts(w: seq<bv8>, len: nat, key: Key)
    requires DATA <= len && End(len) <= |w|
    ensures var s, c := Sealed(w, len, key), Chained(w, len, key);
            s[HEADER..End(len)] == c && s[HEADER..DATA] == c[..16] && s[End(len)..] == w[End(len)..]
            && s[IV..HEADER] == w[IV..HEADER] && InnerVerifies(s, key) && OuterVerifies(s, len, key)
  {
    hide Cmac, CodeCipher, Chained;
    var c := Chained(w, len, key);
    var inner, iv := Cmac(CodeCipher(key), c[..16]), w[IV..HEADER];
    var body := inner + iv + c + w[End(len)..];
    var outer := Cmac(CodeCipher(key), body[..len - MAC_INNER]);
    var s := Sealed(w, len, key);
    assert s == outer + body;
    assert s[MAC_INNER..len] == body[..len - MAC_INNER];
    assert s == outer + inner + iv + c + w[End(len)..];
  }

  // The block at place i.
  function At(w: seq<bv8>, i: nat): Block
    requires i + 16 <= |w|
  {
    w[i..i + 16]
  }

  // Blocks of a part of a wire.
  lemma Part(w: seq<bv8>, e: nat, c: seq<bv8>, i: nat)
    requires e <= |w| && HEADER <= i <= i + 16 <= e && c == w[HEADER..e]
    ensures At(w, i) == c[i - HEADER..i - HEADER + 16]
    ensures c == c[..i - HEADER] + (At(w, i) + c[i - HEADER + 16..])
  {}

  /** Every block of a sealed wire from the header on is the cipher, under the first half of the key, of the
      block in the clear plus the block before it in the wire, which for the header is the vector. */
  lemma SealedBlock(w: seq<bv8>, len: nat, key: Key, i: nat)
    requires DATA <= len && End(len) <= |w| && HEADER <= i && i + 16 <= End(len) && i % 16 == 0
    ensures var s := Sealed(w, len, key);
            At(s, IV) == At(w, IV) && At(s, i) == Enc(CipherKeys(key))(Xor(At(w, i), At(s, i - 16)))
  {
    hide Cmac, CodeCipher, CbcEncrypt, Enc, Xor, Sealed, At, End;
    SealedParts(w, len, key);
    var s, c, j := Sealed(w, len, key), Chained(w, len, key), i - HEADER;
    var d := w[HEADER..End(len)];
    Part(w, End(len), d, i);
    Part(s, End(len), c, i);
    CbcBlock(Enc(CipherKeys(key)), w[IV..HEADER], d[..j], At(w, i), d[j + 16..]);
    VectorAt(s);
    VectorAt(w);
    if j > 0 {
      Part(s, End(len), c, i - 16);
    }
  }

  lemma VectorAt(w: seq<bv8>)
    requires DATA <= |w|
    ensures At(w, IV) == w[IV..HEADER]
  {}

  // ---- Trying keys ----

  // Overrun: the program goes past the buffer, or past zero in a length.
  datatype Verdict = Accepted(wire: seq<bv8>) | Rejected | Overrun

  // The header as the program sees it: zeros if its signature is wrong.
  function SeenHeader(w: seq<bv8>, key: Key): Block
    requires DATA <= |w|
  {
    var h := DecryptedHeader(w, key);
    if Signature(h) == SIGNATURE then h else ZERO
  }

  // What becomes of a wire once its inner code has verified under a key.
  function Judged(w: seq<bv8>, len: nat, key: Key): Verdict
    requires DATA <= |w| && len <= |w|
  {
    if Length(SeenHeader(w, key)) != len then Rejected
    else if len < MAC_INNER then Overrun
    else if !OuterVerifies(w, len, key) then Rejected
    else if !Fits(len, |w|) then Overrun
    else Accepted(Opened(w, len, key))
  }

  // The first key that the inner code verifies under decides.
  ghost function Decrypted(w: seq<bv8>, len: nat, keys: seq<Key>): Verdict
    requires len <= |w|
    decreases |keys|
  {
    if |keys| == 0 then Rejected
    else if |w| < DATA then Overrun
    else if !InnerVerifies(w, keys[0]) then Decrypted(w, len, keys[1..])
    else Judged(w, len, keys[0])
  }

  // Key i is the first that the inner code verifies under.
  ghost predicate Decides(w: seq<bv8>, keys: seq<Key>, i: nat)
    requires DATA <= |w|
  {
    i < |keys| && InnerVerifies(w, keys[i]) && forall j :: 0 <= j < i ==> !InnerVerifies(w, keys[j])
  }

  lemma {:induction false} DecidedBy(w: seq<bv8>, len: nat, keys: seq<Key>, i: nat)
    requires DATA <= |w| && len <= |w| && Decides(w, keys, i)
    ensures Decrypted(w, len, keys) == Judged(w, len, keys[i])
    decreases |keys|
  {
    hide InnerVerifies, Judged;
    if i > 0 {
      var rest := keys[1..];
      forall j | 0 <= j < i - 1 ensures !InnerVerifies(w, rest[j]) {
        assert rest[j] == keys[j + 1];
      }
      assert rest[i - 1] == keys[i];
      DecidedBy(w, len, rest, i - 1);
    }
  }

  lemma {:induction false} SomebodyDecides(w: seq<bv8>, len: nat, keys: seq<Key>)
    requires DATA <= |w| && len <= |w| && Decrypted(w, len, keys) != Rejected
    ensures exists i: nat :: Decides(w, keys, i)
    decreases |keys|
  {
    hide InnerVerifies, Judged;
    if InnerVerifies(w, keys[0]) {
      assert Decides(w, keys, 0);
    } else {
      var rest := keys[1..];
      SomebodyDecides(w, len, rest);
      var i: nat :| Decides(w, rest, i);
      forall j | 0 <= j < i + 1 ensures !InnerVerifies(w, keys[j]) {
        if j > 0 {
          assert keys[j] == rest[j - 1];
        }
      }
      assert Decides(w, keys, i + 1);
    }
  }

  // The header tells the length, and the outer code does not stop the program.
  predicate Passes(w: seq<bv8>, len: nat, key: Key)
    requires DATA <= |w| && len <= |w|
  {
    Length(SeenHeader(w, key)) == len && (len < MAC_INNER || OuterVerifies(w, len, key))
  }

  lemma PassesIfAuthentic(w: seq<bv8>, len: nat, key: Key)
    requires DATA <= |w| && len <= |w| && InnerVerifies(w, key)
    ensures Authentic(w, len, key) <==> MAC_INNER <= len && Passes(w, len, key)
  {
    hide InnerVerifies, OuterVerifies, DecryptedHeader, Length;
    ZeroLength();
  }

  /** A wire of any length is accepted if and only if it is authentic and whole under the first key that its
      inner code verifies under, and what is delivered is what that key opens. The program overruns its
      buffer if and only if the wire gets past the checks under that key and is not whole: where its length
      is below 64, or its last block is not all there. */
  lemma AcceptedExactlyIfAuthentic(w: seq<bv8>, len: nat, keys: seq<Key>)
    requires DATA <= |w| && len <= |w|
    ensures Decrypted(w, len, keys).Accepted?
      <==> Fits(len, |w|) && exists i: nat :: Decides(w, keys, i) && Authentic(w, len, keys[i])
    ensures Decrypted(w, len, keys).Overrun?
      <==> !Fits(len, |w|) && exists i: nat :: Decides(w, keys, i) && Passes(w, len, keys[i])
    ensures forall i: nat | Decides(w, keys, i) && Fits(len, |w|) && Authentic(w, len, keys[i]) ::
              Decrypted(w, len, keys) == Accepted(Opened(w, len, keys[i]))
    ensures Decrypted(w, len, keys).Accepted? ==> exists i: nat :: Decides(w, keys, i) && CodesHold(w, len, keys[i])
  {
    hide CodesHold, Opened, Authentic, Passes, Decrypted, Judged, InnerVerifies;
    if Decrypted(w, len, keys) != Rejected {
      SomebodyDecides(w, len, keys);
    }
    forall i: nat | Decides(w, keys, i)
      ensures InnerVerifies(w, keys[i]) && Decrypted(w, len, keys) == Judged(w, len, keys[i])
      ensures Judged(w, len, keys[i]).Overrun? <==> !Fits(len, |w|) && Passes(w, len, keys[i])
      ensures Judged(w, len, keys[i]).Accepted? <==> Fits(len, |w|) && Authentic(w, len, keys[i])
      ensures Judged(w, len, keys[i]).Accepted? ==> Judged(w, len, keys[i]) == Accepted(Opened(w, len, keys[i]))
      ensures Judged(w, len, keys[i]).Accepted? ==> CodesHold(w, len, keys[i])
    {
      DecidesVerifies(w, keys, i);
      DecidedBy(w, len, keys, i);
      JudgedIs(w, len, keys[i]);
      if Judged(w, len, keys[i]).Accepted? {
        AuthenticCodes(w, len, keys[i]);
      }
    }
  }

  // Both codes of a wire are those of the bytes that they stand for.
  ghost predicate CodesHold(w: seq<bv8>, len: nat, key: Key) {
    DATA <= len <= |w|
    && w[16..32] == Cmac(CodeCipher(key), w[48..64]) && w[..16] == Cmac(CodeCipher(key), w[16..len])
  }

  lemma AuthenticCodes(w: seq<bv8>, len: nat, key: Key)
    requires Fits(len, |w|) && Authentic(w, len, key)
    ensures CodesHold(w, len, key)
  {
    hide Cmac, CodeCipher, DecryptedHeader, Length;
  }

  lemma DecidesVerifies(w: seq<bv8>, keys: seq<Key>, i: nat)
    requires DATA <= |w| && Decides(w, keys, i)
    ensures i < |keys| && InnerVerifies(w, keys[i])
  {}

  lemma JudgedIs(w: seq<bv8>, len: nat, key: Key)
    requires DATA <= |w| && len <= |w| && InnerVerifies(w, key)
    ensures Judged(w, len, key).Overrun? <==> !Fits(len, |w|) && Passes(w, len, key)
    ensures Judged(w, len, key).Accepted? <==> Fits(len, |w|) && Authentic(w, len, key)
    ensures Judged(w, len, key).Accepted? ==> Judged(w, len, key) == Accepted(Opened(w, len, key))
  {
    hide InnerVerifies, OuterVerifies, SeenHeader, Length, Opened, Authentic;
    PassesIfAuthentic(w, len, key);
  }

  lemma AuthenticVerifies(w: seq<bv8>, len: nat, key: Key)
    requires DATA <= |w| && len <= |w| && Authentic(w, len, key)
    ensures InnerVerifies(w, key)
  {}

  // A header without a signature has no length.
  lemma ZeroLength()
    ensures Length(ZERO) == 0
  {
    assert forall k :: 0 <= k < 16 ==> ZERO[k] == 0;
    PackZeros(ZERO[6..14]);
  }

  lemma {:induction false} PackZeros(s: seq<bv8>)
    requires forall k :: 0 <= k < |s| ==> s[k] == 0
    ensures Pack(s) == 0
  {
    if |s| > 0 {
      PackZeros(s[1..]);
    }
  }

  // ---- Spoilt wires ----

  // The same first key decides about two wires that differ in neither inner code nor header.
  lemma SameDecides(w: seq<bv8>, v: seq<bv8>, keys: seq<Key>, i: nat)
    requires DATA <= |w| == |v| && w[MAC_INNER..IV] == v[MAC_INNER..IV] && w[HEADER..DATA] == v[HEADER..DATA]
    requires Decides(w, keys, i)
    ensures Decides(v, keys, i)
  {
    hide Cmac, CodeCipher;
  }

  // A wire whose outer code does not verify under the key that decides.
  lemma OuterRejects(w: seq<bv8>, len: nat, keys: seq<Key>, i: nat)
    requires DATA <= |w| && MAC_INNER <= len <= |w| && Decides(w, keys, i) && !OuterVerifies(w, len, keys[i])
    ensures Decrypted(w, len, keys) == Rejected
  {
    hide OuterVerifies, SeenHeader, Decrypted, InnerVerifies;
    DecidedBy(w, len, keys, i);
  }

  /** A wire whose outer code verifies is rejected with any other outer code. */
  lemma OtherOuterCode(w: seq<bv8>, v: seq<bv8>, len: nat, keys: seq<Key>, i: nat)
    requires DATA <= |w| == |v| && MAC_INNER <= len <= |w| && Decides(w, keys, i) && OuterVerifies(w, len, keys[i])
    requires v[..MAC_INNER] != w[..MAC_INNER] && v[MAC_INNER..] == w[MAC_INNER..]
    ensures Decrypted(v, len, keys) == Rejected
  {
    hide Cmac, CodeCipher, Decrypted, Decides;
    TailSlice(w, v, MAC_INNER, MAC_INNER, len);
    TailSlice(w, v, MAC_INNER, MAC_INNER, IV);
    TailSlice(w, v, MAC_INNER, HEADER, DATA);
    DecidesVerifies(w, keys, i);
    SameDecides(w, v, keys, i);
    DecidesVerifies(v, keys, i);
    OuterRejects(v, len, keys, i);
  }

  lemma TailSlice(w: seq<bv8>, v: seq<bv8>, n: nat, a: nat, b: nat)
    requires |w| == |v| && n <= a <= b <= |w| && w[n..] == v[n..]
    ensures w[a..b] == v[a..b]
  {
    assert w[n..][a - n..b - n] == w[a..b] && v[n..][a - n..b - n] == v[a..b];
  }

  lemma HeadSlice(w: seq<bv8>, v: seq<bv8>, n: nat, a: nat, b: nat)
    requires |w| == |v| && a <= b <= n <= |w| && w[..n] == v[..n]
    ensures w[a..b] == v[a..b]
  {
    assert w[..n][a..b] == w[a..b] && v[..n][a..b] == v[a..b];
  }

  lemma ThreeSlices(w: seq<bv8>, a: nat, j: nat, k: nat, b: nat)
    requires a <= j <= k <= b <= |w|
    ensures w[a..b] == w[a..j] + w[j..k] + w[k..b]
  {}

  /** A wire whose outer code verifies is rejected once any one block is changed that the inner code does not
      stand for, be it by a bit: the vector or a block of the payload, the last one included. */
  lemma OtherBlock(w: seq<bv8>, v: seq<bv8>, len: nat, keys: seq<Key>, i: nat, j: nat, k: nat)
    requires DATA <= |w| == |v| && j < k <= len <= |w| && j % 16 == 0 && k <= j + 16 && (k == j + 16 || k == len)
    requires j == IV || DATA <= j
    requires Decides(w, keys, i) && OuterVerifies(w, len, keys[i])
    requires v[..j] == w[..j] && v[j..k] != w[j..k] && v[k..] == w[k..]
    ensures Decrypted(v, len, keys) == Rejected
  {
    hide Cmac, Decrypted, Decides, CodeCipher, Undoes;
    HeadSlice(w, v, j, MAC_INNER, IV);
    HeadSlice(w, v, j, MAC_INNER, j);
    HeadSlice(w, v, j, 0, MAC_INNER);
    TailSlice(w, v, k, k, len);
    if j == IV {
      SmallEnd(w, v, k);
    } else {
      HeadSlice(w, v, j, HEADER, DATA);
    }
    DecidesVerifies(w, keys, i);
    SameDecides(w, v, keys, i);
    DecidesVerifies(v, keys, i);
    ThreeSlices(w, MAC_INNER, j, k, len);
    ThreeSlices(v, MAC_INNER, j, k, len);
    var dec := CodeUndone(keys[i]);
    OneBlockTells(CodeCipher(keys[i]), dec, w[MAC_INNER..j], w[j..k], v[j..k], w[k..len]);
    OuterRejects(v, len, keys, i);
  }

  lemma SmallEnd(w: seq<bv8>, v: seq<bv8>, k: nat)
    requires DATA <= |w| == |v| && k <= HEADER && w[k..] == v[k..]
    ensures w[HEADER..DATA] == v[HEADER..DATA]
  {
    TailSlice(w, v, k, HEADER, DATA);
  }

  /** A header other than the one that the inner code stands for fails under the same key. */
  lemma OtherHeader(w: seq<bv8>, v: seq<bv8>, key: Key)
    requires DATA <= |w| == |v| && InnerVerifies(w, key)
    requires v[MAC_INNER..IV] == w[MAC_INNER..IV] && v[HEADER..DATA] != w[HEADER..DATA]
    ensures !InnerVerifies(v, key)
  {
    hide Cmac, CodeCipher, Undoes;
    var dec := CodeUndone(key);
    var a, b := w[HEADER..DATA], v[HEADER..DATA];
    OneBlockTells(CodeCipher(key), dec, [], a, b, []);
    assert [] + a + [] == a && [] + b + [] == b;
  }

  lemma CodeUndone(key: Key) returns (dec: BlockMap)
    ensures Undoes(dec, CodeCipher(key))
  {
    var rk := KeySchedule.Expand(key[16..32]);
    AesUndone(rk);
    dec := Dec(rk);
  }

  /** Each half of a key serves one purpose: the first encrypts, the second makes the codes. */
  lemma KeyHalves(a: Block, b: Block)
    ensures CipherKeys(a + b) == KeySchedule.Expand(a) && CodeCipher(a + b) == Enc(KeySchedule.Expand(b))
  {
    assert (a + b)[..16] == a && (a + b)[16..32] == b;
  }

  // A wire in a buffer of that room that passes all checks, with len for its length and nothing in it.
  function Hollow(len: nat, room: nat, key: Key): (w: seq<bv8>)
    requires DATA <= room && len <= room
    ensures |w| == room
  {
    var header := CbcEncrypt(Enc(CipherKeys(key)), ZERO, HeaderBytes(len, 0, 0));
    var body := Cmac(CodeCipher(key), header) + ZERO + header + seq(room - DATA, _ => 0);
    (if len < MAC_INNER then ZERO else Cmac(CodeCipher(key), body[..len - MAC_INNER])) + body
  }

  lemma HollowPasses(len: nat, room: nat, key: Key)
    requires DATA <= room < 0x1_0000_0000_0000_0000 && len <= room
    ensures InnerVerifies(Hollow(len, room, key), key) && Passes(Hollow(len, room, key), len, key)
  {
    hide Cmac, CipherKeys, CodeCipher, CbcEncrypt, CbcDecrypt, Enc, Dec, Length, HeaderBytes;
    var h, rk := HeaderBytes(len, 0, 0), CipherKeys(key);
    var header := CbcEncrypt(Enc(rk), ZERO, h);
    HeaderFields(len, 0, 0);
    AesUndone(rk);
    CbcUndone(Enc(rk), Dec(rk), ZERO, h);
    var inner := Cmac(CodeCipher(key), header);
    var body := inner + ZERO + header + seq(room - DATA, _ => 0);
    var w := Hollow(len, room, key);
    assert w[MAC_INNER..] == body;
    assert w[MAC_INNER..IV] == inner && w[IV..HEADER] == ZERO && w[HEADER..DATA] == header;
    if MAC_INNER <= len {
      assert w[MAC_INNER..len] == body[..len - MAC_INNER];
    }
  }

  /** A length can overrun the buffer, with some wire that the key decides, if and only if it does not fit:
      every length below 64, and every length whose last block is cut off. */
  lemma OverrunsExactlyIfUnfit(len: nat, room: nat, key: Key)
    requires len <= room < 0x1_0000_0000_0000_0000
    ensures (exists w: seq<bv8> :: |w| == room && Decrypted(w, len, [key]) == Overrun) <==> !Fits(len, room)
  {
    hide InnerVerifies, Passes, Hollow;
    if Fits(len, room) {
      forall w: seq<bv8> | |w| == room ensures Decrypted(w, len, [key]) != Overrun {
        AcceptedExactlyIfAuthentic(w, len, [key]);
      }
    } else if room < DATA {
      var w: seq<bv8> := seq(room, _ => 0);
      assert Decrypted(w, len, [key]) == Overrun;
    } else {
      var w := Hollow(len, room, key);
      HollowPasses(len, room, key);
      AcceptedExactlyIfAuthentic(w, len, [key]);
      assert Decides(w, [key], 0);
      assert Decrypted(w, len, [key]) == Overrun;
    }
  }

  // ---- A wire from a payload ----

  // The wire that `init_wire` makes.
  function Fresh(vector: Block, kind: bv8, payload: seq<bv8>): (w: seq<bv8>)
    ensures |w| == DATA + RoundUp(|payload|) == End(|w|)
  {
    RoundUpTwice(|payload|);
    var padding := RoundUp(|payload|) - |payload|;
    seq(IV, _ => 0) + vector + HeaderBytes(DATA + RoundUp(|payload|), padding as bv8, kind)
    + payload + seq(padding, _ => 0)
  }

  lemma RoundUpTwice(n: nat)
    ensures RoundUp(RoundUp(n)) == RoundUp(n)
  {}

  lemma PaddingByte(n: nat)
    ensures ((RoundUp(n) - n) as bv8) as nat == RoundUp(n) - n
  {
    Eight(RoundUp(n) - n);
  }

  // Type, lengths, payload and padding of a wire in the clear.
  ghost predicate Carries(w: seq<bv8>, kind: bv8, payload: seq<bv8>) {
    |w| == DATA + RoundUp(|payload|) == End(|w|)
    && Kind(w[HEADER..DATA]) == kind && Length(w[HEADER..DATA]) == |w| && DataLength(w[HEADER..DATA]) == |payload|
    && w[DATA..DATA + |payload|] == payload
    && forall k :: DATA + |payload| <= k < |w| ==> w[k] == 0
  }

  lemma FreshCarries(vector: Block, kind: bv8, payload: seq<bv8>)
    requires DATA + RoundUp(|payload|) < 0x1_0000_0000_0000_0000
    ensures var w := Fresh(vector, kind, payload);
            Carries(w, kind, payload) && Signature(w[HEADER..DATA]) == SIGNATURE
  {
    var w, n := Fresh(vector, kind, payload), DATA + RoundUp(|payload|);
    var padding := RoundUp(|payload|) - |payload|;
    PaddingByte(|payload|);
    HeaderFields(n, padding as bv8, kind);
    assert w[HEADER..DATA] == HeaderBytes(n, padding as bv8, kind);
  }

  /** The round trip. A wire that carries any payload and is sealed under a key is accepted under that
      key, wherever it stands in the list after keys that the inner code does not verify under, and its
      type, payload, padding and payload length are those that were sealed. */
  lemma RoundTrip(w: seq<bv8>, kind: bv8, payload: seq<bv8>, s: seq<bv8>, keys: seq<Key>, i: nat)
    requires Carries(w, kind, payload) && Signature(w[HEADER..DATA]) == SIGNATURE
    requires i < |keys| && s == Sealed(w, |w|, keys[i])
    requires forall j :: 0 <= j < i ==> !InnerVerifies(s, keys[j])
    ensures var v := Decrypted(s, |w|, keys);
            v.Accepted? && Carries(v.wire, kind, payload)
  {
    hide InnerVerifies, Authentic, Opened, Sealed, Length, DataLength, Decrypted;
    OpenUndoesSeal(w, |w|, keys[i]);
    AuthenticVerifies(s, |w|, keys[i]);
    assert Decides(s, keys, i);
    AcceptedExactlyIfAuthentic(s, |w|, keys);
    SameCarries(Opened(s, |w|, keys[i]), w, kind, payload);
  }

  lemma SameCarries(o: seq<bv8>, w: seq<bv8>, kind: bv8, payload: seq<bv8>)
    requires Carries(w, kind, payload) && |o| == |w| && o[HEADER..] == w[HEADER..]
    ensures Carries(o, kind, payload)
  {
    SameTail(o, w, HEADER, HEADER, DATA);
    SameTail(o, w, HEADER, DATA, DATA + |payload|);
    forall k | DATA + |payload| <= k < |w| ensures o[k] == 0 {
      assert o[k] == o[HEADER..][k - HEADER] == w[HEADER..][k - HEADER] == w[k];
    }
  }

  lemma SameTail(o: seq<bv8>, w: seq<bv8>, h: nat, a: nat, b: nat)
    requires h <= a <= b <= |w| == |o| && o[h..] == w[h..]
    ensures o[a..b] == w[a..b]
  {
    forall k | a <= k < b ensures o[k] == w[k] {
      assert o[k] == o[h..][k - h] && w[k] == w[h..][k - h];
    }
  }

  // ---- The program's routines, on the buffer of a wire ----

  // The setters of a header.
  method SetHeader(w: array<bv8>, length: nat, alignment: bv8, kind: bv8)
    requires DATA <= w.Length && length < 0x1_0000_0000_0000_0000
    modifies w
    ensures w[HEADER..DATA] == HeaderBytes(length, alignment, kind)
    ensures forall k :: 0 <= k < w.Length && !(HEADER <= k < DATA) ==> w[k] == old(w[k])
  {
    hide Unpack;
    forall k | 0 <= k < 6 { w[HEADER + k] := SIGNATURE[k]; }
    w[62] := alignment;
    assert w[HEADER..54] == SIGNATURE;
    Unpack64(w, 54, length);
    w[63] := kind;
    assert w[HEADER..54] == SIGNATURE;
    ThreeParts(w[..], HEADER, 54, 62, DATA);
    assert w[62] == alignment && w[63] == kind;
    assert w[62..DATA] == [alignment, kind];
  }

  /** A new wire in the clear around a payload; none if the source of randomness falls short. */
  method InitWire(kind: bv8, data: array<bv8>, len: nat, random: seq<bv8>) returns (wire: array?<bv8>, total: nat)
    requires len <= data.Length && DATA + RoundUp(len) < 0x1_0000_0000_0000_0000
    ensures wire == null <==> |random| != 16
    ensures wire == null ==> total == len
    ensures wire != null ==> fresh(wire) && wire[..] == Fresh(random, kind, data[..len]) && total == wire.Length
  {
    hide HeaderBytes, RoundUp, Fresh;
    total := len;
    wire := null;
    if |random| == 16 {
      var dataLength := RoundUp(len);
      var alignment := dataLength - len;
      var w := new bv8[DATA + dataLength](_ => 0);
      forall k | 0 <= k < 16 { w[IV + k] := random[k]; }
      SetHeader(w, w.Length, alignment as bv8, kind);
      forall k | 0 <= k < len { w[DATA + k] := data[k]; }
      FreshBytes(w[..], random, kind, data[..len]);
      wire := w;
      total := w.Length;
    }
  }

  lemma FreshBytes(w: seq<bv8>, vector: Block, kind: bv8, payload: seq<bv8>)
    requires |w| == DATA + RoundUp(|payload|)
    requires forall k :: 0 <= k < IV ==> w[k] == 0
    requires forall k :: 0 <= k < 16 ==> w[IV + k] == vector[k]
    requires w[HEADER..DATA] == HeaderBytes(|w|, (RoundUp(|payload|) - |payload|) as bv8, kind)
    requires forall k :: 0 <= k < |payload| ==> w[DATA + k] == payload[k]
    requires forall k :: DATA + |payload| <= k < |w| ==> w[k] == 0
    ensures w == Fresh(vector, kind, payload)
  {
    hide HeaderBytes;
    assert w[..IV] == seq(IV, _ => 0);
    assert w[IV..HEADER] == vector && w[DATA..DATA + |payload|] == payload;
    assert w[DATA + |payload|..] == seq(RoundUp(|payload|) - |payload|, _ => 0);
    FiveParts(w, IV, HEADER, DATA, DATA + |payload|);
  }

  lemma ThreeParts(w: seq<bv8>, a: nat, b: nat, c: nat, d: nat)
    requires a <= b <= c <= d <= |w|
    ensures w[a..d] == w[a..b] + w[b..c] + w[c..d]
  {}

  lemma FiveParts(w: seq<bv8>, a: nat, b: nat, c: nat, d: nat)
    requires a <= b <= c <= d <= |w|
    ensures w == w[..a] + w[a..b] + w[b..c] + w[c..d] + w[d..]
  {}

  // The inner code over the header, and the outer code over everything behind it.
  method GenCmacs(cmac: Context, wire: array<bv8>, len: nat)
    requires cmac.Valid() && DATA <= len <= wire.Length && wire != cmac.roundKey
    modifies wire
    ensures var e, w := Enc(cmac.roundKey[..]), old(wire[..]);
            var body := Cmac(e, w[HEADER..DATA]) + w[IV..];
            wire[..] == Cmac(e, body[..len - MAC_INNER]) + body
  {
    hide Cmac, Splice;
    ghost var w := wire[..];
    ghost var e := Enc(cmac.roundKey[..]);
    ghost var inner := Cmac(e, w[HEADER..DATA]);
    CmacAt(cmac.roundKey, wire, HEADER, 16, wire, MAC_INNER);
    SpliceParts(w, MAC_INNER, inner);
    ghost var body := inner + w[IV..];
    ghost var v := wire[..];
    assert v[MAC_INNER..] == body && v[MAC_INNER..len] == body[..len - MAC_INNER];
    CmacAt(cmac.roundKey, wire, MAC_INNER, len - MAC_INNER, wire, 0);
    SpliceParts(v, 0, Cmac(e, body[..len - MAC_INNER]));
  }

  lemma SpliceParts(s: seq<bv8>, off: nat, b: Block)
    requires off + 16 <= |s|
    ensures Splice(s, off, b) == s[..off] + b + s[off + 16..]
    ensures Splice(s, off, b)[off..] == b + s[off + 16..]
  {}

  // Two calls on adjacent parts of a buffer are one on both.
  lemma EncryptedInTwo(enc: BlockMap, iv: Block, w: seq<bv8>, len: nat)
    requires DATA <= len && End(len) <= |w|
    ensures var e := CbcEncrypt(enc, iv, w[HEADER..DATA]);
            var v := Splice(w, HEADER, e);
            v[DATA..End(len)] == w[DATA..End(len)]
            && Splice(v, DATA, CbcEncrypt(enc, NextIv(iv, e), w[DATA..End(len)]))
               == w[..HEADER] + CbcEncrypt(enc, iv, w[HEADER..End(len)]) + w[End(len)..]
  {
    hide NextIv;
    var e := CbcEncrypt(enc, iv, w[HEADER..DATA]);
    var f := CbcEncrypt(enc, NextIv(iv, e), w[DATA..End(len)]);
    assert w[HEADER..End(len)] == w[HEADER..DATA] + w[DATA..End(len)];
    CbcEncryptSplit(enc, iv, w[HEADER..DATA], w[DATA..End(len)]);
    hide CbcEncrypt, End;
    SpliceTwice(w, HEADER, e, f);
  }

  lemma SpliceTwice(w: seq<bv8>, a: nat, e: seq<bv8>, f: seq<bv8>)
    requires a + |e| + |f| <= |w|
    ensures var v := Splice(w, a, e);
            Splice(v, a + |e|, f) == w[..a] + (e + f) + w[a + |e| + |f|..]
            && v[a + |e|..a + |e| + |f|] == w[a + |e|..a + |e| + |f|]
  {}

  lemma SealedFrom(w: seq<bv8>, v: seq<bv8>, len: nat, key: Key)
    requires DATA <= len && End(len) <= |w| && v == w[..HEADER] + Chained(w, len, key) + w[End(len)..]
    ensures var body := Cmac(CodeCipher(key), v[HEADER..DATA]) + v[IV..];
            Cmac(CodeCipher(key), body[..len - MAC_INNER]) + body == Sealed(w, len, key)
  {
    hide Cmac, CodeCipher, Chained;
    var c := Chained(w, len, key);
    assert v[HEADER..DATA] == c[..16];
    assert v[IV..] == w[IV..HEADER] + c + w[End(len)..];
    var inner := Cmac(CodeCipher(key), c[..16]);
    assert inner + v[IV..] == inner + w[IV..HEADER] + c + w[End(len)..];
  }

  // Header and payload, in two calls.
  method EncryptParts(cipher: Context, wire: array<bv8>, len: nat)
    requires cipher.Valid() && wire != cipher.roundKey && wire != cipher.iv
    requires DATA <= len && End(len) <= wire.Length
    modifies wire, cipher.iv
    ensures var w := old(wire[..]);
            wire[..] == w[..HEADER] + CbcEncrypt(Enc(cipher.roundKey[..]), old(cipher.iv[..]), w[HEADER..End(len)]) + w[End(len)..]
  {
    hide Splice, CbcEncrypt, NextIv, Enc;
    ghost var w, e, iv := wire[..], Enc(cipher.roundKey[..]), cipher.iv[..];
    var dataLen := len - DATA;
    EncryptedInTwo(e, iv, w, len);
    assert wire[HEADER..HEADER + RoundUp(16)] == w[HEADER..DATA];
    cipher.Encrypt(wire, HEADER, 16);
    ghost var v := wire[..];
    assert wire[DATA..DATA + RoundUp(dataLen)] == v[DATA..End(len)];
    cipher.Encrypt(wire, DATA, dataLen);
  }

  // Both contexts of a key and a wire, as sealing and opening begin.
  method InitBoth(cipher: Context, cmac: Context, wire: array<bv8>, key: array<bv8>)
    requires cipher.Valid() && cmac.Valid() && DATA <= wire.Length && key.Length == KEY_LEN
    requires {cipher.roundKey, cipher.iv} !! {wire, key, cmac.roundKey, cmac.iv}
    requires {cmac.roundKey, cmac.iv} !! {wire, key}
    modifies cipher.roundKey, cipher.iv, cmac.roundKey, cmac.iv
    ensures cipher.roundKey[..] == CipherKeys(key[..]) && cipher.iv[..] == wire[IV..HEADER]
    ensures Enc(cmac.roundKey[..]) == CodeCipher(key[..])
  {
    hide KeySchedule.Expand, Enc;
    ghost var k := key[..];
    cipher.Init(wire, IV, key, CIPHER_OFFSET);
    cmac.InitCmac(key, CMAC_OFFSET);
    assert key[0..16] == k[..16] && key[16..32] == k[16..32];
  }

  ghost predicate CanSeal(w: seq<bv8>) {
    DATA <= |w| && DATA <= Length(w[HEADER..DATA]) && End(Length(w[HEADER..DATA])) <= |w|
  }

  /** A wire is sealed in place: header and payload in two calls, then the codes. */
  method SealInPlace(wire: array<bv8>, key: array<bv8>)
    requires wire != key && key.Length == KEY_LEN && CanSeal(wire[..])
    modifies wire
    ensures wire[..] == Sealed(old(wire[..]), Length(old(wire[..])[HEADER..DATA]), key[..])
  {
    hide Cmac, Length, CbcEncrypt, CipherKeys, CodeCipher, Enc, Sealed;
    ghost var w, k := wire[..], key[..];
    var cipher := new Context();
    var cmac := new Context();
    InitBoth(cipher, cmac, wire, key);
    var wireLen := Length(wire[HEADER..DATA]);
    assert wire[HEADER..DATA] == w[HEADER..DATA];
    EncryptParts(cipher, wire, wireLen);
    ghost var v := wire[..];
    assert v == w[..HEADER] + Chained(w, wireLen, k) + w[End(wireLen)..];
    GenCmacs(cmac, wire, wireLen);
    SealedFrom(w, v, wireLen, k);
  }

  method EncryptWire(wire: array?<bv8>, key: array?<bv8>) returns (ok: bool)
    requires wire != null && key != null ==> wire != key && key.Length == KEY_LEN && CanSeal(wire[..])
    modifies wire
    ensures ok <==> wire != null && key != null
    ensures ok ==> wire[..] == Sealed(old(wire[..]), Length(old(wire[..])[HEADER..DATA]), key[..])
    ensures !ok && wire != null ==> wire[..] == old(wire[..])
  {
    hide Sealed, Length;
    ok := false;
    if wire != null && key != null {
      SealInPlace(wire, key);
      ok := true;
    }
  }

  // ---- decrypt_wire ----

  method VerifyInnerMac(cmac: Context, wire: array<bv8>) returns (ok: bool)
    requires cmac.Valid() && DATA <= wire.Length
    ensures ok <==> wire[MAC_INNER..IV] == Cmac(Enc(cmac.roundKey[..]), wire[HEADER..DATA])
  {
    hide Cmac, Splice;
    var code := new bv8[16](_ => 0);
    SpliceWhole(code[..], Cmac(Enc(cmac.roundKey[..]), wire[HEADER..DATA]));
    CmacAt(cmac.roundKey, wire, HEADER, 16, code, 0);
    ok := wire[MAC_INNER..IV] == code[..];
  }

  method VerifyOuterMac(cmac: Context, wire: array<bv8>, len: nat) returns (ok: bool)
    requires cmac.Valid() && MAC_INNER <= len <= wire.Length
    ensures ok <==> wire[..MAC_INNER] == Cmac(Enc(cmac.roundKey[..]), wire[MAC_INNER..len])
  {
    hide Cmac, Splice;
    var code := new bv8[16](_ => 0);
    SpliceWhole(code[..], Cmac(Enc(cmac.roundKey[..]), wire[MAC_INNER..len]));
    CmacAt(cmac.roundKey, wire, MAC_INNER, len - MAC_INNER, code, 0);
    ok := wire[..MAC_INNER] == code[..];
  }

  // The header on its own, in a copy: all zeros if its signature is wrong.
  method DecryptHeader(cipher: Context, wire: array<bv8>) returns (h: Block)
    requires cipher.Valid() && DATA <= wire.Length && wire != cipher.iv && wire != cipher.roundKey
    modifies cipher.iv
    ensures var d := CbcDecrypt(Dec(cipher.roundKey[..]), old(cipher.iv[..]), wire[HEADER..DATA]);
            h == if Signature(d) == SIGNATURE then d else ZERO
    ensures cipher.iv[..] == NextIv(old(cipher.iv[..]), wire[HEADER..DATA])
  {
    hide CbcDecrypt, NextIv, Dec, Splice;
    var copy := new bv8[16](k requires 0 <= k < 16 reads wire requires DATA <= wire.Length => wire[HEADER + k]);
    ghost var c := wire[HEADER..DATA];
    assert copy[..] == c && copy[0..0 + RoundUp(16)] == c;
    SpliceWhole(c, CbcDecrypt(Dec(cipher.roundKey[..]), cipher.iv[..], c));
    cipher.Decrypt(copy, 0, 16);
    h := copy[..];
    if Signature(h) != SIGNATURE {
      h := ZERO;
    }
  }

  // Header and payload of a wire, decrypted in two calls.
  lemma DecryptedInTwo(dec: BlockMap, w: seq<bv8>, len: nat)
    requires DATA <= len && End(len) <= |w|
    ensures var iv, c := w[IV..HEADER], w[HEADER..DATA];
            var h := CbcDecrypt(dec, iv, c);
            Splice(Splice(w, DATA, CbcDecrypt(dec, NextIv(iv, c), w[DATA..End(len)])), HEADER, h)
            == w[..HEADER] + CbcDecrypt(dec, iv, w[HEADER..End(len)]) + w[End(len)..]
  {
    hide NextIv;
    var iv, c := w[IV..HEADER], w[HEADER..DATA];
    var h, f := CbcDecrypt(dec, iv, c), CbcDecrypt(dec, NextIv(iv, c), w[DATA..End(len)]);
    assert w[HEADER..End(len)] == c + w[DATA..End(len)];
    CbcDecryptSplit(dec, iv, c, w[DATA..End(len)]);
    hide CbcDecrypt, End;
    SpliceBehind(w, HEADER, h, f);
  }

  lemma SpliceBehind(w: seq<bv8>, a: nat, e: seq<bv8>, f: seq<bv8>)
    requires a + |e| + |f| <= |w|
    ensures Splice(Splice(w, a + |e|, f), a, e) == w[..a] + (e + f) + w[a + |e| + |f|..]
  {}

  /** What follows once the inner code has verified: length, outer code, payload and header. Where the
      program would go past the buffer, this stops instead and says so. */
  method OpenInPlace(cipher: Context, cmac: Context, wire: array<bv8>, len: nat, ghost key: Key) returns (ok: bool, overrun: bool)
    requires cipher.Valid() && cmac.Valid() && DATA <= wire.Length && len <= wire.Length
    requires wire !in {cipher.iv, cipher.roundKey, cmac.roundKey} && cipher.iv != cmac.roundKey
    requires cipher.roundKey[..] == CipherKeys(key) && cipher.iv[..] == wire[IV..HEADER]
    requires Enc(cmac.roundKey[..]) == CodeCipher(key) && InnerVerifies(wire[..], key)
    modifies wire, cipher.iv
    ensures match Judged(old(wire[..]), len, key)
            case Accepted(w) => ok && !overrun && wire[..] == w
            case Rejected => !ok && !overrun && wire[..] == old(wire[..])
            case Overrun => !ok && overrun && wire[..] == old(wire[..])
  {
    hide Cmac, CbcDecrypt, NextIv, Splice, CipherKeys, CodeCipher, Dec, Length;
    ghost var w := wire[..];
    assert wire[HEADER..DATA] == w[HEADER..DATA];
    var h := DecryptHeader(cipher, wire);
    assert h == SeenHeader(w, key);
    var wireLen := Length(h);
    if len != wireLen {
      return false, false;
    }
    if wireLen < MAC_INNER {
      return false, true;
    }
    assert w[MAC_INNER..len] == wire[MAC_INNER..len] && w[..MAC_INNER] == wire[..MAC_INNER];
    ok := VerifyOuterMac(cmac, wire, wireLen);
    overrun := false;
    if !ok {
      return;
    }
    if !Fits(wireLen, wire.Length) {
      return false, true;
    }
    LengthOfSigned(w, key);
    OpenPayload(cipher, wire, len, h, key);
  }

  // A header that tells a length has its signature.
  lemma LengthOfSigned(w: seq<bv8>, key: Key)
    requires DATA <= |w|
    ensures Length(SeenHeader(w, key)) != 0 ==> SeenHeader(w, key) == DecryptedHeader(w, key)
  {
    hide DecryptedHeader, Length;
    ZeroLength();
  }

  method OpenPayload(cipher: Context, wire: array<bv8>, len: nat, h: Block, ghost key: Key)
    requires cipher.Valid() && Fits(len, wire.Length) && wire !in {cipher.iv, cipher.roundKey}
    requires cipher.roundKey[..] == CipherKeys(key) && h == DecryptedHeader(wire[..], key)
    requires cipher.iv[..] == NextIv(wire[IV..HEADER], wire[HEADER..DATA])
    modifies wire, cipher.iv
    ensures wire[..] == Opened(old(wire[..]), len, key)
  {
    hide CbcDecrypt, NextIv, Splice, CipherKeys, Dec;
    ghost var w := wire[..];
    assert w[IV..HEADER] == wire[IV..HEADER] && w[HEADER..DATA] == wire[HEADER..DATA];
    var alignedLen := len - DATA;
    DecryptedInTwo(Dec(CipherKeys(key)), w, len);
    assert wire[DATA..DATA + RoundUp(alignedLen)] == w[DATA..End(len)];
    cipher.Decrypt(wire, DATA, alignedLen);
    ghost var v := wire[..];
    forall k | 0 <= k < 16 { wire[HEADER + k] := h[k]; }
    SpliceAt(wire[..], v, HEADER, h);
  }

  ghost function KeyList(key1: array<bv8>, key2: array?<bv8>): (keys: seq<Key>)
    requires key1.Length == KEY_LEN && (key2 != null ==> key2.Length == KEY_LEN)
    reads key1, key2
    ensures |keys| >= 1 && keys[0] == key1[..]
    ensures if key2 == null then keys[1..] == [] else keys[1..] == [key2[..]]
  {
    if key2 == null then [key1[..]] else [key1[..], key2[..]]
  }

  lemma NextTry(w: seq<bv8>, len: nat, keys: seq<Key>)
    requires DATA <= |w| && len <= |w|
    ensures |keys| == 0 ==> Decrypted(w, len, keys) == Rejected
    ensures |keys| > 0 && !InnerVerifies(w, keys[0]) ==> Decrypted(w, len, keys) == Decrypted(w, len, keys[1..])
    ensures |keys| > 0 && InnerVerifies(w, keys[0]) ==> Decrypted(w, len, keys) == Judged(w, len, keys[0])
  {}

  // ---- The jump back to the start ----

  // A key that may be missing.
  datatype Slot<K> = NoKey | TheKey(key: K)

  /** The key of the attempt after one under `key`, if there is another. Keys are told apart by where they
      are stored, not by what they are. */
  ghost function Retry<K>(key: K, key1: K, key2: Slot<K>, verifies: K -> bool): Slot<K> {
    if verifies(key) || key != key1 then NoKey else key2
  }

  // Whether there is an attempt number n, counting from one under `key` as number 0.
  ghost predicate Attempted<K>(n: nat, key: K, key1: K, key2: Slot<K>, verifies: K -> bool) {
    n == 0 || (var next := Retry(key, key1, key2, verifies); next.TheKey? && Attempted(n - 1, next.key, key1, key2, verifies))
  }

  ghost predicate Endless<K>(key1: K, key2: Slot<K>, verifies: K -> bool) {
    forall n: nat :: Attempted(n, key1, key1, key2, verifies)
  }

  lemma {:induction false} SameKeyAgain<K>(n: nat, key1: K, verifies: K -> bool)
    requires !verifies(key1)
    ensures Attempted(n, key1, key1, TheKey(key1), verifies)
  {
    if n > 0 {
      SameKeyAgain(n - 1, key1, verifies);
    }
  }

  lemma AtMostTwo<K>(n: nat, key1: K, key2: Slot<K>, verifies: K -> bool)
    requires n >= 2 && (verifies(key1) || key2 != TheKey(key1))
    ensures !Attempted(n, key1, key1, key2, verifies)
  {
    if !verifies(key1) && key2.TheKey? {
      assert Retry(key2.key, key1, key2, verifies) == NoKey;
    }
  }

  /** The attempts go on forever if and only if the inner code fails under the first key and the second is
      the first over again; otherwise there are at most two. */
  lemma RetriesForever<K>(key1: K, key2: Slot<K>, verifies: K -> bool)
    ensures Endless(key1, key2, verifies) <==> !verifies(key1) && key2 == TheKey(key1)
    ensures !Endless(key1, key2, verifies) ==> forall n: nat :: n >= 2 ==> !Attempted(n, key1, key1, key2, verifies)
  {
    if !verifies(key1) && key2 == TheKey(key1) {
      forall n: nat ensures Attempted(n, key1, key1, key2, verifies) {
        SameKeyAgain(n, key1, verifies);
      }
    } else {
      forall n: nat | n >= 2 ensures !Attempted(n, key1, key1, key2, verifies) {
        AtMostTwo(n, key1, key2, verifies);
      }
      AtMostTwo(2, key1, key2, verifies);
    }
  }

  // One bit of the inner code turned over.
  function Spoilt(w: seq<bv8>): seq<bv8>
    requires DATA <= |w|
  {
    w[MAC_INNER := w[MAC_INNER] ^ 1]
  }

  /** Such a wire: any whose inner code would verify, with one bit of that code turned over. */
  lemma SpoiltWireRetriesForever(w: seq<bv8>, key: Key)
    requires DATA <= |w| && InnerVerifies(w, key)
    ensures !InnerVerifies(Spoilt(w), key) && Endless(key, TheKey(key), (k: Key) => InnerVerifies(Spoilt(w), k))
  {
    hide Cmac, CodeCipher, Endless;
    OtherByte(w[MAC_INNER]);
    assert Spoilt(w)[HEADER..DATA] == w[HEADER..DATA];
    assert Spoilt(w)[MAC_INNER..IV][0] != w[MAC_INNER..IV][0];
    RetriesForever(key, TheKey(key), (k: Key) => InnerVerifies(Spoilt(w), k));
  }

  lemma OtherByte(x: bv8)
    ensures x ^ 1 != x
  {}

  /** A wire is opened in place under the first key, or under the second where there is one and the
      inner code does not verify under the first. The loop stands for the jump back to the start. The
      buffer holds the bytes that were received, whatever their number; where the program would go past
      them, this stops instead and says so. The last precondition leaves out the calls that
      `RetriesForever` says do not come back, and no others. */
  method DecryptWire(wire: array<bv8>, len: nat, key1: array<bv8>, key2: array?<bv8>) returns (ok: bool, overrun: bool)
    requires len <= wire.Length && wire != key1 && wire != key2
    requires key1.Length == KEY_LEN && (key2 != null ==> key2.Length == KEY_LEN)
    requires key2 == key1 && DATA <= wire.Length ==> InnerVerifies(wire[..], key1[..])
    modifies wire
    ensures match Decrypted(old(wire[..]), len, KeyList(key1, key2))
            case Accepted(w) => ok && !overrun && wire[..] == w
            case Rejected => !ok && !overrun && wire[..] == old(wire[..])
            case Overrun => !ok && overrun && wire[..] == old(wire[..])
  {
    hide InnerVerifies, Authentic, Opened, CipherKeys, CodeCipher, Cmac, Enc, KeyList, Judged;
    ghost var w, keys := wire[..], KeyList(key1, key2);
    if wire.Length < DATA {
      return false, true;
    }
    hide Decrypted;
    var cipher := new Context();
    var cmac := new Context();
    var key := key1;
    while true
      invariant key == key1 || key == key2
      invariant wire[..] == w && keys == KeyList(key1, key2)
      invariant Decrypted(w, len, keys) == Decrypted(w, len, if key == key1 then keys else keys[1..])
      decreases key == key1
      modifies cipher.iv, cipher.roundKey, cmac.iv, cmac.roundKey
    {
      ghost var rest := if key == key1 then keys else keys[1..];
      NextTry(w, len, rest);
      InitBoth(cipher, cmac, wire, key);
      ok := VerifyInnerMac(cmac, wire);
      InnerIs(wire[..], key[..]);
      if ok {
        break;
      }
      if key != key1 {
        NextTry(w, len, rest[1..]);
        return false, false;
      }
      if key2 == null {
        NextTry(w, len, rest[1..]);
        return false, false;
      }
      key := key2;
    }
    ok, overrun := OpenInPlace(cipher, cmac, wire, len, key[..]);
  }

  lemma InnerIs(w: seq<bv8>, key: Key)
    requires DATA <= |w|
    ensures InnerVerifies(w, key) <==> w[MAC_INNER..IV] == Cmac(CodeCipher(key), w[HEADER..DATA])
  {}
}
