/** The example of FIPS 180-4 for a message of one block, the text "abc". */
module Sha256Example {
  import opened Sha256
  import opened Sha256Laws
  import opened WireUtil

  // ---- The schedule ----

  // The values of the two functions that a word of the schedule is made with.
  predicate Mixes(w2: Word, w15: Word, s1: Word, s0: Word) { Sig1(w2) == s1 && Sig0(w15) == s0 }

  // Eight words of the schedule, from word 8 * k on.
  predicate Eight(block: Chunk, k: nat, w0: Word, w1: Word, w2: Word, w3: Word, w4: Word, w5: Word, w6: Word, w7: Word) {
    Schedule(8 * k, block) == w0 && Schedule(8 * k + 1, block) == w1 && Schedule(8 * k + 2, block) == w2
    && Schedule(8 * k + 3, block) == w3 && Schedule(8 * k + 4, block) == w4 && Schedule(8 * k + 5, block) == w5
    && Schedule(8 * k + 6, block) == w6 && Schedule(8 * k + 7, block) == w7
  }

  lemma NextWord(block: Chunk, t: nat, w2: Word, w7: Word, w15: Word, w16: Word, s1: Word, s0: Word)
    requires 16 <= t && Schedule(t - 2, block) == w2 && Schedule(t - 7, block) == w7
    requires Schedule(t - 15, block) == w15 && Schedule(t - 16, block) == w16 && Mixes(w2, w15, s1, s0)
    ensures Schedule(t, block) == Add(Add(Add(s1, w7), s0), w16)
  {
    hide Sig0, Sig1, Add;
  }

  lemma Mixes2()
    ensures Mixes(0x00000000, 0x00000000, 0x00000000, 0x00000000)
    ensures Mixes(0x00000018, 0x00000000, 0x000f0000, 0x00000000)
    ensures Mixes(0x61626380, 0x00000000, 0x7da86405, 0x00000000)
    ensures Mixes(0x000f0000, 0x00000000, 0x600003c6, 0x00000000)
    ensures Mixes(0x7da86405, 0x00000000, 0x3e9d7b78, 0x00000000)
    ensures Mixes(0x600003c6, 0x00000000, 0x0183fc00, 0x00000000)
    ensures Mixes(0x3e9d7b78, 0x00000000, 0x12dcbfc3, 0x00000000)
    ensures Mixes(0x0183fc00, 0x00000000, 0x8180600e, 0x00000000)
  {}

  lemma Words2(block: Chunk)
    requires Eight(block, 0, 0x61626380, 0x00000000, 0x00000000, 0x00000000, 0x00000000, 0x00000000, 0x00000000, 0x00000000)
    requires Eight(block, 1, 0x00000000, 0x00000000, 0x00000000, 0x00000000, 0x00000000, 0x00000000, 0x00000000, 0x00000018)
    ensures Eight(block, 2, 0x61626380, 0x000f0000, 0x7da86405, 0x600003c6, 0x3e9d7b78, 0x0183fc00, 0x12dcbfdb, 0xe2e2c38e)
  {
    hide Schedule, Mixes;
    Mixes2();
    NextWord(block, 16, 0x00000000, 0x00000000, 0x00000000, 0x61626380, 0x00000000, 0x00000000);
    NextWord(block, 17, 0x00000018, 0x00000000, 0x00000000, 0x00000000, 0x000f0000, 0x00000000);
    NextWord(block, 18, 0x61626380, 0x00000000, 0x00000000, 0x00000000, 0x7da86405, 0x00000000);
    NextWord(block, 19, 0x000f0000, 0x00000000, 0x00000000, 0x00000000, 0x600003c6, 0x00000000);
    NextWord(block, 20, 0x7da86405, 0x00000000, 0x00000000, 0x00000000, 0x3e9d7b78, 0x00000000);
    NextWord(block, 21, 0x600003c6, 0x00000000, 0x00000000, 0x00000000, 0x0183fc00, 0x00000000);
    NextWord(block, 22, 0x3e9d7b78, 0x00000018, 0x00000000, 0x00000000, 0x12dcbfc3, 0x00000000);
    NextWord(block, 23, 0x0183fc00, 0x61626380, 0x00000000, 0x00000000, 0x8180600e, 0x00000000);
  }

  lemma Mixes3()
    ensures Mixes(0x12dcbfdb, 0x00000000, 0xc8125c1a, 0x00000000)
    ensures Mixes(0xe2e2c38e, 0x00000000, 0x398e159d, 0x00000000)
    ensures Mixes(0xc8215c1a, 0x00000000, 0x85bc3543, 0x00000000)
    ensures Mixes(0xb73679a2, 0x00000000, 0xf3c8c0e3, 0x00000000)
    ensures Mixes(0xe5bc3909, 0x00000000, 0x9b9ca167, 0x00000000)
    ensures Mixes(0x32663c5b, 0x00000000, 0xd9aa66f0, 0x00000000)
    ensures Mixes(0x9d209d67, 0x00000018, 0x5d387513, 0x30060003)
    ensures Mixes(0xec8726cb, 0x61626380, 0x7787aa1a, 0x940e90ef)
  {}

  lemma Words3(block: Chunk)
    requires Eight(block, 1, 0x00000000, 0x00000000, 0x00000000, 0x00000000, 0x00000000, 0x00000000, 0x00000000, 0x00000018)
    requires Eight(block, 2, 0x61626380, 0x000f0000, 0x7da86405, 0x600003c6, 0x3e9d7b78, 0x0183fc00, 0x12dcbfdb, 0xe2e2c38e)
    ensures Eight(block, 3, 0xc8215c1a, 0xb73679a2, 0xe5bc3909, 0x32663c5b, 0x9d209d67, 0xec8726cb, 0x702138a4, 0xd3b7973b)
  {
    hide Schedule, Mixes;
    Mixes3();
    NextWord(block, 24, 0x12dcbfdb, 0x000f0000, 0x00000000, 0x00000000, 0xc8125c1a, 0x00000000);
    NextWord(block, 25, 0xe2e2c38e, 0x7da86405, 0x00000000, 0x00000000, 0x398e159d, 0x00000000);
    NextWord(block, 26, 0xc8215c1a, 0x600003c6, 0x00000000, 0x00000000, 0x85bc3543, 0x00000000);
    NextWord(block, 27, 0xb73679a2, 0x3e9d7b78, 0x00000000, 0x00000000, 0xf3c8c0e3, 0x00000000);
    NextWord(block, 28, 0xe5bc3909, 0x0183fc00, 0x00000000, 0x00000000, 0x9b9ca167, 0x00000000);
    NextWord(block, 29, 0x32663c5b, 0x12dcbfdb, 0x00000000, 0x00000000, 0xd9aa66f0, 0x00000000);
    NextWord(block, 30, 0x9d209d67, 0xe2e2c38e, 0x00000018, 0x00000000, 0x5d387513, 0x30060003);
    NextWord(block, 31, 0xec8726cb, 0xc8215c1a, 0x61626380, 0x00000018, 0x7787aa1a, 0x940e90ef);
  }

  lemma Mixes4()
    ensures Mixes(0x702138a4, 0x000f0000, 0xbb5abe5a, 0xc001fe03)
    ensures Mixes(0xd3b7973b, 0x7da86405, 0x394e7e48, 0x1c4f0322)
    ensures Mixes(0x93f5997f, 0x600003c6, 0x7fb4c6e2, 0x8031987f)
    ensures Mixes(0x3b68ba73, 0x3e9d7b78, 0x4a7920f7, 0xa9709a3e)
    ensures Mixes(0xaff4ffc1, 0x0183fc00, 0xe0331f3b, 0xff337818)
    ensures Mixes(0xf10a5c62, 0x12dcbfdb, 0x65816433, 0x9b88ea33)
    ensures Mixes(0x0a8b3996, 0xe2e2c38e, 0xfbfb66da, 0xb17a254e)
    ensures Mixes(0x72af830a, 0xc8215c1a, 0x31f8dce2, 0x7b92db33)
  {}

  lemma Words4(block: Chunk)
    requires Eight(block, 2, 0x61626380, 0x000f0000, 0x7da86405, 0x600003c6, 0x3e9d7b78, 0x0183fc00, 0x12dcbfdb, 0xe2e2c38e)
    requires Eight(block, 3, 0xc8215c1a, 0xb73679a2, 0xe5bc3909, 0x32663c5b, 0x9d209d67, 0xec8726cb, 0x702138a4, 0xd3b7973b)
    ensures Eight(block, 4, 0x93f5997f, 0x3b68ba73, 0xaff4ffc1, 0xf10a5c62, 0x0a8b3996, 0x72af830a, 0x9409e33e, 0x24641522)
  {
    hide Schedule, Mixes;
    Mixes4();
    NextWord(block, 32, 0x702138a4, 0xb73679a2, 0x000f0000, 0x61626380, 0xbb5abe5a, 0xc001fe03);
    NextWord(block, 33, 0xd3b7973b, 0xe5bc3909, 0x7da86405, 0x000f0000, 0x394e7e48, 0x1c4f0322);
    NextWord(block, 34, 0x93f5997f, 0x32663c5b, 0x600003c6, 0x7da86405, 0x7fb4c6e2, 0x8031987f);
    NextWord(block, 35, 0x3b68ba73, 0x9d209d67, 0x3e9d7b78, 0x600003c6, 0x4a7920f7, 0xa9709a3e);
    NextWord(block, 36, 0xaff4ffc1, 0xec8726cb, 0x0183fc00, 0x3e9d7b78, 0xe0331f3b, 0xff337818);
    NextWord(block, 37, 0xf10a5c62, 0x702138a4, 0x12dcbfdb, 0x0183fc00, 0x65816433, 0x9b88ea33);
    NextWord(block, 38, 0x0a8b3996, 0xd3b7973b, 0xe2e2c38e, 0x12dcbfdb, 0xfbfb66da, 0xb17a254e);
    NextWord(block, 39, 0x72af830a, 0x93f5997f, 0xc8215c1a, 0xe2e2c38e, 0x31f8dce2, 0x7b92db33);
  }

  lemma Mixes5()
    ensures Mixes(0x9409e33e, 0xb73679a2, 0xcddd9afd, 0xcde00e0a)
    ensures Mixes(0x24641522, 0xe5bc3909, 0x883c4fbb, 0x013e863c)
    ensures Mixes(0x9f47bf94, 0x32663c5b, 0x281f0da4, 0x3f3ec76a)
    ensures Mixes(0xf0a64f5a, 0x9d209d67, 0xee7a0fd4, 0xfbc7b5de)
    ensures Mixes(0x3e246a79, 0xec8726cb, 0xb87c31cc, 0x43fb11b5)
    ensures Mixes(0x27333ba3, 0x702138a4, 0xfaac3bb1, 0x08cd796d)
    ensures Mixes(0x0c4763f2, 0xd3b7973b, 0x5d845673, 0x881f6924)
    ensures Mixes(0x840abf27, 0x93f5997f, 0x0856302b, 0x8b06bce0)
  {}

  lemma Words5(block: Chunk)
    requires Eight(block, 3, 0xc8215c1a, 0xb73679a2, 0xe5bc3909, 0x32663c5b, 0x9d209d67, 0xec8726cb, 0x702138a4, 0xd3b7973b)
    requires Eight(block, 4, 0x93f5997f, 0x3b68ba73, 0xaff4ffc1, 0xf10a5c62, 0x0a8b3996, 0x72af830a, 0x9409e33e, 0x24641522)
    ensures Eight(block, 5, 0x9f47bf94, 0xf0a64f5a, 0x3e246a79, 0x27333ba3, 0x0c4763f2, 0x840abf27, 0x7a290d5d, 0x065c43da)
  {
    hide Schedule, Mixes;
    Mixes5();
    NextWord(block, 40, 0x9409e33e, 0x3b68ba73, 0xb73679a2, 0xc8215c1a, 0xcddd9afd, 0xcde00e0a);
    NextWord(block, 41, 0x24641522, 0xaff4ffc1, 0xe5bc3909, 0xb73679a2, 0x883c4fbb, 0x013e863c);
    NextWord(block, 42, 0x9f47bf94, 0xf10a5c62, 0x32663c5b, 0xe5bc3909, 0x281f0da4, 0x3f3ec76a);
    NextWord(block, 43, 0xf0a64f5a, 0x0a8b3996, 0x9d209d67, 0x32663c5b, 0xee7a0fd4, 0xfbc7b5de);
    NextWord(block, 44, 0x3e246a79, 0x72af830a, 0xec8726cb, 0x9d209d67, 0xb87c31cc, 0x43fb11b5);
    NextWord(block, 45, 0x27333ba3, 0x9409e33e, 0x702138a4, 0xec8726cb, 0xfaac3bb1, 0x08cd796d);
    NextWord(block, 46, 0x0c4763f2, 0x24641522, 0xd3b7973b, 0x702138a4, 0x5d845673, 0x881f6924);
    NextWord(block, 47, 0x840abf27, 0x9f47bf94, 0x93f5997f, 0xd3b7973b, 0x0856302b, 0x8b06bce0);
  }

  lemma Mixes6()
    ensures Mixes(0x7a290d5d, 0x3b68ba73, 0xa71b9812, 0xcf8708e0)
    ensures Mixes(0x065c43da, 0xaff4ffc1, 0xa997d4f5, 0xa9511dfa)
    ensures Mixes(0xfb3e89cb, 0xf10a5c62, 0x95e24d5a, 0x4cdbe376)
    ensures Mixes(0xcc7617db, 0x0a8b3996, 0xc9258230, 0xe321f3e3)
    ensures Mixes(0xb9e66c34, 0x72af830a, 0xfbb2b254, 0xfa7233cc)
    ensures Mixes(0xa9993667, 0x9409e33e, 0xbdd547b2, 0x17668aa3)
    ensures Mixes(0x84badedd, 0x24641522, 0x34945c7d, 0x458cc397)
    ensures Mixes(0xc21462bc, 0x9f47bf94, 0xbd397c50, 0xd5335f5c)
  {}

  lemma Words6(block: Chunk)
    requires Eight(block, 4, 0x93f5997f, 0x3b68ba73, 0xaff4ffc1, 0xf10a5c62, 0x0a8b3996, 0x72af830a, 0x9409e33e, 0x24641522)
    requires Eight(block, 5, 0x9f47bf94, 0xf0a64f5a, 0x3e246a79, 0x27333ba3, 0x0c4763f2, 0x840abf27, 0x7a290d5d, 0x065c43da)
    ensures Eight(block, 6, 0xfb3e89cb, 0xcc7617db, 0xb9e66c34, 0xa9993667, 0x84badedd, 0xc21462bc, 0x1487472c, 0xb20f7a99)
  {
    hide Schedule, Mixes;
    Mixes6();
    NextWord(block, 48, 0x7a290d5d, 0xf0a64f5a, 0x3b68ba73, 0x93f5997f, 0xa71b9812, 0xcf8708e0);
    NextWord(block, 49, 0x065c43da, 0x3e246a79, 0xaff4ffc1, 0x3b68ba73, 0xa997d4f5, 0xa9511dfa);
    NextWord(block, 50, 0xfb3e89cb, 0x27333ba3, 0xf10a5c62, 0xaff4ffc1, 0x95e24d5a, 0x4cdbe376);
    NextWord(block, 51, 0xcc7617db, 0x0c4763f2, 0x0a8b3996, 0xf10a5c62, 0xc9258230, 0xe321f3e3);
    NextWord(block, 52, 0xb9e66c34, 0x840abf27, 0x72af830a, 0x0a8b3996, 0xfbb2b254, 0xfa7233cc);
    NextWord(block, 53, 0xa9993667, 0x7a290d5d, 0x9409e33e, 0x72af830a, 0xbdd547b2, 0x17668aa3);
    NextWord(block, 54, 0x84badedd, 0x065c43da, 0x24641522, 0x9409e33e, 0x34945c7d, 0x458cc397);
    NextWord(block, 55, 0xc21462bc, 0xfb3e89cb, 0x9f47bf94, 0x24641522, 0xbd397c50, 0xd5335f5c);
  }

  lemma Mixes7()
    ensures Mixes(0x1487472c, 0xf0a64f5a, 0x4b76a902, 0x3823395c)
    ensures Mixes(0xb20f7a99, 0x3e246a79, 0x52336c98, 0xef268a12)
    ensures Mixes(0xef57b9cd, 0x27333ba3, 0x2be49faf, 0x8c40c8cf)
    ensures Mixes(0xebe6b238, 0x0c4763f2, 0x8f619123, 0x3d6ce1a8)
    ensures Mixes(0x9fe3095e, 0x840abf27, 0xe5a364cf, 0xf040a398)
    ensures Mixes(0x78bc8d4b, 0x7a290d5d, 0xd712fc6a, 0xf6e62d3b)
    ensures Mixes(0xa43fcf15, 0x065c43da, 0x1e41696b, 0xa431b16b)
    ensures Mixes(0x668b2ff8, 0xfb3e89cb, 0xf21a9d5f, 0x2ae352e5)
  {}

  lemma Words7(block: Chunk)
    requires Eight(block, 5, 0x9f47bf94, 0xf0a64f5a, 0x3e246a79, 0x27333ba3, 0x0c4763f2, 0x840abf27, 0x7a290d5d, 0x065c43da)
    requires Eight(block, 6, 0xfb3e89cb, 0xcc7617db, 0xb9e66c34, 0xa9993667, 0x84badedd, 0xc21462bc, 0x1487472c, 0xb20f7a99)
    ensures Eight(block, 7, 0xef57b9cd, 0xebe6b238, 0x9fe3095e, 0x78bc8d4b, 0xa43fcf15, 0x668b2ff8, 0xeeaba2cc, 0x12b1edeb)
  {
    hide Schedule, Mixes;
    Mixes7();
    NextWord(block, 56, 0x1487472c, 0xcc7617db, 0xf0a64f5a, 0x9f47bf94, 0x4b76a902, 0x3823395c);
    NextWord(block, 57, 0xb20f7a99, 0xb9e66c34, 0x3e246a79, 0xf0a64f5a, 0x52336c98, 0xef268a12);
    NextWord(block, 58, 0xef57b9cd, 0xa9993667, 0x27333ba3, 0x3e246a79, 0x2be49faf, 0x8c40c8cf);
    NextWord(block, 59, 0xebe6b238, 0x84badedd, 0x0c4763f2, 0x27333ba3, 0x8f619123, 0x3d6ce1a8);
    NextWord(block, 60, 0x9fe3095e, 0xc21462bc, 0x840abf27, 0x0c4763f2, 0xe5a364cf, 0xf040a398);
    NextWord(block, 61, 0x78bc8d4b, 0x1487472c, 0x7a290d5d, 0x840abf27, 0xd712fc6a, 0xf6e62d3b);
    NextWord(block, 62, 0xa43fcf15, 0xb20f7a99, 0x065c43da, 0x7a290d5d, 0x1e41696b, 0xa431b16b);
    NextWord(block, 63, 0x668b2ff8, 0xef57b9cd, 0xfb3e89cb, 0x065c43da, 0xf21a9d5f, 0x2ae352e5);
  }

  // ---- The rounds ----

  predicate Facts(a: Word, b: Word, c: Word, e: Word, f: Word, g: Word, s1: Word, ch: Word, s0: Word, maj: Word) {
    Sum1(e) == s1 && Ch(e, f, g) == ch && Sum0(a) == s0 && Maj(a, b, c) == maj
  }

  predicate State(block: Chunk, t: nat, a: Word, b: Word, c: Word, d: Word, e: Word, f: Word, g: Word, h: Word)
    requires t <= 64
  {
    Rounds(t, INITIAL, block) == [a, b, c, d, e, f, g, h]
  }

  lemma NextState(block: Chunk, t: nat, a: Word, b: Word, c: Word, d: Word, e: Word, f: Word, g: Word, h: Word,
                  k: Word, w: Word, s1: Word, ch: Word, s0: Word, maj: Word, x: Word)
    requires t < 64 && State(block, t, a, b, c, d, e, f, g, h) && Constant(t) == k && Schedule(t, block) == w
    requires Facts(a, b, c, e, f, g, s1, ch, s0, maj) && x == Add(Add(Add(Add(h, s1), ch), k), w)
    ensures State(block, t + 1, Add(x, Add(s0, maj)), a, b, c, Add(d, x), e, f, g)
  {
    hide Sum0, Sum1, Ch, Maj, Add, Schedule, Constant;
  }

  lemma Facts0()
    ensures Facts(0x6a09e667, 0xbb67ae85, 0x3c6ef372, 0x510e527f, 0x9b05688c, 0x1f83d9ab, 0x3587272b, 0x1f85c98c, 0xce20b47e, 0x3a6fe667)
    ensures Facts(0x5d6aebcd, 0x6a09e667, 0xbb67ae85, 0xfa2a4622, 0x510e527f, 0x9b05688c, 0x5a94fd2d, 0x510f6aae, 0xa29f64d1, 0x7b6beec5)
    ensures Facts(0x5a6ad9ad, 0x5d6aebcd, 0x6a09e667, 0x78ce7989, 0xfa2a4622, 0x510e527f, 0x73f0e495, 0x790a4276, 0x3096d054, 0x5a6aebed)
    ensures Facts(0xc8c347a7, 0x5a6ad9ad, 0x5d6aebcd, 0xf92939eb, 0x78ce7989, 0xfa2a4622, 0x0607743c, 0x7a0a7f89, 0xc21008d0, 0x586acbad)
  {}

  lemma Rounds0(block: Chunk)
    requires State(block, 0, 0x6a09e667, 0xbb67ae85, 0x3c6ef372, 0xa54ff53a, 0x510e527f, 0x9b05688c, 0x1f83d9ab, 0x5be0cd19)
    requires Schedule(0, block) == 0x61626380 && Schedule(1, block) == 0x00000000 && Schedule(2, block) == 0x00000000 && Schedule(3, block) == 0x00000000
    requires Constant(0) == 0x428a2f98 && Constant(1) == 0x71374491 && Constant(2) == 0xb5c0fbcf && Constant(3) == 0xe9b5dba5
    ensures State(block, 4, 0xd550f666, 0xc8c347a7, 0x5a6ad9ad, 0x5d6aebcd, 0x24e00850, 0xf92939eb, 0x78ce7989, 0xfa2a4622)
  {
    hide Schedule, Facts, State, Constant;
    Facts0();
    NextState(block, 0, 0x6a09e667, 0xbb67ae85, 0x3c6ef372, 0xa54ff53a, 0x510e527f, 0x9b05688c, 0x1f83d9ab, 0x5be0cd19, 0x428a2f98, 0x61626380, 0x3587272b, 0x1f85c98c, 0xce20b47e, 0x3a6fe667, 0x54da50e8);
    NextState(block, 1, 0x5d6aebcd, 0x6a09e667, 0xbb67ae85, 0x3c6ef372, 0xfa2a4622, 0x510e527f, 0x9b05688c, 0x1f83d9ab, 0x71374491, 0x00000000, 0x5a94fd2d, 0x510f6aae, 0xa29f64d1, 0x7b6beec5, 0x3c5f8617);
    NextState(block, 2, 0x5a6ad9ad, 0x5d6aebcd, 0x6a09e667, 0xbb67ae85, 0x78ce7989, 0xfa2a4622, 0x510e527f, 0x9b05688c, 0xb5c0fbcf, 0x00000000, 0x73f0e495, 0x790a4276, 0x3096d054, 0x5a6aebed, 0x3dc18b66);
    NextState(block, 3, 0xc8c347a7, 0x5a6ad9ad, 0x5d6aebcd, 0x6a09e667, 0xf92939eb, 0x78ce7989, 0xfa2a4622, 0x510e527f, 0xe9b5dba5, 0x00000000, 0x0607743c, 0x7a0a7f89, 0xc21008d0, 0x586acbad, 0xbad621e9);
  }

  lemma Facts1()
    ensures Facts(0xd550f666, 0xc8c347a7, 0x5a6ad9ad, 0x24e00850, 0xf92939eb, 0x78ce7989, 0x3a933432, 0x782e79c9, 0x45bb0c4b, 0xd842d7a7)
    ensures Facts(0x04409a6a, 0xd550f666, 0xc8c347a7, 0x43ada245, 0x24e00850, 0xf92939eb, 0x8b77e19c, 0xb8a019ea, 0x5029ac8f, 0xc440d666)
    ensures Facts(0x2b4209f5, 0x04409a6a, 0xd550f666, 0x714260ad, 0x43ada245, 0x24e00850, 0x015b7776, 0x45a02855, 0x0d5e0cc0, 0x05409a66)
    ensures Facts(0xe5030380, 0x2b4209f5, 0x04409a6a, 0x9b27a401, 0x714260ad, 0x43ada245, 0x158dfaa9, 0x518a2245, 0x2949eb6c, 0x25420be0)
  {}

  lemma Rounds1(block: Chunk)
    requires State(block, 4, 0xd550f666, 0xc8c347a7, 0x5a6ad9ad, 0x5d6aebcd, 0x24e00850, 0xf92939eb, 0x78ce7989, 0xfa2a4622)
    requires Schedule(4, block) == 0x00000000 && Schedule(5, block) == 0x00000000 && Schedule(6, block) == 0x00000000 && Schedule(7, block) == 0x00000000
    requires Constant(4) == 0x3956c25b && Constant(5) == 0x59f111f1 && Constant(6) == 0x923f82a4 && Constant(7) == 0xab1c5ed5
    ensures State(block, 8, 0x85a07b5f, 0xe5030380, 0x2b4209f5, 0x04409a6a, 0x0c657a79, 0x9b27a401, 0x714260ad, 0x43ada245)
  {
    hide Schedule, Facts, State, Constant;
    Facts1();
    NextState(block, 4, 0xd550f666, 0xc8c347a7, 0x5a6ad9ad, 0x5d6aebcd, 0x24e00850, 0xf92939eb, 0x78ce7989, 0xfa2a4622, 0x3956c25b, 0x00000000, 0x3a933432, 0x782e79c9, 0x45bb0c4b, 0xd842d7a7, 0xe642b678);
    NextState(block, 5, 0x04409a6a, 0xd550f666, 0xc8c347a7, 0x5a6ad9ad, 0x43ada245, 0x24e00850, 0xf92939eb, 0x78ce7989, 0x59f111f1, 0x00000000, 0x8b77e19c, 0xb8a019ea, 0x5029ac8f, 0xc440d666, 0x16d78700);
    NextState(block, 6, 0x2b4209f5, 0x04409a6a, 0xd550f666, 0xc8c347a7, 0x714260ad, 0x43ada245, 0x24e00850, 0xf92939eb, 0x923f82a4, 0x00000000, 0x015b7776, 0x45a02855, 0x0d5e0cc0, 0x05409a66, 0xd2645c5a);
    NextState(block, 7, 0xe5030380, 0x2b4209f5, 0x04409a6a, 0xd550f666, 0x9b27a401, 0x714260ad, 0x43ada245, 0x24e00850, 0xab1c5ed5, 0x00000000, 0x158dfaa9, 0x518a2245, 0x2949eb6c, 0x25420be0, 0x37148413);
  }

  lemma Facts2()
    ensures Facts(0x85a07b5f, 0xe5030380, 0x2b4209f5, 0x0c657a79, 0x9b27a401, 0x714260ad, 0x99ad25c0, 0x79272085, 0xba794dc2, 0xa5020bd5)
    ensures Facts(0x8e04ecb9, 0x85a07b5f, 0xe5030380, 0x32ca2d8c, 0x0c657a79, 0x9b27a401, 0xe45bb7ea, 0x8965a809, 0x15ffad31, 0x85006b99)
    ensures Facts(0x8c87346b, 0x8e04ecb9, 0x85a07b5f, 0x1cc92596, 0x32ca2d8c, 0x0c657a79, 0x8e2276bc, 0x10ec7fed, 0x5cac0711, 0x8c847c7b)
    ensures Facts(0x4798a3f4, 0x8c87346b, 0x8e04ecb9, 0x436b23e8, 0x1cc92596, 0x32ca2d8c, 0x699435ca, 0x30c92d84, 0x6ccbc526, 0x8e84a4f9)
  {}

  lemma Rounds2(block: Chunk)
    requires State(block, 8, 0x85a07b5f, 0xe5030380, 0x2b4209f5, 0x04409a6a, 0x0c657a79, 0x9b27a401, 0x714260ad, 0x43ada245)
    requires Schedule(8, block) == 0x00000000 && Schedule(9, block) == 0x00000000 && Schedule(10, block) == 0x00000000 && Schedule(11, block) == 0x00000000
    requires Constant(8) == 0xd807aa98 && Constant(9) == 0x12835b01 && Constant(10) == 0x243185be && Constant(11) == 0x550c7dc3
    ensures State(block, 12, 0xf71fc5a9, 0x4798a3f4, 0x8c87346b, 0x8e04ecb9, 0x816fd6e9, 0x436b23e8, 0x1cc92596, 0x32ca2d8c)
  {
    hide Schedule, Facts, State, Constant;
    Facts2();
    NextState(block, 8, 0x85a07b5f, 0xe5030380, 0x2b4209f5, 0x04409a6a, 0x0c657a79, 0x9b27a401, 0x714260ad, 0x43ada245, 0xd807aa98, 0x00000000, 0x99ad25c0, 0x79272085, 0xba794dc2, 0xa5020bd5, 0x2e899322);
    NextState(block, 9, 0x8e04ecb9, 0x85a07b5f, 0xe5030380, 0x2b4209f5, 0x32ca2d8c, 0x0c657a79, 0x9b27a401, 0x714260ad, 0x12835b01, 0x00000000, 0xe45bb7ea, 0x8965a809, 0x15ffad31, 0x85006b99, 0xf1871ba1);
    NextState(block, 10, 0x8c87346b, 0x8e04ecb9, 0x85a07b5f, 0xe5030380, 0x1cc92596, 0x32ca2d8c, 0x0c657a79, 0x9b27a401, 0x243185be, 0x00000000, 0x8e2276bc, 0x10ec7fed, 0x5cac0711, 0x8c847c7b, 0x5e682068);
    NextState(block, 11, 0x4798a3f4, 0x8c87346b, 0x8e04ecb9, 0x85a07b5f, 0x436b23e8, 0x1cc92596, 0x32ca2d8c, 0x0c657a79, 0x550c7dc3, 0x00000000, 0x699435ca, 0x30c92d84, 0x6ccbc526, 0x8e84a4f9, 0xfbcf5b8a);
  }

  lemma Facts3()
    ensures Facts(0xf71fc5a9, 0x4798a3f4, 0x8c87346b, 0x816fd6e9, 0x436b23e8, 0x1cc92596, 0xccdee661, 0x1deb23fe, 0x2f9eee48, 0xc79fa5e9)
    ensures Facts(0x87912990, 0xf71fc5a9, 0x4798a3f4, 0x1e578218, 0x816fd6e9, 0x436b23e8, 0x08bb98f7, 0x416fa3e8, 0x29c634f3, 0xc799a1b0)
    ensures Facts(0xd932eb16, 0x87912990, 0xf71fc5a9, 0x745a48de, 0x1e578218, 0x816fd6e9, 0x4f3b8d50, 0x95779639, 0x25562836, 0xd713e990)
    ensures Facts(0xc0645fde, 0xd932eb16, 0x87912990, 0x0b92f20c, 0x745a48de, 0x1e578218, 0xb8d63f93, 0x1457401c, 0xdf906fd4, 0xc1306b96)
  {}

  lemma Rounds3(block: Chunk)
    requires State(block, 12, 0xf71fc5a9, 0x4798a3f4, 0x8c87346b, 0x8e04ecb9, 0x816fd6e9, 0x436b23e8, 0x1cc92596, 0x32ca2d8c)
    requires Schedule(12, block) == 0x00000000 && Schedule(13, block) == 0x00000000 && Schedule(14, block) == 0x00000000 && Schedule(15, block) == 0x00000018
    requires Constant(12) == 0x72be5d74 && Constant(13) == 0x80deb1fe && Constant(14) == 0x9bdc06a7 && Constant(15) == 0xc19bf174
    ensures State(block, 16, 0xb0fa238e, 0xc0645fde, 0xd932eb16, 0x87912990, 0x07590dcd, 0x0b92f20c, 0x745a48de, 0x1e578218)
  {
    hide Schedule, Facts, State, Constant;
    Facts3();
    NextState(block, 12, 0xf71fc5a9, 0x4798a3f4, 0x8c87346b, 0x8e04ecb9, 0x816fd6e9, 0x436b23e8, 0x1cc92596, 0x32ca2d8c, 0x72be5d74, 0x00000000, 0xccdee661, 0x1deb23fe, 0x2f9eee48, 0xc79fa5e9, 0x9052955f);
    NextState(block, 13, 0x87912990, 0xf71fc5a9, 0x4798a3f4, 0x8c87346b, 0x1e578218, 0x816fd6e9, 0x436b23e8, 0x1cc92596, 0x80deb1fe, 0x00000000, 0x08bb98f7, 0x416fa3e8, 0x29c634f3, 0xc799a1b0, 0xe7d31473);
    NextState(block, 14, 0xd932eb16, 0x87912990, 0xf71fc5a9, 0x4798a3f4, 0x745a48de, 0x1e578218, 0x816fd6e9, 0x436b23e8, 0x9bdc06a7, 0x00000000, 0x4f3b8d50, 0x95779639, 0x25562836, 0xd713e990, 0xc3fa4e18);
    NextState(block, 15, 0xc0645fde, 0xd932eb16, 0x87912990, 0xf71fc5a9, 0x0b92f20c, 0x745a48de, 0x1e578218, 0x816fd6e9, 0xc19bf174, 0x00000018, 0xb8d63f93, 0x1457401c, 0xdf906fd4, 0xc1306b96, 0x10394824);
  }

  lemma Facts4()
    ensures Facts(0xb0fa238e, 0xc0645fde, 0xd932eb16, 0x07590dcd, 0x0b92f20c, 0x745a48de, 0x213b6995, 0x7312401e, 0x58c535f1, 0xd0726b9e)
    ensures Facts(0x21da9a9b, 0xb0fa238e, 0xc0645fde, 0x8034229c, 0x07590dcd, 0x0b92f20c, 0x3b81984e, 0x0b92d08c, 0x76c5c4f5, 0xa0fa1b9e)
    ensures Facts(0xc2fbd9d1, 0x21da9a9b, 0xb0fa238e, 0x846ee454, 0x8034229c, 0x07590dcd, 0xeff31c0f, 0x8335299d, 0x5157a6a1, 0xa0fa9b9b)
    ensures Facts(0xfe777bbf, 0xc2fbd9d1, 0x21da9a9b, 0xcc899961, 0x846ee454, 0x8034229c, 0xefc707b0, 0x843ca2dc, 0xff8cd2ad, 0xe2fbdb9b)
  {}

  lemma Rounds4(block: Chunk)
    requires State(block, 16, 0xb0fa238e, 0xc0645fde, 0xd932eb16, 0x87912990, 0x07590dcd, 0x0b92f20c, 0x745a48de, 0x1e578218)
    requires Schedule(16, block) == 0x61626380 && Schedule(17, block) == 0x000f0000 && Schedule(18, block) == 0x7da86405 && Schedule(19, block) == 0x600003c6
    requires Constant(16) == 0xe49b69c1 && Constant(17) == 0xefbe4786 && Constant(18) == 0x0fc19dc6 && Constant(19) == 0x240ca1cc
    ensures State(block, 20, 0xe1f20c33, 0xfe777bbf, 0xc2fbd9d1, 0x21da9a9b, 0xb0638179, 0xcc899961, 0x846ee454, 0x8034229c)
  {
    hide Schedule, Facts, State, Constant;
    Facts4();
    NextState(block, 16, 0xb0fa238e, 0xc0645fde, 0xd932eb16, 0x87912990, 0x07590dcd, 0x0b92f20c, 0x745a48de, 0x1e578218, 0xe49b69c1, 0x61626380, 0x213b6995, 0x7312401e, 0x58c535f1, 0xd0726b9e, 0xf8a2f90c);
    NextState(block, 17, 0x21da9a9b, 0xb0fa238e, 0xc0645fde, 0xd932eb16, 0x8034229c, 0x07590dcd, 0x0b92f20c, 0x745a48de, 0xefbe4786, 0x000f0000, 0x3b81984e, 0x0b92d08c, 0x76c5c4f5, 0xa0fa1b9e, 0xab3bf93e);
    NextState(block, 18, 0xc2fbd9d1, 0x21da9a9b, 0xb0fa238e, 0xc0645fde, 0x846ee454, 0x8034229c, 0x07590dcd, 0x0b92f20c, 0x0fc19dc6, 0x7da86405, 0xeff31c0f, 0x8335299d, 0x5157a6a1, 0xa0fa9b9b, 0x0c253983);
    NextState(block, 19, 0xfe777bbf, 0xc2fbd9d1, 0x21da9a9b, 0xb0fa238e, 0xcc899961, 0x846ee454, 0x8034229c, 0x07590dcd, 0x240ca1cc, 0x600003c6, 0xefc707b0, 0x843ca2dc, 0xff8cd2ad, 0xe2fbdb9b, 0xff695deb);
  }

  lemma Facts5()
    ensures Facts(0xe1f20c33, 0xfe777bbf, 0xc2fbd9d1, 0xb0638179, 0xcc899961, 0x846ee454, 0xf8373ead, 0x840de565, 0x51d3431b, 0xe2f359b3)
    ensures Facts(0x9dc68b63, 0xe1f20c33, 0xfe777bbf, 0x8ada8930, 0xb0638179, 0xcc899961, 0x897ea930, 0xc4439171, 0xa640c29b, 0xfdf60b33)
    ensures Facts(0xc2606d6d, 0x9dc68b63, 0xe1f20c33, 0xe1257970, 0x8ada8930, 0xb0638179, 0x7f24093a, 0x90428939, 0x9a43bf51, 0xc1e20d63)
    ensures Facts(0xa7a3623f, 0xc2606d6d, 0x9dc68b63, 0x49f5114a, 0xe1257970, 0x8ada8930, 0xfae64fc3, 0xc32f9970, 0x759d1b0a, 0x87e26b6f)
  {}

  lemma Rounds5(block: Chunk)
    requires State(block, 20, 0xe1f20c33, 0xfe777bbf, 0xc2fbd9d1, 0x21da9a9b, 0xb0638179, 0xcc899961, 0x846ee454, 0x8034229c)
    requires Schedule(20, block) == 0x3e9d7b78 && Schedule(21, block) == 0x0183fc00 && Schedule(22, block) == 0x12dcbfdb && Schedule(23, block) == 0xe2e2c38e
    requires Constant(20) == 0x2de92c6f && Constant(21) == 0x4a7484aa && Constant(22) == 0x5cb0a9dc && Constant(23) == 0x76f988da
    ensures State(block, 24, 0xc5d53d8d, 0xa7a3623f, 0xc2606d6d, 0x9dc68b63, 0xaa47c347, 0x49f5114a, 0xe1257970, 0x8ada8930)
  {
    hide Schedule, Facts, State, Constant;
    Facts5();
    NextState(block, 20, 0xe1f20c33, 0xfe777bbf, 0xc2fbd9d1, 0x21da9a9b, 0xb0638179, 0xcc899961, 0x846ee454, 0x8034229c, 0x2de92c6f, 0x3e9d7b78, 0xf8373ead, 0x840de565, 0x51d3431b, 0xe2f359b3, 0x68ffee95);
    NextState(block, 21, 0x9dc68b63, 0xe1f20c33, 0xfe777bbf, 0xc2fbd9d1, 0x8ada8930, 0xb0638179, 0xcc899961, 0x846ee454, 0x4a7484aa, 0x0183fc00, 0x897ea930, 0xc4439171, 0xa640c29b, 0xfdf60b33, 0x1e299f9f);
    NextState(block, 22, 0xc2606d6d, 0x9dc68b63, 0xe1f20c33, 0xfe777bbf, 0xe1257970, 0x8ada8930, 0xb0638179, 0xcc899961, 0x5cb0a9dc, 0x12dcbfdb, 0x7f24093a, 0x90428939, 0x9a43bf51, 0xc1e20d63, 0x4b7d958b);
    NextState(block, 23, 0xa7a3623f, 0xc2606d6d, 0x9dc68b63, 0xe1f20c33, 0x49f5114a, 0xe1257970, 0x8ada8930, 0xb0638179, 0x76f988da, 0xe2e2c38e, 0xfae64fc3, 0xc32f9970, 0x759d1b0a, 0x87e26b6f, 0xc855b714);
  }

  lemma Facts6()
    ensures Facts(0xc5d53d8d, 0xa7a3623f, 0xc2606d6d, 0xaa47c347, 0x49f5114a, 0xe1257970, 0x55bdf420, 0x49653972, 0xc9ed56dd, 0xc7e16d2d)
    ensures Facts(0x1c2c2838, 0xc5d53d8d, 0xa7a3623f, 0x2823ef91, 0xaa47c347, 0x49f5114a, 0xa7724357, 0x69d7d34b, 0xf66b0b1f, 0x85a5283d)
    ensures Facts(0xcde8037d, 0x1c2c2838, 0xc5d53d8d, 0x14383d8e, 0x2823ef91, 0xaa47c347, 0x958ca0fb, 0xaa67efc1, 0xc89998a8, 0xcdec293d)
    ensures Facts(0xb62ec4bc, 0xcde8037d, 0x1c2c2838, 0xc74c6516, 0x14383d8e, 0x2823ef91, 0x5ff7537b, 0x2c2baf87, 0xb37cf281, 0x9c2c003c)
  {}

  lemma Rounds6(block: Chunk)
    requires State(block, 24, 0xc5d53d8d, 0xa7a3623f, 0xc2606d6d, 0x9dc68b63, 0xaa47c347, 0x49f5114a, 0xe1257970, 0x8ada8930)
    requires Schedule(24, block) == 0xc8215c1a && Schedule(25, block) == 0xb73679a2 && Schedule(26, block) == 0xe5bc3909 && Schedule(27, block) == 0x32663c5b
    requires Constant(24) == 0x983e5152 && Constant(25) == 0xa831c66d && Constant(26) == 0xb00327c8 && Constant(27) == 0xbf597fc7
    ensures State(block, 28, 0x77d37528, 0xb62ec4bc, 0xcde8037d, 0x1c2c2838, 0xedffbff8, 0xc74c6516, 0x14383d8e, 0x2823ef91)
  {
    hide Schedule, Facts, State, Constant;
    Facts6();
    NextState(block, 24, 0xc5d53d8d, 0xa7a3623f, 0xc2606d6d, 0x9dc68b63, 0xaa47c347, 0x49f5114a, 0xe1257970, 0x8ada8930, 0x983e5152, 0xc8215c1a, 0x55bdf420, 0x49653972, 0xc9ed56dd, 0xc7e16d2d, 0x8a5d642e);
    NextState(block, 25, 0x1c2c2838, 0xc5d53d8d, 0xa7a3623f, 0xc2606d6d, 0x2823ef91, 0xaa47c347, 0x49f5114a, 0xe1257970, 0xa831c66d, 0xb73679a2, 0xa7724357, 0x69d7d34b, 0xf66b0b1f, 0x85a5283d, 0x51d7d021);
    NextState(block, 26, 0xcde8037d, 0x1c2c2838, 0xc5d53d8d, 0xa7a3623f, 0x14383d8e, 0x2823ef91, 0xaa47c347, 0x49f5114a, 0xb00327c8, 0xe5bc3909, 0x958ca0fb, 0xaa67efc1, 0xc89998a8, 0xcdec293d, 0x1fa902d7);
    NextState(block, 27, 0xb62ec4bc, 0xcde8037d, 0x1c2c2838, 0xc5d53d8d, 0xc74c6516, 0x14383d8e, 0x2823ef91, 0xaa47c347, 0xbf597fc7, 0x32663c5b, 0x5ff7537b, 0x2c2baf87, 0xb37cf281, 0x9c2c003c, 0x282a826b);
  }

  lemma Facts7()
    ensures Facts(0x77d37528, 0xb62ec4bc, 0xcde8037d, 0xedffbff8, 0xc74c6516, 0x14383d8e, 0xe375bd7e, 0xd54c2516, 0xf963c20e, 0xf7ea453c)
    ensures Facts(0x363482c9, 0x77d37528, 0xb62ec4bc, 0x6112a3b7, 0xedffbff8, 0xc74c6516, 0x2239b36a, 0xe75ee7b0, 0x89cfb5ce, 0x3636c4a8)
    ensures Facts(0xa0060b30, 0x363482c9, 0x77d37528, 0xade79437, 0x6112a3b7, 0xedffbff8, 0xab883974, 0x611aabff, 0x69a8407c, 0x36160328)
    ensures Facts(0xea992a22, 0xa0060b30, 0x363482c9, 0x0109ab3a, 0xade79437, 0x6112a3b7, 0x0b919a99, 0x611380b7, 0x8f1995eb, 0xa2140a20)
  {}

  lemma Rounds7(block: Chunk)
    requires State(block, 28, 0x77d37528, 0xb62ec4bc, 0xcde8037d, 0x1c2c2838, 0xedffbff8, 0xc74c6516, 0x14383d8e, 0x2823ef91)
    requires Schedule(28, block) == 0x9d209d67 && Schedule(29, block) == 0xec8726cb && Schedule(30, block) == 0x702138a4 && Schedule(31, block) == 0xd3b7973b
    requires Constant(28) == 0xc6e00bf3 && Constant(29) == 0xd5a79147 && Constant(30) == 0x06ca6351 && Constant(31) == 0x14292967
    ensures State(block, 32, 0x73b33bf5, 0xea992a22, 0xa0060b30, 0x363482c9, 0xba591112, 0x0109ab3a, 0xade79437, 0x6112a3b7)
  {
    hide Schedule, Facts, State, Constant;
    Facts7();
    NextState(block, 28, 0x77d37528, 0xb62ec4bc, 0xcde8037d, 0x1c2c2838, 0xedffbff8, 0xc74c6516, 0x14383d8e, 0x2823ef91, 0xc6e00bf3, 0x9d209d67, 0xe375bd7e, 0xd54c2516, 0xf963c20e, 0xf7ea453c, 0x44e67b7f);
    NextState(block, 29, 0x363482c9, 0x77d37528, 0xb62ec4bc, 0xcde8037d, 0x6112a3b7, 0xedffbff8, 0xc74c6516, 0x14383d8e, 0xd5a79147, 0xec8726cb, 0x2239b36a, 0xe75ee7b0, 0x89cfb5ce, 0x3636c4a8, 0xdfff90ba);
    NextState(block, 30, 0xa0060b30, 0x363482c9, 0x77d37528, 0xb62ec4bc, 0xade79437, 0x6112a3b7, 0xedffbff8, 0xc74c6516, 0x06ca6351, 0x702138a4, 0xab883974, 0x611aabff, 0x69a8407c, 0x36160328, 0x4adae67e);
    NextState(block, 31, 0xea992a22, 0xa0060b30, 0x363482c9, 0x77d37528, 0x0109ab3a, 0xade79437, 0x6112a3b7, 0xedffbff8, 0x14292967, 0xd3b7973b, 0x0b919a99, 0x611380b7, 0x8f1995eb, 0xa2140a20, 0x42859bea);
  }

  lemma Facts8()
    ensures Facts(0x73b33bf5, 0xea992a22, 0xa0060b30, 0xba591112, 0x0109ab3a, 0xade79437, 0x4436a63b, 0x05af8537, 0x4fa886aa, 0xe2932b30)
    ensures Facts(0x98e12507, 0x73b33bf5, 0xea992a22, 0x9cd9f5f6, 0xba591112, 0x0109ab3a, 0x085a07a7, 0x99591b1a, 0x4a90902b, 0xfab12b27)
    ensures Facts(0xfe604df5, 0x98e12507, 0x73b33bf5, 0x59249dd3, 0x9cd9f5f6, 0xba591112, 0x65415f48, 0xba5995d2, 0x91003786, 0xfae12df5)
    ensures Facts(0xa9a7738c, 0xfe604df5, 0x98e12507, 0x085f3833, 0x59249dd3, 0x9cd9f5f6, 0xe5dc6e83, 0x9c84ddd7, 0x2bc2a37e, 0xb8e16585)
  {}

  lemma Rounds8(block: Chunk)
    requires State(block, 32, 0x73b33bf5, 0xea992a22, 0xa0060b30, 0x363482c9, 0xba591112, 0x0109ab3a, 0xade79437, 0x6112a3b7)
    requires Schedule(32, block) == 0x93f5997f && Schedule(33, block) == 0x3b68ba73 && Schedule(34, block) == 0xaff4ffc1 && Schedule(35, block) == 0xf10a5c62
    requires Constant(32) == 0x27b70a85 && Constant(33) == 0x2e1b2138 && Constant(34) == 0x4d2c6dfc && Constant(35) == 0x53380d13
    ensures State(block, 36, 0x65a0cfe4, 0xa9a7738c, 0xfe604df5, 0x98e12507, 0xf4b002d6, 0x085f3833, 0x59249dd3, 0x9cd9f5f6)
  {
    hide Schedule, Facts, State, Constant;
    Facts8();
    NextState(block, 32, 0x73b33bf5, 0xea992a22, 0xa0060b30, 0x363482c9, 0xba591112, 0x0109ab3a, 0xade79437, 0x6112a3b7, 0x27b70a85, 0x93f5997f, 0x4436a63b, 0x05af8537, 0x4fa886aa, 0xe2932b30, 0x66a5732d);
    NextState(block, 33, 0x98e12507, 0x73b33bf5, 0xea992a22, 0xa0060b30, 0x9cd9f5f6, 0xba591112, 0x0109ab3a, 0xade79437, 0x2e1b2138, 0x3b68ba73, 0x085a07a7, 0x99591b1a, 0x4a90902b, 0xfab12b27, 0xb91e92a3);
    NextState(block, 34, 0xfe604df5, 0x98e12507, 0x73b33bf5, 0xea992a22, 0x59249dd3, 0x9cd9f5f6, 0xba591112, 0x0109ab3a, 0x4d2c6dfc, 0xaff4ffc1, 0x65415f48, 0xba5995d2, 0x91003786, 0xfae12df5, 0x1dc60e11);
    NextState(block, 35, 0xa9a7738c, 0xfe604df5, 0x98e12507, 0x73b33bf5, 0x085f3833, 0x59249dd3, 0x9cd9f5f6, 0xba591112, 0x53380d13, 0xf10a5c62, 0xe5dc6e83, 0x9c84ddd7, 0x2bc2a37e, 0xb8e16585, 0x80fcc6e1);
  }

  lemma Facts9()
    ensures Facts(0x65a0cfe4, 0xa9a7738c, 0xfe604df5, 0xf4b002d6, 0x085f3833, 0x59249dd3, 0x590d3d71, 0x09149d13, 0xe5748f69, 0xeda04fe4)
    ensures Facts(0x41a65cb1, 0x65a0cfe4, 0xa9a7738c, 0x0772a26b, 0xf4b002d6, 0x085f3833, 0x582c115e, 0x0c3d1a52, 0x2c915f18, 0x61a65fa4)
    ensures Facts(0x34df1604, 0x41a65cb1, 0x65a0cfe4, 0xa507a53d, 0x0772a26b, 0xf4b002d6, 0xd2f220b2, 0x55b2a2eb, 0xc14e73aa, 0x65a65ea4)
    ensures Facts(0x6dc57a8a, 0x34df1604, 0x41a65cb1, 0xf0781bc8, 0xa507a53d, 0x0772a26b, 0x66d20b14, 0xa702a12b, 0x5ac8193e, 0x65c75e80)
  {}

  lemma Rounds9(block: Chunk)
    requires State(block, 36, 0x65a0cfe4, 0xa9a7738c, 0xfe604df5, 0x98e12507, 0xf4b002d6, 0x085f3833, 0x59249dd3, 0x9cd9f5f6)
    requires Schedule(36, block) == 0x0a8b3996 && Schedule(37, block) == 0x72af830a && Schedule(38, block) == 0x9409e33e && Schedule(39, block) == 0x24641522
    requires Constant(36) == 0x650a7354 && Constant(37) == 0x766a0abb && Constant(38) == 0x81c2c92e && Constant(39) == 0x92722c85
    ensures State(block, 40, 0x79ea687a, 0x6dc57a8a, 0x34df1604, 0x41a65cb1, 0x1efbc0a0, 0xf0781bc8, 0xa507a53d, 0x0772a26b)
  {
    hide Schedule, Facts, State, Constant;
    Facts9();
    NextState(block, 36, 0x65a0cfe4, 0xa9a7738c, 0xfe604df5, 0x98e12507, 0xf4b002d6, 0x085f3833, 0x59249dd3, 0x9cd9f5f6, 0x650a7354, 0x0a8b3996, 0x590d3d71, 0x09149d13, 0xe5748f69, 0xeda04fe4, 0x6e917d64);
    NextState(block, 37, 0x41a65cb1, 0x65a0cfe4, 0xa9a7738c, 0xfe604df5, 0x0772a26b, 0xf4b002d6, 0x085f3833, 0x59249dd3, 0x766a0abb, 0x72af830a, 0x582c115e, 0x0c3d1a52, 0x2c915f18, 0x61a65fa4, 0xa6a75748);
    NextState(block, 38, 0x34df1604, 0x41a65cb1, 0x65a0cfe4, 0xa9a7738c, 0xa507a53d, 0x0772a26b, 0xf4b002d6, 0x085f3833, 0x81c2c92e, 0x9409e33e, 0xd2f220b2, 0x55b2a2eb, 0xc14e73aa, 0x65a65ea4, 0x46d0a83c);
    NextState(block, 39, 0x6dc57a8a, 0x34df1604, 0x41a65cb1, 0x65a0cfe4, 0xf0781bc8, 0xa507a53d, 0x0772a26b, 0xf4b002d6, 0x92722c85, 0x24641522, 0x66d20b14, 0xa702a12b, 0x5ac8193e, 0x65c75e80, 0xb95af0bc);
  }

  lemma Facts10()
    ensures Facts(0x79ea687a, 0x6dc57a8a, 0x34df1604, 0x1efbc0a0, 0xf0781bc8, 0xa507a53d, 0xe9986075, 0xb17c259d, 0x7408bcaa, 0x7dcf7a0a)
    ensures Facts(0xd6670766, 0x79ea687a, 0x6dc57a8a, 0x26352d63, 0x1efbc0a0, 0xf0781bc8, 0x3a6aa383, 0xd67912a8, 0x12b2e9b8, 0x7de76a6a)
    ensures Facts(0xdf46652f, 0xd6670766, 0x79ea687a, 0x838b2711, 0x26352d63, 0x1efbc0a0, 0x61add539, 0x1e71e5a1, 0xc73bdc05, 0xdf66656e)
    ensures Facts(0x17aa0dfe, 0xdf46652f, 0xd6670766, 0xdecd4715, 0x838b2711, 0x26352d63, 0xd363665b, 0xa2b92f73, 0x422dc671, 0xd766056e)
  {}

  lemma Rounds10(block: Chunk)
    requires State(block, 40, 0x79ea687a, 0x6dc57a8a, 0x34df1604, 0x41a65cb1, 0x1efbc0a0, 0xf0781bc8, 0xa507a53d, 0x0772a26b)
    requires Schedule(40, block) == 0x9f47bf94 && Schedule(41, block) == 0xf0a64f5a && Schedule(42, block) == 0x3e246a79 && Schedule(43, block) == 0x27333ba3
    requires Constant(40) == 0xa2bfe8a1 && Constant(41) == 0xa81a664b && Constant(42) == 0xc24b8b70 && Constant(43) == 0xc76c51a3
    ensures State(block, 44, 0x9d4baf93, 0x17aa0dfe, 0xdf46652f, 0xd6670766, 0xfda24c2e, 0xdecd4715, 0x838b2711, 0x26352d63)
  {
    hide Schedule, Facts, State, Constant;
    Facts10();
    NextState(block, 40, 0x79ea687a, 0x6dc57a8a, 0x34df1604, 0x41a65cb1, 0x1efbc0a0, 0xf0781bc8, 0xa507a53d, 0x0772a26b, 0xa2bfe8a1, 0x9f47bf94, 0xe9986075, 0xb17c259d, 0x7408bcaa, 0x7dcf7a0a, 0xe48ed0b2);
    NextState(block, 41, 0xd6670766, 0x79ea687a, 0x6dc57a8a, 0x34df1604, 0x26352d63, 0x1efbc0a0, 0xf0781bc8, 0xa507a53d, 0xa81a664b, 0xf0a64f5a, 0x3a6aa383, 0xd67912a8, 0x12b2e9b8, 0x7de76a6a, 0x4eac110d);
    NextState(block, 42, 0xdf46652f, 0xd6670766, 0x79ea687a, 0x6dc57a8a, 0x838b2711, 0x26352d63, 0x1efbc0a0, 0xf0781bc8, 0xc24b8b70, 0x3e246a79, 0x61add539, 0x1e71e5a1, 0xc73bdc05, 0xdf66656e, 0x7107cc8b);
    NextState(block, 43, 0x17aa0dfe, 0xdf46652f, 0xd6670766, 0x79ea687a, 0xdecd4715, 0x838b2711, 0x26352d63, 0x1efbc0a0, 0xc76c51a3, 0x27333ba3, 0xd363665b, 0xa2b92f73, 0x422dc671, 0xd766056e, 0x83b7e3b4);
  }

  lemma Facts11()
    ensures Facts(0x9d4baf93, 0x17aa0dfe, 0xdf46652f, 0xfda24c2e, 0xdecd4715, 0x838b2711, 0xef0f2a07, 0xde896715, 0xb5704fcc, 0x9f4a2dbf)
    ensures Facts(0x26628815, 0x9d4baf93, 0x17aa0dfe, 0xa80f11f0, 0xfda24c2e, 0xdecd4715, 0xfb3dc5f1, 0xfec24625, 0x8311c588, 0x176a8d97)
    ensures Facts(0x72ab4b91, 0x26628815, 0x9d4baf93, 0xb7755da1, 0xa80f11f0, 0xfda24c2e, 0x8845eb06, 0xe88711ae, 0xad0f0274, 0x366b8b91)
    ensures Facts(0xa14c14b0, 0x72ab4b91, 0x26628815, 0xd57b94a9, 0xb7755da1, 0xa80f11f0, 0x8fa515ca, 0xbd7515f1, 0xbd84cdc9, 0x226a0891)
  {}

  lemma Rounds11(block: Chunk)
    requires State(block, 44, 0x9d4baf93, 0x17aa0dfe, 0xdf46652f, 0xd6670766, 0xfda24c2e, 0xdecd4715, 0x838b2711, 0x26352d63)
    requires Schedule(44, block) == 0x0c4763f2 && Schedule(45, block) == 0x840abf27 && Schedule(46, block) == 0x7a290d5d && Schedule(47, block) == 0x065c43da
    requires Constant(44) == 0xd192e819 && Constant(45) == 0xd6990624 && Constant(46) == 0xf40e3585 && Constant(47) == 0x106aa070
    ensures State(block, 48, 0x4172328d, 0xa14c14b0, 0x72ab4b91, 0x26628815, 0xfecf0bc6, 0xd57b94a9, 0xb7755da1, 0xa80f11f0)
  {
    hide Schedule, Facts, State, Constant;
    Facts11();
    NextState(block, 44, 0x9d4baf93, 0x17aa0dfe, 0xdf46652f, 0xd6670766, 0xfda24c2e, 0xdecd4715, 0x838b2711, 0x26352d63, 0xd192e819, 0x0c4763f2, 0xef0f2a07, 0xde896715, 0xb5704fcc, 0x9f4a2dbf, 0xd1a80a8a);
    NextState(block, 45, 0x26628815, 0x9d4baf93, 0x17aa0dfe, 0xdf46652f, 0xa80f11f0, 0xfda24c2e, 0xdecd4715, 0x838b2711, 0xd6990624, 0x840abf27, 0xfb3dc5f1, 0xfec24625, 0x8311c588, 0x176a8d97, 0xd82ef872);
    NextState(block, 46, 0x72ab4b91, 0x26628815, 0x9d4baf93, 0x17aa0dfe, 0xb7755da1, 0xa80f11f0, 0xfda24c2e, 0xdecd4715, 0xf40e3585, 0x7a290d5d, 0x8845eb06, 0xe88711ae, 0xad0f0274, 0x366b8b91, 0xbdd186ab);
    NextState(block, 47, 0xa14c14b0, 0x72ab4b91, 0x26628815, 0x9d4baf93, 0xd57b94a9, 0xb7755da1, 0xa80f11f0, 0xfda24c2e, 0x106aa070, 0x065c43da, 0x8fa515ca, 0xbd7515f1, 0xbd84cdc9, 0x226a0891, 0x61835c33);
  }

  lemma Facts12()
    ensures Facts(0x4172328d, 0xa14c14b0, 0x72ab4b91, 0xfecf0bc6, 0xd57b94a9, 0xb7755da1, 0x04a106b1, 0xd57b54a1, 0x0cfcb237, 0x616a1291)
    ensures Facts(0x05757ceb, 0x4172328d, 0xa14c14b0, 0xbd714038, 0xfecf0bc6, 0xd57b94a9, 0x5d427776, 0xfc4b9481, 0xf3f6d884, 0x017434a9)
    ensures Facts(0xf11bfaa8, 0x05757ceb, 0x4172328d, 0x6e5c390c, 0xbd714038, 0xfecf0bc6, 0x3e283d54, 0xbcd302ca, 0x86ebd5b1, 0x41737aa9)
    ensures Facts(0x7a0508a1, 0xf11bfaa8, 0x05757ceb, 0x52f1ccf7, 0x6e5c390c, 0xbd714038, 0x3b47e2a3, 0xef50080c, 0x0fa817e8, 0x711578a9)
  {}

  lemma Rounds12(block: Chunk)
    requires State(block, 48, 0x4172328d, 0xa14c14b0, 0x72ab4b91, 0x26628815, 0xfecf0bc6, 0xd57b94a9, 0xb7755da1, 0xa80f11f0)
    requires Schedule(48, block) == 0xfb3e89cb && Schedule(49, block) == 0xcc7617db && Schedule(50, block) == 0xb9e66c34 && Schedule(51, block) == 0xa9993667
    requires Constant(48) == 0x19a4c116 && Constant(49) == 0x1e376c08 && Constant(50) == 0x2748774c && Constant(51) == 0x34b0bcb5
    ensures State(block, 52, 0x886e7a22, 0x7a0508a1, 0xf11bfaa8, 0x05757ceb, 0x49231c1e, 0x52f1ccf7, 0x6e5c390c, 0xbd714038)
  {
    hide Schedule, Facts, State, Constant;
    Facts12();
    NextState(block, 48, 0x4172328d, 0xa14c14b0, 0x72ab4b91, 0x26628815, 0xfecf0bc6, 0xd57b94a9, 0xb7755da1, 0xa80f11f0, 0x19a4c116, 0xfb3e89cb, 0x04a106b1, 0xd57b54a1, 0x0cfcb237, 0x616a1291, 0x970eb823);
    NextState(block, 49, 0x05757ceb, 0x4172328d, 0xa14c14b0, 0x72ab4b91, 0xbd714038, 0xfecf0bc6, 0xd57b94a9, 0xb7755da1, 0x1e376c08, 0xcc7617db, 0x5d427776, 0xfc4b9481, 0xf3f6d884, 0x017434a9, 0xfbb0ed7b);
    NextState(block, 50, 0xf11bfaa8, 0x05757ceb, 0x4172328d, 0xa14c14b0, 0x6e5c390c, 0xbd714038, 0xfecf0bc6, 0xd57b94a9, 0x2748774c, 0xb9e66c34, 0x3e283d54, 0xbcd302ca, 0x86ebd5b1, 0x41737aa9, 0xb1a5b847);
    NextState(block, 51, 0x7a0508a1, 0xf11bfaa8, 0x05757ceb, 0x4172328d, 0x52f1ccf7, 0x6e5c390c, 0xbd714038, 0xfecf0bc6, 0x34b0bcb5, 0xa9993667, 0x3b47e2a3, 0xef50080c, 0x0fa817e8, 0x711578a9, 0x07b0e991);
  }

  lemma Facts13()
    ensures Facts(0x886e7a22, 0x7a0508a1, 0xf11bfaa8, 0x49231c1e, 0x52f1ccf7, 0x6e5c390c, 0x6b63a737, 0x667d2d16, 0xcae757da, 0xf80f7aa0)
    ensures Facts(0x101fd28f, 0x886e7a22, 0x7a0508a1, 0x529e7d00, 0x49231c1e, 0x52f1ccf7, 0xee7eaa12, 0x40639cf7, 0x2f35481d, 0x180f5aa3)
    ensures Facts(0xf5702fdb, 0x101fd28f, 0x886e7a22, 0x9f4787c3, 0x529e7d00, 0x49231c1e, 0x55cd1720, 0x52261d1c, 0x433ccfa2, 0x907e7a8b)
    ensures Facts(0x3ec45cdb, 0xf5702fdb, 0x101fd28f, 0xe50e1b4f, 0x9f4787c3, 0x529e7d00, 0xd1653e5c, 0x97966743, 0x381b8def, 0x34545edb)
  {}

  lemma Rounds13(block: Chunk)
    requires State(block, 52, 0x886e7a22, 0x7a0508a1, 0xf11bfaa8, 0x05757ceb, 0x49231c1e, 0x52f1ccf7, 0x6e5c390c, 0xbd714038)
    requires Schedule(52, block) == 0x84badedd && Schedule(53, block) == 0xc21462bc && Schedule(54, block) == 0x1487472c && Schedule(55, block) == 0xb20f7a99
    requires Constant(52) == 0x391c0cb3 && Constant(53) == 0x4ed8aa4a && Constant(54) == 0x5b9cca4f && Constant(55) == 0x682e6ff3
    ensures State(block, 56, 0x38cc9913, 0x3ec45cdb, 0xf5702fdb, 0x101fd28f, 0x54cb266b, 0xe50e1b4f, 0x9f4787c3, 0x529e7d00)
  {
    hide Schedule, Facts, State, Constant;
    Facts13();
    NextState(block, 52, 0x886e7a22, 0x7a0508a1, 0xf11bfaa8, 0x05757ceb, 0x49231c1e, 0x52f1ccf7, 0x6e5c390c, 0xbd714038, 0x391c0cb3, 0x84badedd, 0x6b63a737, 0x667d2d16, 0xcae757da, 0xf80f7aa0, 0x4d290015);
    NextState(block, 53, 0x101fd28f, 0x886e7a22, 0x7a0508a1, 0xf11bfaa8, 0x529e7d00, 0x49231c1e, 0x52f1ccf7, 0x6e5c390c, 0x4ed8aa4a, 0xc21462bc, 0xee7eaa12, 0x40639cf7, 0x2f35481d, 0x180f5aa3, 0xae2b8d1b);
    NextState(block, 54, 0xf5702fdb, 0x101fd28f, 0x886e7a22, 0x7a0508a1, 0x9f4787c3, 0x529e7d00, 0x49231c1e, 0x52f1ccf7, 0x5b9cca4f, 0x1487472c, 0x55cd1720, 0x52261d1c, 0x433ccfa2, 0x907e7a8b, 0x6b0912ae);
    NextState(block, 55, 0x3ec45cdb, 0xf5702fdb, 0x101fd28f, 0x886e7a22, 0xe50e1b4f, 0x9f4787c3, 0x529e7d00, 0x49231c1e, 0x682e6ff3, 0xb20f7a99, 0xd1653e5c, 0x97966743, 0x381b8def, 0x34545edb, 0xcc5cac49);
  }

  lemma Facts14()
    ensures Facts(0x38cc9913, 0x3ec45cdb, 0xf5702fdb, 0x54cb266b, 0xe50e1b4f, 0x9f4787c3, 0x05aa8057, 0xcf0e83cb, 0x34ceacc3, 0x3cc41ddb)
    ensures Facts(0xfcd1887b, 0x38cc9913, 0x3ec45cdb, 0x9b5e906c, 0x54cb266b, 0xe50e1b4f, 0x10b627de, 0x744a0b6b, 0xfaca6b61, 0x3cc4985b)
    ensures Facts(0xc062d46f, 0xfcd1887b, 0x38cc9913, 0x7e44008e, 0x9b5e906c, 0x54cb266b, 0x0a369fbd, 0x1acf266d, 0xd837090c, 0xf8c0987b)
    ensures Facts(0xffb70472, 0xc062d46f, 0xfcd1887b, 0x6d83bfc6, 0x7e44008e, 0x9b5e906c, 0x20a45dbe, 0xfe5c00ae, 0x406bf75a, 0xfcf3847b)
  {}

  lemma Rounds14(block: Chunk)
    requires State(block, 56, 0x38cc9913, 0x3ec45cdb, 0xf5702fdb, 0x101fd28f, 0x54cb266b, 0xe50e1b4f, 0x9f4787c3, 0x529e7d00)
    requires Schedule(56, block) == 0xef57b9cd && Schedule(57, block) == 0xebe6b238 && Schedule(58, block) == 0x9fe3095e && Schedule(59, block) == 0x78bc8d4b
    requires Constant(56) == 0x748f82ee && Constant(57) == 0x78a5636f && Constant(58) == 0x84c87814 && Constant(59) == 0x8cc70208
    ensures State(block, 60, 0xb6ae8fff, 0xffb70472, 0xc062d46f, 0xfcd1887b, 0xb21bad3d, 0x6d83bfc6, 0x7e44008e, 0x9b5e906c)
  {
    hide Schedule, Facts, State, Constant;
    Facts14();
    NextState(block, 56, 0x38cc9913, 0x3ec45cdb, 0xf5702fdb, 0x101fd28f, 0x54cb266b, 0xe50e1b4f, 0x9f4787c3, 0x529e7d00, 0x748f82ee, 0xef57b9cd, 0x05aa8057, 0xcf0e83cb, 0x34ceacc3, 0x3cc41ddb, 0x8b3ebddd);
    NextState(block, 57, 0xfcd1887b, 0x38cc9913, 0x3ec45cdb, 0xf5702fdb, 0x9b5e906c, 0x54cb266b, 0xe50e1b4f, 0x9f4787c3, 0x78a5636f, 0xebe6b238, 0x10b627de, 0x744a0b6b, 0xfaca6b61, 0x3cc4985b, 0x88d3d0b3);
    NextState(block, 58, 0xc062d46f, 0xfcd1887b, 0x38cc9913, 0x3ec45cdb, 0x7e44008e, 0x9b5e906c, 0x54cb266b, 0xe50e1b4f, 0x84c87814, 0x9fe3095e, 0x0a369fbd, 0x1acf266d, 0xd837090c, 0xf8c0987b, 0x2ebf62eb);
    NextState(block, 59, 0xffb70472, 0xc062d46f, 0xfcd1887b, 0x38cc9913, 0x6d83bfc6, 0x7e44008e, 0x9b5e906c, 0x54cb266b, 0x8cc70208, 0x78bc8d4b, 0x20a45dbe, 0xfe5c00ae, 0x406bf75a, 0xfcf3847b, 0x794f142a);
  }

  lemma Facts15()
    ensures Facts(0xb6ae8fff, 0xffb70472, 0xc062d46f, 0xb21bad3d, 0x6d83bfc6, 0x7e44008e, 0x5ca8b318, 0x6c47ad86, 0x2869e851, 0xf6a6847f)
    ensures Facts(0xb85e2ce9, 0xb6ae8fff, 0xffb70472, 0x961f4894, 0xb21bad3d, 0x6d83bfc6, 0x4f6ef480, 0xfb9bbf56, 0x71e9ef2a, 0xbebe0cfb)
    ensures Facts(0x04d24d6c, 0xb85e2ce9, 0xb6ae8fff, 0x948d25b6, 0x961f4894, 0xb21bad3d, 0x2a127e78, 0xb61f889d, 0x236105da, 0xb4de0ded)
    ensures Facts(0xd39a2165, 0x04d24d6c, 0xb85e2ce9, 0xfb121210, 0x948d25b6, 0x961f4894, 0x88fa2277, 0x940d4894, 0x174d83c6, 0x90da2d6d)
  {}

  lemma Rounds15(block: Chunk)
    requires State(block, 60, 0xb6ae8fff, 0xffb70472, 0xc062d46f, 0xfcd1887b, 0xb21bad3d, 0x6d83bfc6, 0x7e44008e, 0x9b5e906c)
    requires Schedule(60, block) == 0xa43fcf15 && Schedule(61, block) == 0x668b2ff8 && Schedule(62, block) == 0xeeaba2cc && Schedule(63, block) == 0x12b1edeb
    requires Constant(60) == 0x90befffa && Constant(61) == 0xa4506ceb && Constant(62) == 0xbef9a3f7 && Constant(63) == 0xc67178f2
    ensures State(block, 64, 0x506e3058, 0xd39a2165, 0x04d24d6c, 0xb85e2ce9, 0x5ef50f24, 0xfb121210, 0x948d25b6, 0x961f4894)
  {
    hide Schedule, Facts, State, Constant;
    Facts15();
    NextState(block, 60, 0xb6ae8fff, 0xffb70472, 0xc062d46f, 0xfcd1887b, 0xb21bad3d, 0x6d83bfc6, 0x7e44008e, 0x9b5e906c, 0x90befffa, 0xa43fcf15, 0x5ca8b318, 0x6c47ad86, 0x2869e851, 0xf6a6847f, 0x994dc019);
    NextState(block, 61, 0xb85e2ce9, 0xb6ae8fff, 0xffb70472, 0xc062d46f, 0x961f4894, 0xb21bad3d, 0x6d83bfc6, 0x7e44008e, 0xa4506ceb, 0x668b2ff8, 0x4f6ef480, 0xfb9bbf56, 0x71e9ef2a, 0xbebe0cfb, 0xd42a5147);
    NextState(block, 62, 0x04d24d6c, 0xb85e2ce9, 0xb6ae8fff, 0xffb70472, 0x948d25b6, 0x961f4894, 0xb21bad3d, 0x6d83bfc6, 0xbef9a3f7, 0xeeaba2cc, 0x2a127e78, 0xb61f889d, 0x236105da, 0xb4de0ded, 0xfb5b0d9e);
    NextState(block, 63, 0xd39a2165, 0x04d24d6c, 0xb85e2ce9, 0xb6ae8fff, 0xfb121210, 0x948d25b6, 0x961f4894, 0xb21bad3d, 0xc67178f2, 0x12b1edeb, 0x88fa2277, 0x940d4894, 0x174d83c6, 0x90da2d6d, 0xa8467f25);
  }

  // Sixteen rounds, with the words of their schedule.
  lemma Quarter0(block: Chunk)
    requires Eight(block, 0, 0x61626380, 0x00000000, 0x00000000, 0x00000000, 0x00000000, 0x00000000, 0x00000000, 0x00000000)
    requires Eight(block, 1, 0x00000000, 0x00000000, 0x00000000, 0x00000000, 0x00000000, 0x00000000, 0x00000000, 0x00000018)
    requires State(block, 0, 0x6a09e667, 0xbb67ae85, 0x3c6ef372, 0xa54ff53a, 0x510e527f, 0x9b05688c, 0x1f83d9ab, 0x5be0cd19)
    ensures State(block, 16, 0xb0fa238e, 0xc0645fde, 0xd932eb16, 0x87912990, 0x07590dcd, 0x0b92f20c, 0x745a48de, 0x1e578218)
  {
    hide Schedule, State, Constant, Round;
    Constants0();
    Rounds0(block);
    Rounds1(block);
    Rounds2(block);
    Rounds3(block);
  }

  // Sixteen rounds, with the words of their schedule.
  lemma Quarter1(block: Chunk)
    requires Eight(block, 2, 0x61626380, 0x000f0000, 0x7da86405, 0x600003c6, 0x3e9d7b78, 0x0183fc00, 0x12dcbfdb, 0xe2e2c38e)
    requires Eight(block, 3, 0xc8215c1a, 0xb73679a2, 0xe5bc3909, 0x32663c5b, 0x9d209d67, 0xec8726cb, 0x702138a4, 0xd3b7973b)
    requires State(block, 16, 0xb0fa238e, 0xc0645fde, 0xd932eb16, 0x87912990, 0x07590dcd, 0x0b92f20c, 0x745a48de, 0x1e578218)
    ensures State(block, 32, 0x73b33bf5, 0xea992a22, 0xa0060b30, 0x363482c9, 0xba591112, 0x0109ab3a, 0xade79437, 0x6112a3b7)
  {
    hide Schedule, State, Constant, Round;
    Constants1();
    Rounds4(block);
    Rounds5(block);
    Rounds6(block);
    Rounds7(block);
  }

  // Sixteen rounds, with the words of their schedule.
  lemma Quarter2(block: Chunk)
    requires Eight(block, 4, 0x93f5997f, 0x3b68ba73, 0xaff4ffc1, 0xf10a5c62, 0x0a8b3996, 0x72af830a, 0x9409e33e, 0x24641522)
    requires Eight(block, 5, 0x9f47bf94, 0xf0a64f5a, 0x3e246a79, 0x27333ba3, 0x0c4763f2, 0x840abf27, 0x7a290d5d, 0x065c43da)
    requires State(block, 32, 0x73b33bf5, 0xea992a22, 0xa0060b30, 0x363482c9, 0xba591112, 0x0109ab3a, 0xade79437, 0x6112a3b7)
    ensures State(block, 48, 0x4172328d, 0xa14c14b0, 0x72ab4b91, 0x26628815, 0xfecf0bc6, 0xd57b94a9, 0xb7755da1, 0xa80f11f0)
  {
    hide Schedule, State, Constant, Round;
    Constants2();
    Rounds8(block);
    Rounds9(block);
    Rounds10(block);
    Rounds11(block);
  }

  // Sixteen rounds, with the words of their schedule.
  lemma Quarter3(block: Chunk)
    requires Eight(block, 6, 0xfb3e89cb, 0xcc7617db, 0xb9e66c34, 0xa9993667, 0x84badedd, 0xc21462bc, 0x1487472c, 0xb20f7a99)
    requires Eight(block, 7, 0xef57b9cd, 0xebe6b238, 0x9fe3095e, 0x78bc8d4b, 0xa43fcf15, 0x668b2ff8, 0xeeaba2cc, 0x12b1edeb)
    requires State(block, 48, 0x4172328d, 0xa14c14b0, 0x72ab4b91, 0x26628815, 0xfecf0bc6, 0xd57b94a9, 0xb7755da1, 0xa80f11f0)
    ensures State(block, 64, 0x506e3058, 0xd39a2165, 0x04d24d6c, 0xb85e2ce9, 0x5ef50f24, 0xfb121210, 0x948d25b6, 0x961f4894)
  {
    hide Schedule, State, Constant, Round;
    Constants3();
    Rounds12(block);
    Rounds13(block);
    Rounds14(block);
    Rounds15(block);
  }

  lemma AllRounds(block: Chunk)
    requires Eight(block, 0, 0x61626380, 0x00000000, 0x00000000, 0x00000000, 0x00000000, 0x00000000, 0x00000000, 0x00000000)
    requires Eight(block, 1, 0x00000000, 0x00000000, 0x00000000, 0x00000000, 0x00000000, 0x00000000, 0x00000000, 0x00000018)
    ensures State(block, 64, 0x506e3058, 0xd39a2165, 0x04d24d6c, 0xb85e2ce9, 0x5ef50f24, 0xfb121210, 0x948d25b6, 0x961f4894)
  {
    hide Eight, State;
    Words2(block);
    Words3(block);
    Words4(block);
    Words5(block);
    Words6(block);
    Words7(block);
    Begin(block);
    Quarter0(block);
    Quarter1(block);
    Quarter2(block);
    Quarter3(block);
  }

  lemma Begin(block: Chunk)
    ensures State(block, 0, 0x6a09e667, 0xbb67ae85, 0x3c6ef372, 0xa54ff53a, 0x510e527f, 0x9b05688c, 0x1f83d9ab, 0x5be0cd19)
  {}

  lemma Constants0()
    ensures Constant(0) == 0x428a2f98 && Constant(1) == 0x71374491 && Constant(2) == 0xb5c0fbcf && Constant(3) == 0xe9b5dba5
    ensures Constant(4) == 0x3956c25b && Constant(5) == 0x59f111f1 && Constant(6) == 0x923f82a4 && Constant(7) == 0xab1c5ed5
    ensures Constant(8) == 0xd807aa98 && Constant(9) == 0x12835b01 && Constant(10) == 0x243185be && Constant(11) == 0x550c7dc3
    ensures Constant(12) == 0x72be5d74 && Constant(13) == 0x80deb1fe && Constant(14) == 0x9bdc06a7 && Constant(15) == 0xc19bf174
  {}

  lemma Constants1()
    ensures Constant(16) == 0xe49b69c1 && Constant(17) == 0xefbe4786 && Constant(18) == 0x0fc19dc6 && Constant(19) == 0x240ca1cc
    ensures Constant(20) == 0x2de92c6f && Constant(21) == 0x4a7484aa && Constant(22) == 0x5cb0a9dc && Constant(23) == 0x76f988da
    ensures Constant(24) == 0x983e5152 && Constant(25) == 0xa831c66d && Constant(26) == 0xb00327c8 && Constant(27) == 0xbf597fc7
    ensures Constant(28) == 0xc6e00bf3 && Constant(29) == 0xd5a79147 && Constant(30) == 0x06ca6351 && Constant(31) == 0x14292967
  {}

  lemma Constants2()
    ensures Constant(32) == 0x27b70a85 && Constant(33) == 0x2e1b2138 && Constant(34) == 0x4d2c6dfc && Constant(35) == 0x53380d13
    ensures Constant(36) == 0x650a7354 && Constant(37) == 0x766a0abb && Constant(38) == 0x81c2c92e && Constant(39) == 0x92722c85
    ensures Constant(40) == 0xa2bfe8a1 && Constant(41) == 0xa81a664b && Constant(42) == 0xc24b8b70 && Constant(43) == 0xc76c51a3
    ensures Constant(44) == 0xd192e819 && Constant(45) == 0xd6990624 && Constant(46) == 0xf40e3585 && Constant(47) == 0x106aa070
  {}

  lemma Constants3()
    ensures Constant(48) == 0x19a4c116 && Constant(49) == 0x1e376c08 && Constant(50) == 0x2748774c && Constant(51) == 0x34b0bcb5
    ensures Constant(52) == 0x391c0cb3 && Constant(53) == 0x4ed8aa4a && Constant(54) == 0x5b9cca4f && Constant(55) == 0x682e6ff3
    ensures Constant(56) == 0x748f82ee && Constant(57) == 0x78a5636f && Constant(58) == 0x84c87814 && Constant(59) == 0x8cc70208
    ensures Constant(60) == 0x90befffa && Constant(61) == 0xa4506ceb && Constant(62) == 0xbef9a3f7 && Constant(63) == 0xc67178f2
  {}

  // ---- The message and the digest ----

  lemma PaddedAt(m: seq<bv8>, p: seq<bv8>, n: nat)
    requires m == [0x61, 0x62, 0x63] && p == Padded(m) && n < 64
    ensures |p| == 64 && p[n] == if n < 3 then m[n] else if n == 3 then 0x80 else if n == 63 then 24 else 0
  {
    assert Zeros(3) == 52;
    if n >= 56 {
      LengthByte(63 - n);
    }
  }

  lemma LengthByte(i: nat)
    requires i < 8
    ensures Byte(24, i) == if i == 0 then 24 else 0
  {
    if i > 0 {
      Beyond(i);
    }
    assert Pow256(0) == 1;
  }

  lemma {:induction false} Beyond(i: nat)
    requires i > 0
    ensures Pow256(i) >= 256 && 24 / Pow256(i) == 0
  {
    if i > 1 {
      Beyond(i - 1);
    }
    SmallQuotient(24, Pow256(i));
  }

  lemma SmallQuotient(n: nat, d: nat)
    requires n < d
    ensures n / d == 0
  {}

  lemma FirstWords(block: Chunk)
    requires block == Padded([0x61, 0x62, 0x63])
    ensures Eight(block, 0, 0x61626380, 0x00000000, 0x00000000, 0x00000000, 0x00000000, 0x00000000, 0x00000000, 0x00000000)
    ensures Eight(block, 1, 0x00000000, 0x00000000, 0x00000000, 0x00000000, 0x00000000, 0x00000000, 0x00000000, 0x00000018)
  {
    hide Padded, WordOf;
    var m: seq<bv8> := [0x61, 0x62, 0x63];
    forall n: nat | n < 64 ensures block[n] == if n < 3 then m[n] else if n == 3 then 0x80 else if n == 63 then 24 else 0 {
      PaddedAt(m, block, n);
    }
    WordValues();
  }

  lemma WordValues()
    ensures WordOf(0x61, 0x62, 0x63, 0x80) == 0x61626380 && WordOf(0, 0, 0, 0) == 0 && WordOf(0, 0, 0, 24) == 24
  {}

  /** The digest of "abc" is the one that the standard gives. */
  lemma DigestOfAbc()
    ensures Hash([0x61, 0x62, 0x63])
         == [0xba, 0x78, 0x16, 0xbf, 0x8f, 0x01, 0xcf, 0xea, 0x41, 0x41, 0x40, 0xde, 0x5d, 0xae, 0x22, 0x23,
             0xb0, 0x03, 0x61, 0xa3, 0x96, 0x17, 0x7a, 0x9c, 0xb4, 0x10, 0xff, 0x61, 0xf2, 0x00, 0x15, 0xad]
  {
    hide Padded, Rounds, Eight, State, Digest, HashBlocks;
    var block := Padded([0x61, 0x62, 0x63]);
    PaddedAt([0x61, 0x62, 0x63], block, 0);
    FirstWords(block);
    AllRounds(block);
    OneBlock(block);
    DigestBytes();
  }

  lemma OneBlock(block: Chunk)
    requires State(block, 64, 0x506e3058, 0xd39a2165, 0x04d24d6c, 0xb85e2ce9, 0x5ef50f24, 0xfb121210, 0x948d25b6, 0x961f4894)
    ensures HashBlocks(block) == [0xba7816bf, 0x8f01cfea, 0x414140de, 0x5dae2223, 0xb00361a3, 0x96177a9c, 0xb410ff61, 0xf20015ad]
  {
    hide Rounds, Add;
    assert block[..0] == [] && block[0..] == block;
    Sums();
  }

  lemma Sums()
    ensures Add(0x6a09e667, 0x506e3058) == 0xba7816bf && Add(0xbb67ae85, 0xd39a2165) == 0x8f01cfea && Add(0x3c6ef372, 0x04d24d6c) == 0x414140de && Add(0xa54ff53a, 0xb85e2ce9) == 0x5dae2223
    ensures Add(0x510e527f, 0x5ef50f24) == 0xb00361a3 && Add(0x9b05688c, 0xfb121210) == 0x96177a9c && Add(0x1f83d9ab, 0x948d25b6) == 0xb410ff61 && Add(0x5be0cd19, 0x961f4894) == 0xf20015ad
  {}

  lemma DigestBytes()
    ensures Digest([0xba7816bf, 0x8f01cfea, 0x414140de, 0x5dae2223, 0xb00361a3, 0x96177a9c, 0xb410ff61, 0xf20015ad])
         == [0xba, 0x78, 0x16, 0xbf, 0x8f, 0x01, 0xcf, 0xea, 0x41, 0x41, 0x40, 0xde, 0x5d, 0xae, 0x22, 0x23,
             0xb0, 0x03, 0x61, 0xa3, 0x96, 0x17, 0x7a, 0x9c, 0xb4, 0x10, 0xff, 0x61, 0xf2, 0x00, 0x15, 0xad]
  {
    hide WordByte;
    Bytes0();
    Bytes1();
    Bytes2();
    Bytes3();
    Bytes4();
    Bytes5();
    Bytes6();
    Bytes7();
  }

  lemma Bytes0()
    ensures WordByte(0xba7816bf, 0) == 0xba && WordByte(0xba7816bf, 1) == 0x78 && WordByte(0xba7816bf, 2) == 0x16 && WordByte(0xba7816bf, 3) == 0xbf
  {
    hide WordOf, WordByte;
    WordOfBytes(0xba, 0x78, 0x16, 0xbf);
    BytesOfWord(0xba, 0x78, 0x16, 0xbf);
  }

  lemma Bytes1()
    ensures WordByte(0x8f01cfea, 0) == 0x8f && WordByte(0x8f01cfea, 1) == 0x01 && WordByte(0x8f01cfea, 2) == 0xcf && WordByte(0x8f01cfea, 3) == 0xea
  {
    hide WordOf, WordByte;
    WordOfBytes(0x8f, 0x01, 0xcf, 0xea);
    BytesOfWord(0x8f, 0x01, 0xcf, 0xea);
  }

  lemma Bytes2()
    ensures WordByte(0x414140de, 0) == 0x41 && WordByte(0x414140de, 1) == 0x41 && WordByte(0x414140de, 2) == 0x40 && WordByte(0x414140de, 3) == 0xde
  {
    hide WordOf, WordByte;
    WordOfBytes(0x41, 0x41, 0x40, 0xde);
    BytesOfWord(0x41, 0x41, 0x40, 0xde);
  }

  lemma Bytes3()
    ensures WordByte(0x5dae2223, 0) == 0x5d && WordByte(0x5dae2223, 1) == 0xae && WordByte(0x5dae2223, 2) == 0x22 && WordByte(0x5dae2223, 3) == 0x23
  {
    hide WordOf, WordByte;
    WordOfBytes(0x5d, 0xae, 0x22, 0x23);
    BytesOfWord(0x5d, 0xae, 0x22, 0x23);
  }

  lemma Bytes4()
    ensures WordByte(0xb00361a3, 0) == 0xb0 && WordByte(0xb00361a3, 1) == 0x03 && WordByte(0xb00361a3, 2) == 0x61 && WordByte(0xb00361a3, 3) == 0xa3
  {
    hide WordOf, WordByte;
    WordOfBytes(0xb0, 0x03, 0x61, 0xa3);
    BytesOfWord(0xb0, 0x03, 0x61, 0xa3);
  }

  lemma Bytes5()
    ensures WordByte(0x96177a9c, 0) == 0x96 && WordByte(0x96177a9c, 1) == 0x17 && WordByte(0x96177a9c, 2) == 0x7a && WordByte(0x96177a9c, 3) == 0x9c
  {
    hide WordOf, WordByte;
    WordOfBytes(0x96, 0x17, 0x7a, 0x9c);
    BytesOfWord(0x96, 0x17, 0x7a, 0x9c);
  }

  lemma Bytes6()
    ensures WordByte(0xb410ff61, 0) == 0xb4 && WordByte(0xb410ff61, 1) == 0x10 && WordByte(0xb410ff61, 2) == 0xff && WordByte(0xb410ff61, 3) == 0x61
  {
    hide WordOf, WordByte;
    WordOfBytes(0xb4, 0x10, 0xff, 0x61);
    BytesOfWord(0xb4, 0x10, 0xff, 0x61);
  }

  lemma Bytes7()
    ensures WordByte(0xf20015ad, 0) == 0xf2 && WordByte(0xf20015ad, 1) == 0x00 && WordByte(0xf20015ad, 2) == 0x15 && WordByte(0xf20015ad, 3) == 0xad
  {
    hide WordOf, WordByte;
    WordOfBytes(0xf2, 0x00, 0x15, 0xad);
    BytesOfWord(0xf2, 0x00, 0x15, 0xad);
  }
}
