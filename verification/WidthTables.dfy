/** The tables of wide and of ambiguous codepoints, in pieces short enough to check. */
module WidthTables {
  datatype Range = R(start: nat, end: nat)

  // Ranges in order and without overlap.
  ghost predicate Ordered(table: seq<Range>) {
    (forall i :: 0 <= i < |table| ==> table[i].start <= table[i].end)
    && forall i, j :: 0 <= i < j < |table| ==> table[i].end < table[j].start
  }

  ghost predicate Runs(table: seq<Range>, first: nat, last: nat) {
    |table| > 0 && Ordered(table) && table[0].start == first && table[|table| - 1].end == last
  }

  lemma RunsAppend(s: seq<Range>, t: seq<Range>, a: nat, b: nat, c: nat, d: nat)
    requires Runs(s, a, b) && Runs(t, c, d) && b < c
    ensures Runs(s + t, a, d)
  {
    var u := s + t;
    forall i, j | 0 <= i < j < |u| ensures u[i].end < u[j].start {
      if i < |s| <= j {
        assert s[i].end <= b;
        assert c <= t[j - |s|].start;
      }
    }
  }

  const WIDE_0: seq<Range> := [
    R(0x01100, 0x0115f), R(0x0231a, 0x0231b), R(0x02329, 0x0232a), R(0x023e9, 0x023ec), R(0x023f0, 0x023f0),
    R(0x023f3, 0x023f3), R(0x025fd, 0x025fe), R(0x02614, 0x02615), R(0x02648, 0x02653), R(0x0267f, 0x0267f),
    R(0x02693, 0x02693), R(0x026a1, 0x026a1), R(0x026aa, 0x026ab), R(0x026bd, 0x026be), R(0x026c4, 0x026c5)]

  lemma WideRuns0()
    ensures Runs(WIDE_0, 0x01100, 0x026c5)
  {}

  const WIDE_1: seq<Range> := [
    R(0x026ce, 0x026ce), R(0x026d4, 0x026d4), R(0x026ea, 0x026ea), R(0x026f2, 0x026f3), R(0x026f5, 0x026f5),
    R(0x026fa, 0x026fa), R(0x026fd, 0x026fd), R(0x02705, 0x02705), R(0x0270a, 0x0270b), R(0x02728, 0x02728),
    R(0x0274c, 0x0274c), R(0x0274e, 0x0274e), R(0x02753, 0x02755), R(0x02757, 0x02757), R(0x02795, 0x02797)]

  lemma WideRuns1()
    ensures Runs(WIDE_1, 0x026ce, 0x02797)
  {}

  const WIDE_2: seq<Range> := [
    R(0x027b0, 0x027b0), R(0x027bf, 0x027bf), R(0x02b1b, 0x02b1c), R(0x02b50, 0x02b50), R(0x02b55, 0x02b55),
    R(0x02e80, 0x02e99), R(0x02e9b, 0x02ef3), R(0x02f00, 0x02fd5), R(0x02ff0, 0x02ffb), R(0x03000, 0x0303e),
    R(0x03041, 0x03096), R(0x03099, 0x030ff), R(0x03105, 0x0312f), R(0x03131, 0x0318e), R(0x03190, 0x031e3)]

  lemma WideRuns2()
    ensures Runs(WIDE_2, 0x027b0, 0x031e3)
  {}

  const WIDE_3: seq<Range> := [
    R(0x031f0, 0x0321e), R(0x03220, 0x03247), R(0x03250, 0x04dbf), R(0x04e00, 0x0a48c), R(0x0a490, 0x0a4c6),
    R(0x0a960, 0x0a97c), R(0x0ac00, 0x0d7a3), R(0x0f900, 0x0faff), R(0x0fe10, 0x0fe19), R(0x0fe30, 0x0fe52),
    R(0x0fe54, 0x0fe66), R(0x0fe68, 0x0fe6b), R(0x0ff01, 0x0ff60), R(0x0ffe0, 0x0ffe6), R(0x16fe0, 0x16fe4)]

  lemma WideRuns3()
    ensures Runs(WIDE_3, 0x031f0, 0x16fe4)
  {}

  const WIDE_4: seq<Range> := [
    R(0x16ff0, 0x16ff1), R(0x17000, 0x187f7), R(0x18800, 0x18cd5), R(0x18d00, 0x18d08), R(0x1aff0, 0x1aff3),
    R(0x1aff5, 0x1affb), R(0x1affd, 0x1affe), R(0x1b000, 0x1b122), R(0x1b132, 0x1b132), R(0x1b150, 0x1b152),
    R(0x1b155, 0x1b155), R(0x1b164, 0x1b167), R(0x1b170, 0x1b2fb), R(0x1f004, 0x1f004), R(0x1f0cf, 0x1f0cf)]

  lemma WideRuns4()
    ensures Runs(WIDE_4, 0x16ff0, 0x1f0cf)
  {}

  const WIDE_5: seq<Range> := [
    R(0x1f18e, 0x1f18e), R(0x1f191, 0x1f19a), R(0x1f200, 0x1f202), R(0x1f210, 0x1f23b), R(0x1f240, 0x1f248),
    R(0x1f250, 0x1f251), R(0x1f260, 0x1f265), R(0x1f300, 0x1f320), R(0x1f32d, 0x1f335), R(0x1f337, 0x1f37c),
    R(0x1f37e, 0x1f393), R(0x1f3a0, 0x1f3ca), R(0x1f3cf, 0x1f3d3), R(0x1f3e0, 0x1f3f0), R(0x1f3f4, 0x1f3f4)]

  lemma WideRuns5()
    ensures Runs(WIDE_5, 0x1f18e, 0x1f3f4)
  {}

  const WIDE_6: seq<Range> := [
    R(0x1f3f8, 0x1f43e), R(0x1f440, 0x1f440), R(0x1f442, 0x1f4fc), R(0x1f4ff, 0x1f53d), R(0x1f54b, 0x1f54e),
    R(0x1f550, 0x1f567), R(0x1f57a, 0x1f57a), R(0x1f595, 0x1f596), R(0x1f5a4, 0x1f5a4), R(0x1f5fb, 0x1f64f),
    R(0x1f680, 0x1f6c5), R(0x1f6cc, 0x1f6cc), R(0x1f6d0, 0x1f6d2), R(0x1f6d5, 0x1f6d7), R(0x1f6dc, 0x1f6df)]

  lemma WideRuns6()
    ensures Runs(WIDE_6, 0x1f3f8, 0x1f6df)
  {}

  const WIDE_7: seq<Range> := [
    R(0x1f6eb, 0x1f6ec), R(0x1f6f4, 0x1f6fc), R(0x1f7e0, 0x1f7eb), R(0x1f7f0, 0x1f7f0), R(0x1f90c, 0x1f93a),
    R(0x1f93c, 0x1f945), R(0x1f947, 0x1f9ff), R(0x1fa70, 0x1fa7c), R(0x1fa80, 0x1fa88), R(0x1fa90, 0x1fabd),
    R(0x1fabf, 0x1fac5), R(0x1face, 0x1fadb), R(0x1fae0, 0x1fae8), R(0x1faf0, 0x1faf8), R(0x20000, 0x2fffd)]

  lemma WideRuns7()
    ensures Runs(WIDE_7, 0x1f6eb, 0x2fffd)
  {}

  const WIDE_8: seq<Range> := [
    R(0x30000, 0x3fffd)]

  lemma WideRuns8()
    ensures Runs(WIDE_8, 0x30000, 0x3fffd)
  {}

  const WIDE: seq<Range> := WIDE_0 + WIDE_1 + WIDE_2 + WIDE_3 + WIDE_4 + WIDE_5 + WIDE_6 + WIDE_7 + WIDE_8

  lemma WideOrdered()
    ensures Ordered(WIDE) && |WIDE| > 0
  {
    WideRuns0();
    WideRuns1();
    WideRuns2();
    WideRuns3();
    WideRuns4();
    WideRuns5();
    WideRuns6();
    WideRuns7();
    WideRuns8();
    RunsAppend(WIDE_0, WIDE_1, 0x01100, 0x026c5, 0x026ce, 0x02797);
    RunsAppend(WIDE_0 + WIDE_1, WIDE_2, 0x01100, 0x02797, 0x027b0, 0x031e3);
    RunsAppend(WIDE_0 + WIDE_1 + WIDE_2, WIDE_3, 0x01100, 0x031e3, 0x031f0, 0x16fe4);
    RunsAppend(WIDE_0 + WIDE_1 + WIDE_2 + WIDE_3, WIDE_4, 0x01100, 0x16fe4, 0x16ff0, 0x1f0cf);
    RunsAppend(WIDE_0 + WIDE_1 + WIDE_2 + WIDE_3 + WIDE_4, WIDE_5, 0x01100, 0x1f0cf, 0x1f18e, 0x1f3f4);
    RunsAppend(WIDE_0 + WIDE_1 + WIDE_2 + WIDE_3 + WIDE_4 + WIDE_5, WIDE_6, 0x01100, 0x1f3f4, 0x1f3f8, 0x1f6df);
    RunsAppend(WIDE_0 + WIDE_1 + WIDE_2 + WIDE_3 + WIDE_4 + WIDE_5 + WIDE_6, WIDE_7, 0x01100, 0x1f6df, 0x1f6eb, 0x2fffd);
    RunsAppend(WIDE_0 + WIDE_1 + WIDE_2 + WIDE_3 + WIDE_4 + WIDE_5 + WIDE_6 + WIDE_7, WIDE_8, 0x01100, 0x2fffd, 0x30000, 0x3fffd);
  }

  const AMBIGUOUS_0: seq<Range> := [
    R(0x000a1, 0x000a1), R(0x000a4, 0x000a4), R(0x000a7, 0x000a8), R(0x000aa, 0x000aa), R(0x000ad, 0x000ae),
    R(0x000b0, 0x000b4), R(0x000b6, 0x000ba), R(0x000bc, 0x000bf), R(0x000c6, 0x000c6), R(0x000d0, 0x000d0),
    R(0x000d7, 0x000d8), R(0x000de, 0x000e1), R(0x000e6, 0x000e6), R(0x000e8, 0x000ea), R(0x000ec, 0x000ed)]

  lemma AmbiguousRuns0()
    ensures Runs(AMBIGUOUS_0, 0x000a1, 0x000ed)
  {}

  const AMBIGUOUS_1: seq<Range> := [
    R(0x000f0, 0x000f0), R(0x000f2, 0x000f3), R(0x000f7, 0x000fa), R(0x000fc, 0x000fc), R(0x000fe, 0x000fe),
    R(0x00101, 0x00101), R(0x00111, 0x00111), R(0x00113, 0x00113), R(0x0011b, 0x0011b), R(0x00126, 0x00127),
    R(0x0012b, 0x0012b), R(0x00131, 0x00133), R(0x00138, 0x00138), R(0x0013f, 0x00142), R(0x00144, 0x00144)]

  lemma AmbiguousRuns1()
    ensures Runs(AMBIGUOUS_1, 0x000f0, 0x00144)
  {}

  const AMBIGUOUS_2: seq<Range> := [
    R(0x00148, 0x0014b), R(0x0014d, 0x0014d), R(0x00152, 0x00153), R(0x00166, 0x00167), R(0x0016b, 0x0016b),
    R(0x001ce, 0x001ce), R(0x001d0, 0x001d0), R(0x001d2, 0x001d2), R(0x001d4, 0x001d4), R(0x001d6, 0x001d6),
    R(0x001d8, 0x001d8), R(0x001da, 0x001da), R(0x001dc, 0x001dc), R(0x00251, 0x00251), R(0x00261, 0x00261)]

  lemma AmbiguousRuns2()
    ensures Runs(AMBIGUOUS_2, 0x00148, 0x00261)
  {}

  const AMBIGUOUS_3: seq<Range> := [
    R(0x002c4, 0x002c4), R(0x002c7, 0x002c7), R(0x002c9, 0x002cb), R(0x002cd, 0x002cd), R(0x002d0, 0x002d0),
    R(0x002d8, 0x002db), R(0x002dd, 0x002dd), R(0x002df, 0x002df), R(0x00300, 0x0036f), R(0x00391, 0x003a1),
    R(0x003a3, 0x003a9), R(0x003b1, 0x003c1), R(0x003c3, 0x003c9), R(0x00401, 0x00401), R(0x00410, 0x0044f)]

  lemma AmbiguousRuns3()
    ensures Runs(AMBIGUOUS_3, 0x002c4, 0x0044f)
  {}

  const AMBIGUOUS_4: seq<Range> := [
    R(0x00451, 0x00451), R(0x02010, 0x02010), R(0x02013, 0x02016), R(0x02018, 0x02019), R(0x0201c, 0x0201d),
    R(0x02020, 0x02022), R(0x02024, 0x02027), R(0x02030, 0x02030), R(0x02032, 0x02033), R(0x02035, 0x02035),
    R(0x0203b, 0x0203b), R(0x0203e, 0x0203e), R(0x02074, 0x02074), R(0x0207f, 0x0207f), R(0x02081, 0x02084)]

  lemma AmbiguousRuns4()
    ensures Runs(AMBIGUOUS_4, 0x00451, 0x02084)
  {}

  const AMBIGUOUS_5: seq<Range> := [
    R(0x020ac, 0x020ac), R(0x02103, 0x02103), R(0x02105, 0x02105), R(0x02109, 0x02109), R(0x02113, 0x02113),
    R(0x02116, 0x02116), R(0x02121, 0x02122), R(0x02126, 0x02126), R(0x0212b, 0x0212b), R(0x02153, 0x02154),
    R(0x0215b, 0x0215e), R(0x02160, 0x0216b), R(0x02170, 0x02179), R(0x02189, 0x02189), R(0x02190, 0x02199)]

  lemma AmbiguousRuns5()
    ensures Runs(AMBIGUOUS_5, 0x020ac, 0x02199)
  {}

  const AMBIGUOUS_6: seq<Range> := [
    R(0x021b8, 0x021b9), R(0x021d2, 0x021d2), R(0x021d4, 0x021d4), R(0x021e7, 0x021e7), R(0x02200, 0x02200),
    R(0x02202, 0x02203), R(0x02207, 0x02208), R(0x0220b, 0x0220b), R(0x0220f, 0x0220f), R(0x02211, 0x02211),
    R(0x02215, 0x02215), R(0x0221a, 0x0221a), R(0x0221d, 0x02220), R(0x02223, 0x02223), R(0x02225, 0x02225)]

  lemma AmbiguousRuns6()
    ensures Runs(AMBIGUOUS_6, 0x021b8, 0x02225)
  {}

  const AMBIGUOUS_7: seq<Range> := [
    R(0x02227, 0x0222c), R(0x0222e, 0x0222e), R(0x02234, 0x02237), R(0x0223c, 0x0223d), R(0x02248, 0x02248),
    R(0x0224c, 0x0224c), R(0x02252, 0x02252), R(0x02260, 0x02261), R(0x02264, 0x02267), R(0x0226a, 0x0226b),
    R(0x0226e, 0x0226f), R(0x02282, 0x02283), R(0x02286, 0x02287), R(0x02295, 0x02295), R(0x02299, 0x02299)]

  lemma AmbiguousRuns7()
    ensures Runs(AMBIGUOUS_7, 0x02227, 0x02299)
  {}

  const AMBIGUOUS_8: seq<Range> := [
    R(0x022a5, 0x022a5), R(0x022bf, 0x022bf), R(0x02312, 0x02312), R(0x02460, 0x024e9), R(0x024eb, 0x0254b),
    R(0x02550, 0x02573), R(0x02580, 0x0258f), R(0x02592, 0x02595), R(0x025a0, 0x025a1), R(0x025a3, 0x025a9),
    R(0x025b2, 0x025b3), R(0x025b6, 0x025b7), R(0x025bc, 0x025bd), R(0x025c0, 0x025c1), R(0x025c6, 0x025c8)]

  lemma AmbiguousRuns8()
    ensures Runs(AMBIGUOUS_8, 0x022a5, 0x025c8)
  {}

  const AMBIGUOUS_9: seq<Range> := [
    R(0x025cb, 0x025cb), R(0x025ce, 0x025d1), R(0x025e2, 0x025e5), R(0x025ef, 0x025ef), R(0x02605, 0x02606),
    R(0x02609, 0x02609), R(0x0260e, 0x0260f), R(0x0261c, 0x0261c), R(0x0261e, 0x0261e), R(0x02640, 0x02640),
    R(0x02642, 0x02642), R(0x02660, 0x02661), R(0x02663, 0x02665), R(0x02667, 0x0266a), R(0x0266c, 0x0266d)]

  lemma AmbiguousRuns9()
    ensures Runs(AMBIGUOUS_9, 0x025cb, 0x0266d)
  {}

  const AMBIGUOUS_10: seq<Range> := [
    R(0x0266f, 0x0266f), R(0x0269e, 0x0269f), R(0x026bf, 0x026bf), R(0x026c6, 0x026cd), R(0x026cf, 0x026d3),
    R(0x026d5, 0x026e1), R(0x026e3, 0x026e3), R(0x026e8, 0x026e9), R(0x026eb, 0x026f1), R(0x026f4, 0x026f4),
    R(0x026f6, 0x026f9), R(0x026fb, 0x026fc), R(0x026fe, 0x026ff), R(0x0273d, 0x0273d), R(0x02776, 0x0277f)]

  lemma AmbiguousRuns10()
    ensures Runs(AMBIGUOUS_10, 0x0266f, 0x0277f)
  {}

  const AMBIGUOUS_11: seq<Range> := [
    R(0x02b56, 0x02b59), R(0x03248, 0x0324f), R(0x0e000, 0x0f8ff), R(0x0fe00, 0x0fe0f), R(0x0fffd, 0x0fffd),
    R(0x1f100, 0x1f10a), R(0x1f110, 0x1f12d), R(0x1f130, 0x1f169), R(0x1f170, 0x1f18d), R(0x1f18f, 0x1f190),
    R(0x1f19b, 0x1f1ac), R(0xe0100, 0xe01ef), R(0xf0000, 0xffffd), R(0x100000, 0x10fffd)]

  lemma AmbiguousRuns11()
    ensures Runs(AMBIGUOUS_11, 0x02b56, 0x10fffd)
  {}

  const AMBIGUOUS: seq<Range> := AMBIGUOUS_0 + AMBIGUOUS_1 + AMBIGUOUS_2 + AMBIGUOUS_3 + AMBIGUOUS_4 + AMBIGUOUS_5 + AMBIGUOUS_6 + AMBIGUOUS_7 + AMBIGUOUS_8 + AMBIGUOUS_9 + AMBIGUOUS_10 + AMBIGUOUS_11

  lemma AmbiguousOrdered()
    ensures Ordered(AMBIGUOUS) && |AMBIGUOUS| > 0
  {
    AmbiguousRuns0();
    AmbiguousRuns1();
    AmbiguousRuns2();
    AmbiguousRuns3();
    AmbiguousRuns4();
    AmbiguousRuns5();
    AmbiguousRuns6();
    AmbiguousRuns7();
    AmbiguousRuns8();
    AmbiguousRuns9();
    AmbiguousRuns10();
    AmbiguousRuns11();
    RunsAppend(AMBIGUOUS_0, AMBIGUOUS_1, 0x000a1, 0x000ed, 0x000f0, 0x00144);
    RunsAppend(AMBIGUOUS_0 + AMBIGUOUS_1, AMBIGUOUS_2, 0x000a1, 0x00144, 0x00148, 0x00261);
    RunsAppend(AMBIGUOUS_0 + AMBIGUOUS_1 + AMBIGUOUS_2, AMBIGUOUS_3, 0x000a1, 0x00261, 0x002c4, 0x0044f);
    RunsAppend(AMBIGUOUS_0 + AMBIGUOUS_1 + AMBIGUOUS_2 + AMBIGUOUS_3, AMBIGUOUS_4, 0x000a1, 0x0044f, 0x00451, 0x02084);
    RunsAppend(AMBIGUOUS_0 + AMBIGUOUS_1 + AMBIGUOUS_2 + AMBIGUOUS_3 + AMBIGUOUS_4, AMBIGUOUS_5, 0x000a1, 0x02084, 0x020ac, 0x02199);
    RunsAppend(AMBIGUOUS_0 + AMBIGUOUS_1 + AMBIGUOUS_2 + AMBIGUOUS_3 + AMBIGUOUS_4 + AMBIGUOUS_5, AMBIGUOUS_6, 0x000a1, 0x02199, 0x021b8, 0x02225);
    RunsAppend(AMBIGUOUS_0 + AMBIGUOUS_1 + AMBIGUOUS_2 + AMBIGUOUS_3 + AMBIGUOUS_4 + AMBIGUOUS_5 + AMBIGUOUS_6, AMBIGUOUS_7, 0x000a1, 0x02225, 0x02227, 0x02299);
    RunsAppend(AMBIGUOUS_0 + AMBIGUOUS_1 + AMBIGUOUS_2 + AMBIGUOUS_3 + AMBIGUOUS_4 + AMBIGUOUS_5 + AMBIGUOUS_6 + AMBIGUOUS_7, AMBIGUOUS_8, 0x000a1, 0x02299, 0x022a5, 0x025c8);
    RunsAppend(AMBIGUOUS_0 + AMBIGUOUS_1 + AMBIGUOUS_2 + AMBIGUOUS_3 + AMBIGUOUS_4 + AMBIGUOUS_5 + AMBIGUOUS_6 + AMBIGUOUS_7 + AMBIGUOUS_8, AMBIGUOUS_9, 0x000a1, 0x025c8, 0x025cb, 0x0266d);
    RunsAppend(AMBIGUOUS_0 + AMBIGUOUS_1 + AMBIGUOUS_2 + AMBIGUOUS_3 + AMBIGUOUS_4 + AMBIGUOUS_5 + AMBIGUOUS_6 + AMBIGUOUS_7 + AMBIGUOUS_8 + AMBIGUOUS_9, AMBIGUOUS_10, 0x000a1, 0x0266d, 0x0266f, 0x0277f);
    RunsAppend(AMBIGUOUS_0 + AMBIGUOUS_1 + AMBIGUOUS_2 + AMBIGUOUS_3 + AMBIGUOUS_4 + AMBIGUOUS_5 + AMBIGUOUS_6 + AMBIGUOUS_7 + AMBIGUOUS_8 + AMBIGUOUS_9 + AMBIGUOUS_10, AMBIGUOUS_11, 0x000a1, 0x0277f, 0x02b56, 0x10fffd);
  }
}
