/** Codepoints as they are stored in a line: their bytes, and the cells that they are drawn in. */
module Utf8 {
  import opened WidthTables
  import WireUtil

  // ---- Widths ----

  ghost predicate Listed(c: nat, table: seq<Range>) {
    exists i :: 0 <= i < |table| && table[i].start <= c <= table[i].end
  }

  /** Binary search finds a codepoint exactly if some range of the table holds it. */
  method SearchTable(c: nat, table: seq<Range>) returns (found: bool)
    requires |table| > 0 && Ordered(table)
    ensures found <==> Listed(c, table)
  {
    if c < table[0].start || c > table[|table| - 1].end {
      NotListed(c, table, if c < table[0].start then 0 else |table|);
      return false;
    }
    var high, low := |table| - 1, 0;
    while high >= low
      invariant low <= high + 1 && 0 <= high < |table|
      invariant low > 0 ==> table[low - 1].end < c
      invariant high < |table| - 1 ==> c < table[high + 1].start
      invariant table[0].start <= c
    {
      var avg := (low + high) / 2;
      if c > table[avg].end {
        low := avg + 1;
      } else if c < table[avg].start {
        assert avg > 0;
        high := avg - 1;
      } else {
        return true;
      }
    }
    NotListed(c, table, low);
    return false;
  }

  // A codepoint between two neighbouring ranges, or outside the table, is not listed.
  lemma NotListed(c: nat, table: seq<Range>, k: nat)
    requires Ordered(table) && k <= |table|
    requires k > 0 ==> table[k - 1].end < c
    requires k < |table| ==> c < table[k].start
    ensures !Listed(c, table)
  {
    forall i | 0 <= i < |table| ensures !(table[i].start <= c <= table[i].end) {
      if i < k {
        assert table[i].end <= table[k - 1].end;
      } else {
        assert table[k].start <= table[i].start;
      }
    }
  }

  // The cells of a codepoint.
  ghost function RenderedWidth(c: nat): (w: nat)
    ensures 1 <= w <= 2
  {
    if 0x20 <= c <= 0x7e then 1
    else if Listed(c, WIDE) || Listed(c, AMBIGUOUS) then 2
    else 1
  }

  method CpRenderedWidth(c: nat) returns (w: nat)
    ensures w == RenderedWidth(c)
  {
    if 0x20 <= c <= 0x7e {
      return 1;
    }
    WideOrdered();
    AmbiguousOrdered();
    hide Ordered, Listed;
    var wide := SearchTable(c, WIDE);
    if wide {
      return 2;
    }
    var ambiguous := SearchTable(c, AMBIGUOUS);
    if ambiguous {
      return 2;
    }
    return 1;
  }

  // ---- Bytes ----

  predicate Continues(b: bv8) { b & 0x80 != 0 && b & 0xc0 == 0x80 }

  // The number of bytes that the first byte of a codepoint announces.
  function Announced(b: bv8): (n: nat)
    ensures 1 <= n <= 4
  {
    if b & 0xf8 == 0xf0 then 4
    else if b & 0xf0 == 0xe0 then 3
    else if b & 0xe0 == 0xc0 then 2
    else 1
  }

  // The bytes of one codepoint.
  ghost predicate WellFormed(c: seq<bv8>) {
    |c| > 0 && !Continues(c[0]) && |c| == Announced(c[0]) && forall i :: 1 <= i < |c| ==> Continues(c[i])
  }

  // The payload bits of two, three or four bytes.
  function Joined2(a: bv8, b: bv8): nat { (((a & 0x1f) as bv32 << 6) | ((b & 0x3f) as bv32)) as nat }

  function Joined3(a: bv8, b: bv8, c: bv8): nat {
    (((a & 0x0f) as bv32 << 12) | ((b & 0x3f) as bv32 << 6) | ((c & 0x3f) as bv32)) as nat
  }

  function Joined4(a: bv8, b: bv8, c: bv8, d: bv8): nat {
    (((a & 0x07) as bv32 << 18) | ((b & 0x3f) as bv32 << 12) | ((c & 0x3f) as bv32 << 6) | ((d & 0x3f) as bv32)) as nat
  }

  function Utf32(c: seq<bv8>): nat {
    match |c|
    case 1 => c[0] as nat
    case 2 => Joined2(c[0], c[1])
    case 3 => Joined3(c[0], c[1], c[2])
    case 4 => Joined4(c[0], c[1], c[2], c[3])
    case _ => 0
  }

  // The bytes of a codepoint, section 3 of RFC 3629.
  function Encode(c: nat): seq<bv8>
    requires c < 0x110000
  {
    var q := c / 0x40;
    var r := q / 0x40;
    if c < 0x80 then [c as bv8]
    else if q < 0x20 then [0xc0 | q as bv8, Six(c)]
    else if r < 0x10 then [0xe0 | r as bv8, Six(q), Six(c)]
    else [0xf0 | (r / 0x40) as bv8, Six(r), Six(q), Six(c)]
  }

  // The last six bits, in a byte that continues a codepoint.
  function Six(c: nat): bv8 { 0x80 | (c % 0x40) as bv8 }

  // A small number as a byte.
  lemma Small(x: nat)
    requires x < 0x80
    ensures (x as bv8) as nat == x
    ensures (x as bv8) & 0x80 == 0
    ensures x < 0x40 ==> x as bv8 < 0x40
    ensures x < 0x20 ==> x as bv8 < 0x20
    ensures x < 0x10 ==> x as bv8 < 0x10
    ensures x < 0x8 ==> x as bv8 < 0x8
  {
    WireUtil.Eight(x);
    SmallByte(x as bv8);
  }

  lemma SmallByte(b: bv8)
    requires b as nat < 0x80
    ensures b & 0x80 == 0
    ensures b as nat < 0x40 ==> b < 0x40
    ensures b as nat < 0x20 ==> b < 0x20
    ensures b as nat < 0x10 ==> b < 0x10
    ensures b as nat < 0x8 ==> b < 0x8
  {}

  lemma Joined2Is(a: bv8, b: bv8)
    requires a < 0x20 && b < 0x40
    ensures Joined2(0xc0 | a, 0x80 | b) == 0x40 * a as nat + b as nat
  {}

  lemma Joined3Is(a: bv8, b: bv8, c: bv8)
    requires a < 0x10 && b < 0x40 && c < 0x40
    ensures Joined3(0xe0 | a, 0x80 | b, 0x80 | c) == 0x1000 * a as nat + 0x40 * b as nat + c as nat
  {}

  lemma Joined4Is(a: bv8, b: bv8, c: bv8, d: bv8)
    requires a < 0x8 && b < 0x40 && c < 0x40 && d < 0x40
    ensures Joined4(0xf0 | a, 0x80 | b, 0x80 | c, 0x80 | d)
            == 0x40000 * a as nat + 0x1000 * b as nat + 0x40 * c as nat + d as nat
  {}

  lemma Leads(a: bv8)
    ensures a & 0x80 == 0 ==> !Continues(a) && Announced(a) == 1
    ensures a < 0x20 ==> !Continues(0xc0 | a) && Announced(0xc0 | a) == 2
    ensures a < 0x10 ==> !Continues(0xe0 | a) && Announced(0xe0 | a) == 3
    ensures a < 0x8 ==> !Continues(0xf0 | a) && Announced(0xf0 | a) == 4
    ensures a < 0x40 ==> Continues(0x80 | a)
  {}

  lemma One(a: bv8)
    requires a & 0x80 == 0
    ensures WellFormed([a]) && Utf32([a]) == a as nat
  {
    hide Continues, Announced;
    Leads(a);
  }

  lemma Two(a: bv8, b: bv8)
    requires a < 0x20 && b < 0x40
    ensures var c := [0xc0 | a, 0x80 | b]; WellFormed(c) && Utf32(c) == 0x40 * a as nat + b as nat
  {
    hide Continues, Announced, Joined2;
    Leads(a);
    Leads(b);
    Joined2Is(a, b);
  }

  lemma Three(a: bv8, b: bv8, c: bv8)
    requires a < 0x10 && b < 0x40 && c < 0x40
    ensures var d := [0xe0 | a, 0x80 | b, 0x80 | c];
            WellFormed(d) && Utf32(d) == 0x1000 * a as nat + 0x40 * b as nat + c as nat
  {
    hide Continues, Announced, Joined3;
    Leads(a);
    Leads(b);
    Leads(c);
    Joined3Is(a, b, c);
  }

  lemma Four(a: bv8, b: bv8, c: bv8, d: bv8)
    requires a < 0x8 && b < 0x40 && c < 0x40 && d < 0x40
    ensures var e := [0xf0 | a, 0x80 | b, 0x80 | c, 0x80 | d];
            WellFormed(e) && Utf32(e) == 0x40000 * a as nat + 0x1000 * b as nat + 0x40 * c as nat + d as nat
  {
    hide Continues, Announced, Joined4;
    Leads(a);
    Leads(b);
    Leads(c);
    Leads(d);
    Joined4Is(a, b, c, d);
  }

  lemma SixBits(c: nat) returns (b: bv8)
    ensures b < 0x40 && b as nat == c % 0x40 && Six(c) == 0x80 | b
  {
    Small(c % 0x40);
    b := (c % 0x40) as bv8;
  }

  // The same with the last bytes taken from numbers.
  lemma TwoOf(x: nat, y: nat)
    requires x < 0x20
    ensures var c := [0xc0 | x as bv8, Six(y)]; WellFormed(c) && Utf32(c) == 0x40 * x + y % 0x40
  {
    hide WellFormed, Utf32, Six;
    Small(x);
    var b := SixBits(y);
    Two(x as bv8, b);
  }

  lemma ThreeOf(x: nat, y: nat, z: nat)
    requires x < 0x10
    ensures var c := [0xe0 | x as bv8, Six(y), Six(z)];
            WellFormed(c) && Utf32(c) == 0x1000 * x + 0x40 * (y % 0x40) + z % 0x40
  {
    hide WellFormed, Utf32, Six;
    Small(x);
    var b := SixBits(y);
    var c := SixBits(z);
    Three(x as bv8, b, c);
  }

  lemma FourOf(x: nat, y: nat, z: nat, w: nat)
    requires x < 0x8
    ensures var c := [0xf0 | x as bv8, Six(y), Six(z), Six(w)];
            WellFormed(c) && Utf32(c) == 0x40000 * x + 0x1000 * (y % 0x40) + 0x40 * (z % 0x40) + w % 0x40
  {
    hide WellFormed, Utf32, Six;
    Small(x);
    var b := SixBits(y);
    var c := SixBits(z);
    var d := SixBits(w);
    Four(x as bv8, b, c, d);
  }

  /** The bytes of a codepoint are well-formed, and they are read back as that codepoint. */
  lemma Utf32Decodes(c: nat)
    requires c < 0x110000
    ensures WellFormed(Encode(c)) && Utf32(Encode(c)) == c
  {
    hide WellFormed, Utf32, Six;
    var q := c / 0x40;
    var r := q / 0x40;
    if c < 0x80 {
      Small(c);
      One(c as bv8);
    } else if q < 0x20 {
      TwoOf(q, c);
    } else if r < 0x10 {
      ThreeOf(r, q, c);
    } else {
      FourOf(r / 0x40, r, q, c);
    }
  }

  ghost function Width(c: seq<bv8>): (w: nat)
    ensures 1 <= w <= 2
  {
    RenderedWidth(Utf32(c))
  }

  method CodepointWidth(str: array<bv8>, at: nat, len: nat) returns (w: nat)
    requires at + len <= str.Length
    ensures w == Width(str[at..at + len])
  {
    hide Utf32, RenderedWidth;
    w := CpRenderedWidth(Utf32(str[at..at + len]));
  }

  /** The codepoint that begins here, told by its first byte. */
  method NextCodepoint(str: array<bv8>, at: nat, ghost c: seq<bv8>) returns (size: nat, cells: nat)
    requires WellFormed(c) && at + |c| <= str.Length && str[at..at + |c|] == c
    ensures size == |c| && cells == Width(c)
  {
    hide Continues, Width;
    assert str[at] == c[0];
    size := Announced(str[at]);
    cells := CodepointWidth(str, at, size);
  }

  /** The codepoint that ends here, found by going back over the bytes that continue one. */
  method PrevCodepoint(str: array<bv8>, at: nat, ghost c: seq<bv8>) returns (size: nat, cells: nat)
    requires WellFormed(c) && |c| <= at <= str.Length && str[at - |c|..at] == c
    ensures size == |c| && cells == Width(c)
  {
    hide Continues, Width;
    var s := at - 1;
    size := 1;
    assert str[s] == c[|c| - 1];
    while Continues(str[s])
      invariant 1 <= size <= |c| && s == at - size
      decreases at - size
    {
      assert str[s] == c[|c| - size];
      size := size + 1;
      s := s - 1;
    }
    assert str[s] == c[|c| - size];
    assert size == |c|;
    cells := CodepointWidth(str, s, size);
  }

  // ---- Lines ----

  ghost predicate AllFormed(text: seq<seq<bv8>>) {
    forall i :: 0 <= i < |text| ==> WellFormed(text[i])
  }

  // The bytes of a line of codepoints.
  function Flat(text: seq<seq<bv8>>): seq<bv8> {
    if |text| == 0 then [] else text[0] + Flat(text[1..])
  }

  // The cells of a line of codepoints.
  ghost function Cells(text: seq<seq<bv8>>): nat {
    if |text| == 0 then 0 else Width(text[0]) + Cells(text[1..])
  }

  lemma {:induction false} FlatAppend(s: seq<seq<bv8>>, t: seq<seq<bv8>>)
    ensures Flat(s + t) == Flat(s) + Flat(t) && Cells(s + t) == Cells(s) + Cells(t)
  {
    hide Width;
    if |s| == 0 {
      assert s + t == t;
    } else {
      assert (s + t)[1..] == s[1..] + t;
      FlatAppend(s[1..], t);
      assert Flat(s + t) == s[0] + (Flat(s[1..]) + Flat(t));
    }
  }

  lemma FlatOne(c: seq<bv8>)
    ensures Flat([c]) == c && Cells([c]) == Width(c)
  {
    hide Width;
    assert [c][1..] == [];
    assert Flat([c]) == c + Flat([]);
  }

  /** Only the empty line takes no bytes, and only it takes no cells. */
  lemma NoBytes(text: seq<seq<bv8>>)
    requires AllFormed(text)
    ensures |Flat(text)| == 0 <==> |text| == 0
    ensures Cells(text) == 0 <==> |text| == 0
  {
    hide Width;
  }

  // A line cut before codepoint k.
  lemma CutAt(text: seq<seq<bv8>>, k: nat)
    requires k <= |text|
    ensures Flat(text) == Flat(text[..k]) + Flat(text[k..]) && Cells(text) == Cells(text[..k]) + Cells(text[k..])
  {
    hide *;
    assert text == text[..k] + text[k..];
    FlatAppend(text[..k], text[k..]);
  }

  lemma FlatSnoc(s: seq<seq<bv8>>, c: seq<bv8>)
    ensures Flat(s + [c]) == Flat(s) + c && Cells(s + [c]) == Cells(s) + Width(c)
  {
    hide *;
    FlatAppend(s, [c]);
    FlatOne(c);
  }

  // A line cut around codepoint k.
  lemma CutAround(text: seq<seq<bv8>>, k: nat)
    requires k < |text|
    ensures Flat(text) == Flat(text[..k]) + text[k] + Flat(text[k + 1..])
    ensures Cells(text) == Cells(text[..k]) + Width(text[k]) + Cells(text[k + 1..])
    ensures Flat(text[..k + 1]) == Flat(text[..k]) + text[k] && Cells(text[..k + 1]) == Cells(text[..k]) + Width(text[k])
  {
    hide *;
    CutAt(text, k + 1);
    var s, c := text[..k], text[k];
    assert text[..k + 1] == s + [c];
    FlatSnoc(s, c);
  }
}
