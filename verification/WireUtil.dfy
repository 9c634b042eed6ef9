/** Words as little-endian bytes. */
module WireUtil {
  import Field

  // Byte i of a word.
  function Byte(n: nat, i: nat): bv8 { (n / Pow256(i) % 256) as bv8 }

  function Pow256(n: nat): (p: nat)
    ensures p > 0
  {
    if n == 0 then 1 else 256 * Pow256(n - 1)
  }

  function Unpack(n: nat, count: nat): (s: seq<bv8>)
    ensures |s| == count
  {
    seq(count, i requires i >= 0 => Byte(n, i))
  }

  function Pack(s: seq<bv8>): nat {
    if |s| == 0 then 0 else s[0] as nat + 256 * Pack(s[1..])
  }

  lemma ByteValue(n: nat)
    ensures Byte(n, 0) as nat == n % 256
  {
    assert Pow256(0) == 1;
    Eight(n % 256);
  }

  lemma Eight(x: nat)
    requires x < 256
    ensures (x as bv8) as nat == x
  {
    var z := EveryByte(x);
    OneByte(z, x);
  }

  // Counting up reaches every byte.
  lemma {:induction false} EveryByte(x: nat) returns (z: bv8)
    requires x < 256
    ensures z as nat == x
  {
    if x == 0 {
      z := 0;
    } else {
      z := EveryByte(x - 1);
      Successor(z);
      z := z + 1;
    }
  }

  lemma Successor(y: bv8)
    requires y as nat < 255
    ensures (y + 1) as nat == y as nat + 1
  {}

  lemma OneByte(z: bv8, x: nat)
    requires z as nat == x
    ensures x as bv8 == z
  {}

  lemma ByteTail(n: nat, i: nat)
    ensures Byte(n, i + 1) == Byte(n / 256, i)
  {
    DivDiv(n, Pow256(i));
  }

  lemma DivDiv(n: nat, p: nat)
    requires p > 0
    ensures n / (256 * p) == n / 256 / p
  {
    var q, r := n / 256 / p, n / 256 % p;
    assert n / 256 == q * p + r;
    assert n == 256 * (n / 256) + n % 256;
    assert n == q * (256 * p) + (256 * r + n % 256);
    Field.QuotientUnique(n, q, 256 * r + n % 256, 256 * p);
  }

  /** The bytes of a word give back the word, up to what fits in them. */
  lemma {:induction false} PackUnpack(n: nat, count: nat)
    ensures Pack(Unpack(n, count)) == n % Pow256(count)
  {
    if count > 0 {
      var s := Unpack(n, count);
      forall i | 0 <= i < count - 1 ensures s[1..][i] == Unpack(n / 256, count - 1)[i] {
        ByteTail(n, i);
      }
      assert s[1..] == Unpack(n / 256, count - 1);
      PackUnpack(n / 256, count - 1);
      ByteValue(n);
      Remainder(n, Pow256(count - 1));
    } else {
      assert n % 1 == 0;
    }
  }

  lemma Remainder(n: nat, p: nat)
    requires p > 0
    ensures n % 256 + 256 * (n / 256 % p) == n % (256 * p)
  {
    DivDiv(n, p);
    var q := n / 256 / p;
    assert n / 256 == q * p + n / 256 % p;
    assert n == (256 * p) * (n / (256 * p)) + n % (256 * p);
    assert q * (256 * p) == 256 * (q * p);
  }

  /** A length of eight bytes survives the trip through its bytes. */
  lemma Pack64Unpack64(n: nat)
    requires n < 0x1_0000_0000_0000_0000
    ensures Pack(Unpack(n, 8)) == n
  {
    PackUnpack(n, 8);
    EightByteRange();
  }

  lemma EightByteRange()
    ensures Pow256(8) == 0x1_0000_0000_0000_0000
  {
    assert Pow256(2) == 0x1_0000;
    assert Pow256(4) == 0x1_0000_0000;
    assert Pow256(6) == 0x1_0000_0000_0000;
  }

  lemma {:induction false} PackBound(s: seq<bv8>)
    ensures Pack(s) < Pow256(|s|)
  {
    if |s| > 0 {
      PackBound(s[1..]);
    }
  }

  /** Bytes survive the trip through their word. */
  lemma {:induction false} UnpackPack(s: seq<bv8>)
    ensures Unpack(Pack(s), |s|) == s
  {
    if |s| > 0 {
      var n := Pack(s);
      var h := s[0] as nat;
      UnpackPack(s[1..]);
      assert n / 256 == Pack(s[1..]) && n % 256 == h;
      ByteValue(n);
      Back(s[0], Byte(n, 0));
      forall i | 0 <= i < |s| ensures Byte(n, i) == s[i] {
        if i > 0 {
          ByteTail(n, i - 1);
          assert Unpack(Pack(s[1..]), |s| - 1)[i - 1] == s[1..][i - 1];
        }
      }
    }
  }

  lemma Back(x: bv8, y: bv8)
    requires x as nat == y as nat
    ensures x == y
  {}

  /** Words of sixty-four bits, into eight bytes of a buffer. */
  method Unpack64(dst: array<bv8>, off: nat, src: nat)
    requires off + 8 <= dst.Length && src < 0x1_0000_0000_0000_0000
    modifies dst
    ensures dst[off..off + 8] == Unpack(src, 8)
    ensures forall k :: 0 <= k < dst.Length && !(off <= k < off + 8) ==> dst[k] == old(dst[k])
  {
    hide *;
    dst[off] := Byte(src, 0);
    dst[off + 1] := Byte(src, 1);
    dst[off + 2] := Byte(src, 2);
    dst[off + 3] := Byte(src, 3);
    dst[off + 4] := Byte(src, 4);
    dst[off + 5] := Byte(src, 5);
    dst[off + 6] := Byte(src, 6);
    dst[off + 7] := Byte(src, 7);
    EightBytes(dst[off..off + 8], src);
  }

  lemma EightBytes(s: seq<bv8>, n: nat)
    requires |s| == 8
    requires s[0] == Byte(n, 0) && s[1] == Byte(n, 1) && s[2] == Byte(n, 2) && s[3] == Byte(n, 3)
    requires s[4] == Byte(n, 4) && s[5] == Byte(n, 5) && s[6] == Byte(n, 6) && s[7] == Byte(n, 7)
    ensures s == Unpack(n, 8)
  {
    hide Byte;
  }

  // A length of 336, lowest byte first.
  lemma LengthExample()
    ensures Unpack(0x150, 8) == [0x50, 0x01, 0, 0, 0, 0, 0, 0]
  {
    hide Unpack;
    UnpackPack([0x50, 0x01, 0, 0, 0, 0, 0, 0]);
    assert Pack([0x50, 0x01, 0, 0, 0, 0, 0, 0]) == 0x150;
  }
}
