/** The message that renews the control key and starts a group exchange, from the daemon's call to the
    bytes in the socket and back to what the client reads out of them. */
module ControlMessage {
  import opened WireUtil
  import Wire
  import Cable

  const TYPE_CTRL: bv8 := 3
  const CTRL_DHKE: bv8 := 1
  const COUNT := 9
  const KEY := 11
  const SIZE := 43

  // Type, length, count and key, one after the other.
  function Message(count: nat, renewed: Wire.Key): (m: seq<bv8>)
    ensures |m| == SIZE
  {
    [CTRL_DHKE] + Unpack(SIZE, 8) + Unpack(count, 2) + renewed
  }

  function Type(m: seq<bv8>): bv8
    requires |m| == SIZE
  {
    m[0]
  }

  function Count(m: seq<bv8>): nat
    requires |m| == SIZE
  {
    Pack(m[COUNT..KEY])
  }

  function RenewedKey(m: seq<bv8>): Wire.Key
    requires |m| == SIZE
  {
    m[KEY..SIZE]
  }

  /** The message carries the key, and it carries the number of rounds exactly if it fits two bytes. */
  lemma MessageFields(count: nat, renewed: Wire.Key)
    ensures var m := Message(count, renewed);
            Type(m) == CTRL_DHKE && Pack(m[1..COUNT]) == SIZE && RenewedKey(m) == renewed && Count(m) == count % 0x1_0000
            && (Count(m) == count <==> count < 0x1_0000)
  {
    hide Unpack, Pack;
    var m := Message(count, renewed);
    PackUnpack(count, 2);
    assert Pow256(2) == 0x1_0000;
    Pack64Unpack64(SIZE);
    hide Pow256;
    assert m[1..COUNT] == Unpack(SIZE, 8);
    assert m[COUNT..KEY] == Unpack(count, 2) && m[KEY..SIZE] == renewed;
  }

  method InitCtrl(count: nat, renewed: array<bv8>) returns (ctrl: array<bv8>)
    requires renewed.Length == Wire.KEY_LEN
    ensures fresh(ctrl) && ctrl[..] == Message(count, renewed[..])
  {
    hide Unpack, Byte;
    ghost var key := renewed[..];
    ctrl := new bv8[SIZE](_ => 0);
    Unpack64(ctrl, 1, SIZE);
    ctrl[0] := CTRL_DHKE;
    assert ctrl[1..9] == Unpack(SIZE, 8);
    ctrl[9] := Byte(count, 0);
    ctrl[10] := Byte(count, 1);
    TwoBytes(ctrl[9..11], count);
    forall k | 0 <= k < 32 { ctrl[KEY + k] := renewed[k]; }
    assert ctrl[..] == ctrl[..1] + ctrl[1..9] + ctrl[9..11] + ctrl[11..43];
    assert ctrl[..1] == [CTRL_DHKE] && ctrl[1..9] == Unpack(SIZE, 8) && ctrl[9..11] == Unpack(count, 2) && ctrl[11..43] == key;
  }

  lemma TwoBytes(s: seq<bv8>, n: nat)
    requires |s| == 2 && s[0] == Byte(n, 0) && s[1] == Byte(n, 1)
    ensures s == Unpack(n, 2)
  {
    hide Byte;
  }

  /** `init_ctrl_key_cable`: the message in a wire, sealed under the control key so far, in a cable. */
  method InitCtrlKeyCable(count: nat, renewed: array<bv8>, ctrlKey: array<bv8>, random: seq<bv8>) returns (cable: array<bv8>)
    requires renewed.Length == Wire.KEY_LEN && ctrlKey.Length == Wire.KEY_LEN && |random| == 16
    ensures var w := Wire.Fresh(random, TYPE_CTRL, Message(count, renewed[..]));
            fresh(cable) && cable[..] == Cable.Framed(Wire.Sealed(w, |w|, ctrlKey[..]))
  {
    hide Message, Wire.Sealed, Wire.Fresh, Cable.Framed, Wire.Length;
    ghost var m := Message(count, renewed[..]);
    var ctrl := InitCtrl(count, renewed);
    assert ctrl[..SIZE] == m;
    var wire, total := Wire.InitWire(TYPE_CTRL, ctrl, SIZE, random);
    ghost var w := Wire.Fresh(random, TYPE_CTRL, m);
    Wire.FreshCarries(random, TYPE_CTRL, m);
    var len := Wire.Length(wire[Wire.HEADER..Wire.DATA]);
    assert wire[..] == w && wire[Wire.HEADER..Wire.DATA] == w[Wire.HEADER..Wire.DATA];
    var sealed := Wire.EncryptWire(wire, ctrlKey);
    assert wire[..len] == wire[..];
    cable, total := Cable.InitCable(wire, len);
  }

  // An opened wire that tells a client the number of rounds and the next control key.
  ghost predicate Renews(v: Wire.Verdict, count: nat, renewed: Wire.Key) {
    v.Accepted? && |v.wire| >= Wire.DATA + SIZE
    && Wire.Kind(v.wire[Wire.HEADER..Wire.DATA]) == TYPE_CTRL
    && Type(v.wire[Wire.DATA..Wire.DATA + SIZE]) == CTRL_DHKE
    && Count(v.wire[Wire.DATA..Wire.DATA + SIZE]) == count
    && RenewedKey(v.wire[Wire.DATA..Wire.DATA + SIZE]) == renewed
  }

  /** What the daemon sends reaches every client that holds the control key, whatever its session key,
      unless the inner code happens to verify under that too: it reads the number of rounds and the key
      that the daemon put in, and leaves what follows in the stream alone. */
  lemma ControlDelivered(random: seq<bv8>, count: nat, renewed: Wire.Key, session: Wire.Key, ctrl: Wire.Key,
                         w: seq<bv8>, s: seq<bv8>, rest: seq<bv8>)
    requires |random| == 16 && count < 0x1_0000
    requires w == Wire.Fresh(random, TYPE_CTRL, Message(count, renewed)) && s == Wire.Sealed(w, |w|, ctrl)
    requires !Wire.InnerVerifies(s, session)
    ensures Cable.Parse(Cable.Framed(s) + rest) == Cable.Cable(Cable.Framed(s), rest) && Cable.Framed(s)[Cable.HEADER..] == s
    ensures Renews(Wire.Decrypted(s, |w|, [session, ctrl]), count, renewed)
  {
    hide Message, Wire.Sealed, Wire.Fresh, Cable.Framed, Cable.Parse, Wire.InnerVerifies, Wire.Decrypted, Wire.Length, Wire.DataLength;
    var m := Message(count, renewed);
    Wire.FreshCarries(random, TYPE_CTRL, m);
    MessageFields(count, renewed);
    Cable.Delivered(w, TYPE_CTRL, m, s, [session, ctrl], 1, rest);
  }
}
