/** Cables: the framing that carries wires over a stream of bytes, cut into reads and writes of any
    positive size. */
module Cable {
  import opened WireUtil
  import Wire

  const SIGNATURE: seq<bv8> := [0x70, 0x61, 0x72, 0x63, 0x65, 0x6c]
  const HEADER := 14

  // How a receiving routine ends. Endless: it does not, for the stream is at its end, every read gives
  // no bytes and the program asks again. Overrun: it goes past its buffer.
  datatype Outcome = Received | Failed | Endless | Overrun

  // The loop of `xrecvall` on a connection that does not fail, with so many bytes to come and so many still
  // needed: after reads that gave these numbers of bytes it asks for more.
  ghost predicate AsksAfter(stream: nat, need: nat, cuts: seq<nat>)
    decreases |cuts|
  {
    need > 0
    && (cuts == []
        || (cuts[0] <= need && cuts[0] <= stream && (cuts[0] == 0 <==> stream == 0)
            && AsksAfter(stream - cuts[0], need - cuts[0], cuts[1..])))
  }

  ghost predicate Lasts(stream: nat, need: nat, n: nat) {
    exists cuts :: |cuts| == n && AsksAfter(stream, need, cuts)
  }

  ghost predicate WaitsForever(stream: nat, need: nat) { forall n: nat :: Lasts(stream, need, n) }

  lemma {:induction false} ReadsAreFew(stream: nat, need: nat, cuts: seq<nat>)
    requires need <= stream && AsksAfter(stream, need, cuts)
    ensures |cuts| < need
    decreases |cuts|
  {
    if cuts != [] {
      ReadsAreFew(stream - cuts[0], need - cuts[0], cuts[1..]);
    }
  }

  lemma {:induction false} ReadsGoOn(stream: nat, need: nat, n: nat)
    requires stream < need
    ensures Lasts(stream, need, n)
    decreases n
  {
    if n == 0 {
      assert AsksAfter(stream, need, []);
    } else {
      ReadsGoOn(0, need - stream, n - 1);
      var cuts :| |cuts| == n - 1 && AsksAfter(0, need - stream, cuts);
      assert ([stream] + cuts)[1..] == cuts;
      assert AsksAfter(stream, need, [stream] + cuts);
    }
  }

  /** The loop goes on forever if and only if the stream ends before the bytes that it needs; otherwise it
      is over after at most as many reads as bytes, however the stream is cut. */
  lemma ReadsForever(stream: nat, need: nat)
    ensures WaitsForever(stream, need) <==> stream < need
    ensures need <= stream ==> forall cuts :: AsksAfter(stream, need, cuts) ==> |cuts| < need
  {
    hide AsksAfter;
    if stream < need {
      forall n: nat ensures Lasts(stream, need, n) {
        ReadsGoOn(stream, need, n);
      }
    } else {
      forall cuts | AsksAfter(stream, need, cuts) ensures |cuts| < need {
        ReadsAreFew(stream, need, cuts);
      }
      assert !Lasts(stream, need, need);
    }
  }

  /** A peer that closes before it has sent anything is waited for forever. */
  lemma ClosedPeerAwaited()
    ensures WaitsForever(0, HEADER)
  {
    ReadsForever(0, HEADER);
  }

  // The two directions of a connection, with all that the peer will send before it closes. Unless the
  // connection is failing, a write succeeds for at least one byte, and so does a read before the end of
  // the stream; a read at its end gives no bytes.
  class Socket {
    var incoming: seq<bv8>
    var outgoing: seq<bv8>
    var failing: bool

    method Send(data: array<bv8>, off: nat, n: nat) returns (sent: int)
      requires 0 < n && off + n <= data.Length
      modifies this`outgoing
      ensures sent == -1 || 1 <= sent <= n
      ensures sent == -1 ==> failing && outgoing == old(outgoing)
      ensures sent != -1 ==> outgoing == old(outgoing) + data[off..off + sent]
    {
      if failing {
        if * {
          return -1;
        }
      }
      sent := *;
      if !(1 <= sent <= n) {
        sent := n;
      }
      outgoing := outgoing + data[off..off + sent];
    }

    method Recv(data: array<bv8>, off: nat, n: nat) returns (received: int)
      requires 0 < n && off + n <= data.Length
      modifies this`incoming, data
      ensures received == -1 || 0 <= received <= n
      ensures received == -1 ==> failing && incoming == old(incoming) && data[..] == old(data[..])
      ensures received == 0 <==> |old(incoming)| == 0 && received != -1
      ensures received != -1 ==> received <= |old(incoming)| && incoming == old(incoming)[received..]
      ensures received != -1 ==> forall k :: 0 <= k < data.Length ==>
        data[k] == if off <= k < off + received then old(incoming)[k - off] else old(data[k])
    {
      if failing {
        if * {
          return -1;
        }
      }
      if |incoming| == 0 {
        return 0;
      }
      received := *;
      if !(1 <= received <= n && received <= |incoming|) {
        received := 1;
      }
      forall k | 0 <= k < received { data[off + k] := incoming[k]; }
      incoming := incoming[received..];
    }

    // Of the data only the first i bytes have gone out.
    ghost predicate SentTo(before: seq<bv8>, data: seq<bv8>, i: nat)
      reads this
    {
      i < |data| && outgoing == before + data[..i]
    }

    /** `xsendall`: all the bytes go out in order, however the writes are cut. */
    method SendAll(data: array<bv8>, len: nat) returns (ok: bool)
      requires len <= data.Length
      modifies this`outgoing
      ensures ok ==> outgoing == old(outgoing) + data[..len]
      ensures !ok ==> failing && exists i :: SentTo(old(outgoing), data[..len], i)
    {
      var i := 0;
      assert data[..0] == [];
      while i < len
        invariant i <= len && outgoing == old(outgoing) + data[..i]
      {
        var sent := Send(data, i, len - i);
        if sent == -1 {
          assert data[..len][..i] == data[..i];
          assert SentTo(old(outgoing), data[..len], i);
          return false;
        }
        assert data[..i + sent] == data[..i] + data[i..i + sent];
        i := i + sent;
      }
      return true;
    }

    /** `xrecvall`: the next bytes of the stream and no more, however the reads are cut. Where the stream
        ends before that, the program reads nothing forever; this stops instead and says so. */
    method RecvAll(data: array<bv8>, off: nat, len: nat) returns (outcome: Outcome)
      requires off + len <= data.Length
      modifies this`incoming, data
      ensures outcome != Overrun && (outcome == Failed ==> failing)
      ensures outcome == Received ==> len <= |old(incoming)| && incoming == old(incoming)[len..]
      ensures outcome == Received ==> data[..] == old(data[..off]) + old(incoming)[..len] + old(data[off + len..])
      ensures outcome == Endless ==> |old(incoming)| < len && incoming == []
      ensures !failing ==> (outcome == Endless <==> |old(incoming)| < len)
    {
      ghost var s, d := incoming, data[..];
      var i := 0;
      while i < len
        invariant i <= len && i <= |s| && incoming == s[i..]
        invariant forall k :: 0 <= k < data.Length ==> data[k] == if off <= k < off + i then s[k - off] else d[k]
      {
        var received := Recv(data, off + i, len - i);
        if received == -1 {
          return Failed;
        }
        if received == 0 {
          return Endless;
        }
        i := i + received;
      }
      return Received;
    }
  }

  // ---- The frame ----

  // The cable around a wire.
  function Framed(wire: seq<bv8>): (c: seq<bv8>)
    ensures |c| == HEADER + |wire|
  {
    SIGNATURE + Unpack(HEADER + |wire|, 8) + wire
  }

  /** The bytes of a cable around two bytes: "parcel", the length of all of it with its lowest byte first,
      and what it carries. */
  lemma CableExample(a: bv8, b: bv8)
    ensures Framed([a, b]) == [0x70, 0x61, 0x72, 0x63, 0x65, 0x6c, 16, 0, 0, 0, 0, 0, 0, 0, a, b]
  {
    hide Unpack;
    Sixteen();
  }

  lemma Sixteen()
    ensures Unpack(16, 8) == [16, 0, 0, 0, 0, 0, 0, 0]
  {
    hide Unpack;
    UnpackPack([16, 0, 0, 0, 0, 0, 0, 0]);
    assert Pack([16, 0, 0, 0, 0, 0, 0, 0]) == 16;
  }

  // The length that the header of a cable tells.
  function TotalLength(s: seq<bv8>): nat
    requires HEADER <= |s|
  {
    Pack(s[6..HEADER])
  }

  const WORD := 0x1_0000_0000_0000_0000

  // The number of bytes that the program asks for behind a header, in 64 bits.
  function Remaining(s: seq<bv8>): nat
    requires HEADER <= |s|
  {
    (TotalLength(s) + WORD - HEADER) % WORD
  }

  /** The rest of a cable has room behind its header if and only if the length in the header covers the
      header itself. */
  lemma RemainingFits(s: seq<bv8>)
    requires HEADER <= |s|
    ensures HEADER + Remaining(s) <= TotalLength(s) <==> HEADER <= TotalLength(s)
    ensures HEADER <= TotalLength(s) ==> HEADER + Remaining(s) == TotalLength(s)
  {
    PackBound(s[6..HEADER]);
    EightByteRange();
  }

  /** A header that tells one byte too few: for a cable of 13 bytes the program reads 2^64 - 1 more. */
  lemma ShortLengthWraps()
    ensures var h := SIGNATURE + Unpack(13, 8);
            TotalLength(h) == 13 && Remaining(h) == WORD - 1 && forall rest :: Parse(h + rest) == TooShort
  {
    var h := SIGNATURE + Unpack(13, 8);
    Pack64Unpack64(13);
    assert h[6..HEADER] == Unpack(13, 8);
    forall rest: seq<bv8> ensures Parse(h + rest) == TooShort {
      assert (h + rest)[..6] == SIGNATURE && (h + rest)[6..HEADER] == Unpack(13, 8);
    }
  }

  // TooShort: the length does not cover the header.
  datatype Parsed = Cable(cable: seq<bv8>, rest: seq<bv8>) | Short | BadSignature | TooShort

  // What the front of a stream holds.
  ghost function Parse(stream: seq<bv8>): Parsed {
    if |stream| < HEADER then Short
    else if stream[..6] != SIGNATURE then BadSignature
    else if TotalLength(stream) < HEADER then TooShort
    else if |stream| < TotalLength(stream) then Short
    else Cable(stream[..TotalLength(stream)], stream[TotalLength(stream)..])
  }

  /** A framed wire at the front of a stream is read back as it is, and nothing behind it is touched. */
  lemma ParseFramed(wire: seq<bv8>, rest: seq<bv8>)
    requires HEADER + |wire| < 0x1_0000_0000_0000_0000
    ensures Parse(Framed(wire) + rest) == Cable(Framed(wire), rest)
    ensures Framed(wire)[HEADER..] == wire
  {
    var c := Framed(wire);
    Pack64Unpack64(|c|);
    assert (c + rest)[6..HEADER] == Unpack(|c|, 8);
    assert (c + rest)[..6] == SIGNATURE;
    assert (c + rest)[..|c|] == c && (c + rest)[|c|..] == rest;
  }

  function Stream(wires: seq<seq<bv8>>): seq<bv8> {
    if |wires| == 0 then [] else Framed(wires[0]) + Stream(wires[1..])
  }

  ghost predicate Sendable(wires: seq<seq<bv8>>) {
    forall i :: 0 <= i < |wires| ==> HEADER + |wires[i]| < 0x1_0000_0000_0000_0000
  }

  // The stream behind a number of cables.
  ghost predicate Delivers(stream: seq<bv8>, wires: seq<seq<bv8>>, rest: seq<bv8>)
    decreases |wires|
  {
    if |wires| == 0 then stream == rest
    else
      Parse(stream).Cable? && Parse(stream).cable[HEADER..] == wires[0]
      && Delivers(Parse(stream).rest, wires[1..], rest)
  }

  /** Wires that were sent as cables come out in order, and exactly their bytes are consumed. */
  lemma {:induction false} StreamDelivers(wires: seq<seq<bv8>>, rest: seq<bv8>)
    requires Sendable(wires)
    ensures Delivers(Stream(wires) + rest, wires, rest)
  {
    hide Framed, Parse;
    if |wires| == 0 {
      assert [] + rest == rest;
    } else {
      var tail := Stream(wires[1..]) + rest;
      assert Stream(wires) + rest == Framed(wires[0]) + tail;
      StreamDelivers(wires[1..], rest);
      ParseFramed(wires[0], tail);
    }
  }

  lemma {:induction false} StreamAppend(wires: seq<seq<bv8>>, w: seq<bv8>)
    ensures Stream(wires + [w]) == Stream(wires) + Framed(w)
  {
    hide Framed;
    if |wires| == 0 {
      assert wires + [w] == [w] && [w][1..] == [];
      assert Stream([w]) == Framed(w) + Stream([]);
    } else {
      assert (wires + [w])[1..] == wires[1..] + [w];
      StreamAppend(wires[1..], w);
    }
  }

  // ---- The program's routines ----

  lemma SameTail(a: seq<bv8>, b: seq<bv8>, n: nat)
    requires n <= |a| == |b| && forall k :: n <= k < |a| ==> a[k] == b[k]
    ensures a[n..] == b[n..]
  {}

  method InitCable(wire: array<bv8>, len: nat) returns (cable: array<bv8>, total: nat)
    requires len <= wire.Length && HEADER + len < 0x1_0000_0000_0000_0000
    ensures fresh(cable) && cable[..] == Framed(wire[..len]) && total == cable.Length
  {
    hide Unpack;
    total := HEADER + len;
    cable := new bv8[total](_ => 0);
    forall k | 0 <= k < len { cable[HEADER + k] := wire[k]; }
    ghost var copied := cable[..];
    assert copied[HEADER..] == wire[..len];
    forall k | 0 <= k < 6 { cable[k] := SIGNATURE[k]; }
    ghost var signed := cable[..];
    assert signed[..6] == SIGNATURE;
    SameTail(signed, copied, HEADER);
    Unpack64(cable, 6, total);
    assert cable[..6] == signed[..6];
    SameTail(cable[..], signed, HEADER);
    assert cable[..] == cable[..6] + cable[6..HEADER] + cable[HEADER..];
  }

  /** A wire in the clear is sealed, framed and sent. */
  method TransmitCabledWire(sock: Socket, wire: array<bv8>, key: array<bv8>) returns (ok: bool)
    requires wire != key && key.Length == Wire.KEY_LEN && Wire.CanSeal(wire[..])
    requires Wire.Length(wire[Wire.HEADER..Wire.DATA]) == wire.Length && HEADER + wire.Length < 0x1_0000_0000_0000_0000
    modifies sock`outgoing, wire
    ensures wire[..] == Wire.Sealed(old(wire[..]), wire.Length, key[..])
    ensures ok ==> sock.outgoing == old(sock.outgoing) + Framed(Wire.Sealed(old(wire[..]), wire.Length, key[..]))
    ensures !ok ==> sock.failing
  {
    hide Framed, Wire.Sealed, Wire.Length;
    ghost var w := wire[..];
    assert w[Wire.HEADER..Wire.DATA] == wire[Wire.HEADER..Wire.DATA];
    var len := Wire.Length(wire[Wire.HEADER..Wire.DATA]);
    var sealed := Wire.EncryptWire(wire, key);
    var cable, total := InitCable(wire, len);
    assert wire[..len] == wire[..] && cable[..total] == cable[..];
    ok := sock.SendAll(cable, total);
  }

  /** `recv_cable`: the next cable of the stream, once all of it has arrived. A length that does not
      cover the header would have the program read past its buffer; this stops instead and says so. */
  method RecvCable(sock: Socket) returns (cable: array?<bv8>, length: nat, outcome: Outcome)
    modifies sock`incoming
    ensures cable != null <==> outcome == Received
    ensures outcome == Received ==> fresh(cable) && length == cable.Length
    ensures outcome == Received ==> Parse(old(sock.incoming)) == Cable(cable[..], sock.incoming)
    ensures outcome == Failed ==> sock.failing || Parse(old(sock.incoming)) == BadSignature
    ensures outcome == Endless ==> Parse(old(sock.incoming)) == Short && sock.incoming == []
    ensures outcome == Overrun ==> Parse(old(sock.incoming)) == TooShort && sock.incoming == old(sock.incoming)[HEADER..]
  {
    ghost var s := sock.incoming;
    var c := new bv8[HEADER](_ => 0);
    cable, length := null, 0;
    outcome := sock.RecvAll(c, 0, HEADER);
    if outcome != Received {
      return;
    }
    assert c[..] == s[..HEADER] && s[..HEADER][..6] == s[..6] && s[..HEADER][6..HEADER] == s[6..HEADER];
    if c[..6] != SIGNATURE {
      return null, 0, Failed;
    }
    if Pack(c[6..HEADER]) < HEADER {
      return null, 0, Overrun;
    }
    outcome, c := RecvRemaining(sock, c, s);
    if outcome != Received {
      return;
    }
    return c, Pack(c[6..HEADER]), Received;
  }

  // The header moves into a larger buffer, and the rest of the cable is read behind it.
  method RecvRemaining(sock: Socket, header: array<bv8>, ghost s: seq<bv8>) returns (outcome: Outcome, cable: array<bv8>)
    requires header.Length == HEADER <= |s| && header[..] == s[..HEADER] && sock.incoming == s[HEADER..]
    requires HEADER <= TotalLength(s)
    modifies sock`incoming
    ensures fresh(cable) && outcome != Overrun && (outcome == Failed ==> sock.failing)
    ensures outcome == Received ==> cable.Length == TotalLength(s) <= |s| && Pack(cable[6..HEADER]) == cable.Length
    ensures outcome == Received ==> cable[..] == s[..cable.Length] && sock.incoming == s[cable.Length..]
    ensures outcome == Endless ==> |s| < TotalLength(s) && sock.incoming == []
  {
    hide Pack;
    assert header[6..HEADER] == s[..HEADER][6..HEADER] == s[6..HEADER];
    var size := Pack(header[6..HEADER]);
    cable := new bv8[size](_ => 0);
    forall k | 0 <= k < HEADER { cable[k] := header[k]; }
    assert cable[..HEADER] == s[..HEADER];
    outcome := sock.RecvAll(cable, HEADER, size - HEADER);
    if outcome == Received {
      assert s[HEADER..][..size - HEADER] == s[HEADER..size];
      assert cable[..] == s[..HEADER] + s[HEADER..size];
      assert s[HEADER..][size - HEADER..] == s[size..];
      assert cable[6..HEADER] == s[6..HEADER];
    }
  }

  /** `get_cabled_wire`, for cable after cable: what was sent comes out in order, whole, and nothing
      behind it is consumed. */
  method RecvWires(sock: Socket, n: nat, ghost wires: seq<seq<bv8>>, ghost rest: seq<bv8>) returns (got: seq<seq<bv8>>)
    requires |wires| == n && Sendable(wires)
    requires !sock.failing && sock.incoming == Stream(wires) + rest
    modifies sock`incoming
    ensures got == wires && sock.incoming == rest
  {
    hide Framed, Parse;
    got := [];
    assert wires[0..] == wires;
    for i := 0 to n
      invariant got == wires[..i] && sock.incoming == Stream(wires[i..]) + rest
    {
      StreamHead(wires, i, rest);
      ParseFramed(wires[i], Stream(wires[i + 1..]) + rest);
      var cable, length, outcome := RecvCable(sock);
      got := got + [cable[HEADER..]];
    }
    assert wires[n..] == [] && [] + rest == rest;
  }

  lemma StreamHead(wires: seq<seq<bv8>>, i: nat, rest: seq<bv8>)
    requires i < |wires|
    ensures Stream(wires[i..]) + rest == Framed(wires[i]) + (Stream(wires[i + 1..]) + rest)
  {
    hide Framed;
    assert wires[i..][1..] == wires[i + 1..];
  }

  /** End to end: a sealed wire that was sent as a cable arrives whole, and the receiver's keys give
      back the payload. */
  lemma Delivered(w: seq<bv8>, kind: bv8, payload: seq<bv8>, s: seq<bv8>, keys: seq<Wire.Key>, i: nat, rest: seq<bv8>)
    requires Wire.Carries(w, kind, payload) && Wire.Signature(w[Wire.HEADER..Wire.DATA]) == Wire.SIGNATURE
    requires i < |keys| && s == Wire.Sealed(w, |w|, keys[i]) && HEADER + |w| < 0x1_0000_0000_0000_0000
    requires forall j :: 0 <= j < i ==> !Wire.InnerVerifies(s, keys[j])
    ensures Parse(Framed(s) + rest) == Cable(Framed(s), rest) && Framed(s)[HEADER..] == s
    ensures var v := Wire.Decrypted(s, |w|, keys);
            v.Accepted? && Wire.Carries(v.wire, kind, payload)
  {
    hide Framed, Parse, Wire.Sealed, Wire.InnerVerifies, Wire.Decrypted;
    ParseFramed(s, rest);
    Wire.RoundTrip(w, kind, payload, s, keys, i);
  }
}
