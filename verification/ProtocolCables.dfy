/** Cables that stand in the way of an exchange. The daemon reads the sockets of an exchange without
    looking for cables, so one that it meets there ends it. */
module ProtocolCables {
  import opened GroupSecret
  import opened Protocol
  import opened ProtocolSafety

  predicate Exchange(st: State) { st.server.Broadcast? || st.server.Rotate? }

  // Whether a cable comes before a message of the key exchange, in the queue or (more) still to be sent.
  function Blocked(up: seq<Msg>, more: bool): bool {
    if up == [] then false
    else if up[0].Cable? then more || Keys(up[1..]) != []
    else Blocked(up[1..], more)
  }

  lemma {:induction false} BlockedByKey(up: seq<Msg>, m: Msg, more: bool)
    requires !m.Cable?
    ensures Blocked(up + [m], more) <==> Blocked(up, true)
  {
    if up == [] {
      assert up + [m] == [m] && [m][1..] == [];
    } else {
      assert (up + [m])[1..] == up[1..] + [m];
      BlockedByKey(up[1..], m, more);
      KeysAppend(up[1..], [m]);
      KeysOne(m);
    }
  }

  lemma {:induction false} BlockedByCable(up: seq<Msg>, m: Msg, more: bool)
    requires m.Cable?
    ensures Blocked(up + [m], more) <==> Blocked(up, more) || more
  {
    if up == [] {
      assert up + [m] == [m] && [m][1..] == [];
    } else {
      assert (up + [m])[1..] == up[1..] + [m];
      BlockedByCable(up[1..], m, more);
      KeysAppend(up[1..], [m]);
      KeysOne(m);
    }
  }

  // Where only cables wait, they are in the way of everything to come, and of nothing else.
  lemma BlockedAlone(up: seq<Msg>)
    requires Keys(up) == []
    ensures Blocked(up, true) <==> up != []
    ensures !Blocked(up, false)
  {}

  // The client has sent `sent` messages of an exchange of n so far.
  predicate InTheWay(conn: Conn, sent: nat, n: nat) {
    (sent == 0 && Owes(conn.client)) || Blocked(conn.up, sent + 1 < n)
  }

  // Client i has sent a cable too early for the exchange, or is bound to.
  predicate Disturbed(st: State, i: nat)
    requires i < |st.conns|
  {
    InTheWay(st.conns[i], Rcvd(st.server, i) + |Keys(st.conns[i].up)|, |st.conns|)
  }

  /** A step of a client changes nothing about it: what it sends is in the way exactly if something was
      before, or was bound to be. */
  lemma ClientKeeps(s: Suite, e: Epoch, i: nat, conn: Conn, got: nat, snt: nat, rcvd: nat)
    requires |e.d| >= 2 && ConnOk(s, e, i, conn, got, snt, rcvd) && conn.down != []
    ensures var conn' := ClientNext(s, conn, e.d[i]);
            InTheWay(conn', rcvd + |Keys(conn'.up)|, |e.d|) <==> InTheWay(conn, rcvd + |Keys(conn.up)|, |e.d|)
  {
    hide Blocked, Keys, ClientNext, UpMsg, Pending, InExchange, DownMsg;
    var n := |e.d|;
    var got', out := ConnStep(s, e, i, conn, got, snt, rcvd);
    var conn' := ClientNext(s, conn, e.d[i]);
    KeysAppend(conn.up, out);
    assert rcvd + |Keys(conn.up)| == Sent(got, n) && rcvd + |Keys(conn'.up)| == Sent(got', n);
    if out == [] {
      assert conn.up + out == conn.up;
    } else {
      assert out == [out[0]];
      if out[0].Cable? {
        KeysOne(out[0]);
        BlockedByCable(conn.up, out[0], rcvd + |Keys(conn'.up)| + 1 < n);
      } else {
        KeysOne(out[0]);
        BlockedByKey(conn.up, out[0], rcvd + |Keys(conn'.up)| + 1 < n);
      }
    }
  }

  // What the account of an exchange says about connection i.
  lemma Account(s: Suite, st: State, p: Progress, i: nat) returns (e: Epoch)
    requires Inv(s, st, p) && Exchange(st) && i < |st.conns|
    ensures e == Epoch(p.previous, st.key, st.draws) && |e.d| == |st.conns| == |p.got| >= 2
    ensures ConnOk(s, e, i, st.conns[i], p.got[i], Snt(st.server, i, |st.conns|), Rcvd(st.server, i))
  {
    hide ConnOk, Snt, Rcvd;
    e := Epoch(p.previous, st.key, st.draws);
  }

  // A cable at the front of the queue that the daemon is about to read is in the way.
  lemma ReadsCable(s: Suite, st: State, p: Progress)
    requires Inv(s, st, p) && st.server.Rotate? && st.server.held == []
    requires st.conns[st.server.at].up != [] && st.conns[st.server.at].up[0].Cable?
    ensures Disturbed(st, st.server.at)
  {
    var i := st.server.at;
    var e := Account(s, st, p, i);
    var up := st.conns[i].up;
    assert Keys(up) == Keys(up[1..]);
    assert Rcvd(st.server, i) == st.server.round;
  }

  // Taking a message of the exchange from the front of a queue leaves what is in the way.
  lemma PopKeeps(conn: Conn, rcvd: nat, n: nat)
    requires conn.up != [] && !conn.up[0].Cable?
    ensures var conn' := conn.(up := conn.up[1..]);
            InTheWay(conn', rcvd + 1 + |Keys(conn'.up)|, n) <==> InTheWay(conn, rcvd + |Keys(conn.up)|, n)
  {
    assert Keys(conn.up) == [conn.up[0]] + Keys(conn.up[1..]);
  }

  /** A step of the daemon in an exchange changes nothing about it either, fails only on a cable that is
      in the way, and ends the exchange only if there is none. */
  lemma ServerKeeps(s: Suite, st: State, e: Event, i: nat)
    requires Commutes(s) && Safe(s, st) && Exchange(st) && e.ServerStep? && Enabled(st, e) && i < |st.conns|
    ensures var st' := Apply(s, st, e);
            && |st'.conns| == |st.conns| && (Exchange(st') || st'.server.Failed? || st'.server.Idle?)
            && (st'.server.Failed? ==> st.server.Rotate? && st.server.at < |st.conns| && Disturbed(st, st.server.at))
            && (Exchange(st') ==> (Disturbed(st', i) <==> Disturbed(st, i)))
            && (st'.server.Idle? ==> !Disturbed(st, i))
  {
    hide Disturbed, ServerNext;
    var p :| Inv(s, st, p);
    hide Inv;
    if st.server.Broadcast? {
      BroadcastKeeps(s, st, e, p, i);
    } else if st.server.held == [] {
      ReadKeeps(s, st, e, p, i);
    } else {
      ForwardKeeps(s, st, e, p, i);
    }
  }

  lemma BroadcastKeeps(s: Suite, st: State, e: Event, p: Progress, i: nat)
    requires Inv(s, st, p) && st.server.Broadcast? && e.ServerStep? && Enabled(st, e) && i < |st.conns|
    ensures var st' := ServerNext(s, st, e.secret, e.renewed, e.draws);
            |st'.conns| == |st.conns| && Exchange(st') && (Disturbed(st', i) <==> Disturbed(st, i))
  {
    hide Keys, InTheWay, AllOk;
    var next, n := st.server.next, |st.conns|;
    UpAndOwes(st.conns[i], Push(st.conns[i], Ctrl(st.server.previous, n - 1, st.key)), |Keys(st.conns[i].up)|, n);
  }

  lemma ReadKeeps(s: Suite, st: State, e: Event, p: Progress, i: nat)
    requires Inv(s, st, p) && st.server.Rotate? && st.server.held == [] && e.ServerStep? && Enabled(st, e) && i < |st.conns|
    ensures var st' := ServerNext(s, st, e.secret, e.renewed, e.draws);
            && |st'.conns| == |st.conns| && (Exchange(st') || st'.server.Failed?)
            && (st'.server.Failed? ==> st.server.at < |st.conns| && Disturbed(st, st.server.at))
            && (Exchange(st') ==> (Disturbed(st', i) <==> Disturbed(st, i)))
  {
    hide Keys, InTheWay, ConnOk, Snt;
    var at, n := st.server.at, |st.conns|;
    if st.conns[at].up[0].Cable? {
      ReadsCable(s, st, p);
    } else {
      var d := Account(s, st, p, at);
      PopOk(s, d, at, st.conns[at], p.got[at], Snt(st.server, at, n), Rcvd(st.server, at));
      PopKeeps(st.conns[at], st.server.round, n);
    }
  }

  lemma ForwardKeeps(s: Suite, st: State, e: Event, p: Progress, i: nat)
    requires Inv(s, st, p) && st.server.Rotate? && st.server.held != [] && e.ServerStep? && Enabled(st, e) && i < |st.conns|
    ensures var st' := ServerNext(s, st, e.secret, e.renewed, e.draws);
            && |st'.conns| == |st.conns| && (Exchange(st') || st'.server.Idle?)
            && (Exchange(st') ==> (Disturbed(st', i) <==> Disturbed(st, i)))
            && (st'.server.Idle? ==> !Disturbed(st, i))
  {
    hide Keys, InTheWay, AllOk;
    var at, round, held, n := st.server.at, st.server.round, st.server.held, |st.conns|;
    UpAndOwes(st.conns[i], Push(st.conns[i], Inter(held[0])), Rcvd(st.server, i) + |Keys(st.conns[i].up)|, n);
    if at + 1 == n && round + 2 == n {
      LastForward(s, st, p, i);
    }
  }

  // Only the queue to the daemon and a debt matter.
  lemma UpAndOwes(conn: Conn, conn': Conn, sent: nat, n: nat)
    requires conn'.up == conn.up && conn'.client == conn.client
    ensures InTheWay(conn', sent, n) == InTheWay(conn, sent, n)
  {}

  lemma LastForward(s: Suite, st: State, p: Progress, i: nat)
    requires Inv(s, st, p) && st.server.Rotate? && st.server.held != [] && i < |st.conns|
    requires st.server.at + 1 == |st.conns| && st.server.round + 2 == |st.conns|
    ensures !Disturbed(st, i)
  {
    var e := Account(s, st, p, i);
    assert Rcvd(st.server, i) == |e.d| - 1;
    BlockedAlone(st.conns[i].up);
  }
}
