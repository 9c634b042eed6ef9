/** Where a cable ends up and who can read it, once the daemon is back in its loop. */
module ProtocolDelivery {
  import opened GroupSecret
  import opened Protocol
  import opened ProtocolSafety

  /** A cable that the daemon passes on joins the end of every queue but that of its sender, whose own it leaves;
      nobody's state changes. */
  lemma FanDelivers(conns: seq<Conn>, i: nat, j: nat)
    requires i < |conns| && conns[i].up != [] && j < |conns|
    ensures var m, conn, conn' := conns[i].up[0], conns[j], Fan(conns, i)[j];
            && conn'.client == conn.client
            && conn'.down == (if j == i then conn.down else conn.down + [m])
            && conn.up == if j == i then [m] + conn'.up else conn'.up
  {}

  /** A client that ends an exchange, having handled all its messages, announces itself under the key made of
      all secrets, unless it has announced itself before. */
  lemma AnnouncementSealed(s: Suite, e: Epoch, i: nat, c: Client)
    requires Commutes(s) && i < |e.d| && |e.d| >= 2
    requires InExchange(s, e, i, c, |e.d| - 1)
    ensures var (c', out) := React(s, c, DownMsg(s, e, i, |e.d| - 1), e.d[i]);
            && out == (if c.announced then [] else [Cable(RingKey(s, e.d), ANNOUNCEMENT)])
            && c' == Client(Listening, e.renewed, RingKey(s, e.d), true)
  {
    Agreement(s, e.d, i);
    hide RingKey;
  }

  lemma PendingSealed(s: Suite, c: Client, pre: seq<Msg>, key: Key, draw: Key)
    requires Pending(s, c, pre, key) && pre != []
    ensures React(s, c, pre[0], draw).1 == if Owes(c) then [Cable(FinalSession(s, c, pre), ANNOUNCEMENT)] else []
  {
    if c.phase.Listening? {
      assert pre[0].Cable?;
    }
  }

  /** What a client sends while the daemon is in its loop, other than what its user says, is its announcement,
      and that is under the key which every connection will hold. */
  lemma LateAnnouncementSealed(s: Suite, st: State, i: nat)
    requires Safe(s, st) && st.server.Idle? && |st.conns| >= 2 && Enabled(st, ClientStep(i))
    ensures |st.draws| == |st.conns|
    ensures Apply(s, st, ClientStep(i)).conns[i].up
            == st.conns[i].up + if Owes(st.conns[i].client) then [Cable(RingKey(s, st.draws), ANNOUNCEMENT)] else []
    ensures forall j :: 0 <= j < |st.conns| ==>
              FinalSession(s, st.conns[j].client, st.conns[j].down) == RingKey(s, st.draws)
  {
    var p :| Inv(s, st, p);
    hide RingKey, FinalSession, Keys, React;
    var conn := st.conns[i];
    assert Rested(s, conn, st.key);
    RestedNotConnecting(s, conn, st.key);
    PendingSealed(s, conn.client, conn.down, st.key, st.draws[i]);
  }

  // ---- A cable on its way ----

  // The daemon passes on n cables of client i.
  function Forwards(i: nat, n: nat): seq<Event> { seq(n, _ => Forward(i)) }

  function ClientSteps(j: nat, n: nat): seq<Event> { seq(n, _ => ClientStep(j)) }

  /** The daemon can pass on all that waits in one queue, in order, and it goes to the end of every other. */
  lemma {:induction false} ForwardAll(s: Suite, st: State, i: nat) returns (end: State)
    requires Commutes(s) && Safe(s, st) && st.server.Idle? && i < |st.conns|
    ensures Run(s, st, Forwards(i, |st.conns[i].up|), end) && Safe(s, end)
    ensures end.server.Idle? && end.draws == st.draws && |end.conns| == |st.conns|
    ensures forall j :: 0 <= j < |st.conns| && j != i ==>
              end.conns[j] == st.conns[j].(down := st.conns[j].down + st.conns[i].up)
    decreases |st.conns[i].up|
  {
    hide Safe;
    var up := st.conns[i].up;
    if up == [] {
      end := st;
      assert Forwards(i, 0) == [];
      forall j | 0 <= j < |st.conns| ensures st.conns[j].down + [] == st.conns[j].down {}
    } else {
      ForwardsOn(s, st, i);
      StepSafe(s, st, Forward(i));
      var next := Apply(s, st, Forward(i));
      end := ForwardAll(s, next, i);
      assert Forwards(i, |up|) == [Forward(i)] + Forwards(i, |up| - 1);
      assert Forwards(i, |up|)[1..] == Forwards(i, |up| - 1);
      forall j | 0 <= j < |st.conns| && j != i
        ensures end.conns[j] == st.conns[j].(down := st.conns[j].down + up)
      {
        FanDelivers(st.conns, i, j);
        assert st.conns[j].down + up == st.conns[j].down + [up[0]] + up[1..];
      }
    }
  }

  lemma ForwardsOn(s: Suite, st: State, i: nat)
    requires Safe(s, st) && Enabled(st, Forward(i))
    ensures Apply(s, st, Forward(i)) == st.(conns := Fan(st.conns, i))
  {
    var p :| Inv(s, st, p);
    ForwardOk(s, st, p, i);
  }

  /** In the daemon's loop a client in its receive loop seals what its user says under the key of the ring; and
      every client at whose turn a cable comes is in its receive loop and holds that key. */
  lemma HoldsRingKey(s: Suite, st: State, j: nat)
    requires Safe(s, st) && st.server.Idle? && |st.conns| >= 2 && j < |st.conns|
    requires st.conns[j].client.phase.Listening? || (st.conns[j].down != [] && st.conns[j].down[0].Cable?)
    ensures |st.draws| == |st.conns|
    ensures st.conns[j].client.phase.Listening? && st.conns[j].client.session == RingKey(s, st.draws)
  {
    hide RingKey;
    var p :| Inv(s, st, p);
    assert Rested(s, st.conns[j], st.key);
    assert FinalSession(s, st.conns[j].client, st.conns[j].down) == RingKey(s, st.draws);
  }

  // A client can handle all but the last of the messages that wait for it.
  lemma {:induction false} HandleAllButLast(s: Suite, st: State, j: nat) returns (end: State)
    requires Commutes(s) && Safe(s, st) && st.server.Idle? && j < |st.conns| && st.conns[j].down != []
    ensures Run(s, st, ClientSteps(j, |st.conns[j].down| - 1), end) && Safe(s, end)
    ensures end.server.Idle? && end.draws == st.draws && |end.conns| == |st.conns|
    ensures end.conns[j].down == st.conns[j].down[|st.conns[j].down| - 1..]
    decreases |st.conns[j].down|
  {
    hide Safe, React;
    var down := st.conns[j].down;
    if |down| == 1 {
      end := st;
      assert ClientSteps(j, 0) == [];
    } else {
      MayHandle(s, st, j);
      StepSafe(s, st, ClientStep(j));
      var next := Apply(s, st, ClientStep(j));
      end := HandleAllButLast(s, next, j);
      var n := |down| - 1;
      assert ClientSteps(j, n) == [ClientStep(j)] + ClientSteps(j, n - 1);
      assert ClientSteps(j, n)[1..] == ClientSteps(j, n - 1);
    }
  }

  lemma MayHandle(s: Suite, st: State, j: nat)
    requires Safe(s, st) && st.server.Idle? && j < |st.conns| && st.conns[j].down != []
    ensures Enabled(st, ClientStep(j)) && !st.conns[j].client.phase.Connecting?
    ensures Apply(s, st, ClientStep(j)).conns[j].down == st.conns[j].down[1..]
  {
    hide React;
    var p :| Inv(s, st, p);
    assert Rested(s, st.conns[j], st.key);
    RestedNotConnecting(s, st.conns[j], st.key);
    NoneBroken(s, st, p);
  }

  lemma {:induction false} RunThen(s: Suite, st: State, a: seq<Event>, mid: State, b: seq<Event>, end: State)
    requires Run(s, st, a, mid) && Run(s, mid, b, end)
    ensures Run(s, st, a + b, end)
    decreases |a|
  {
    if a == [] {
      assert a + b == b;
    } else {
      assert (a + b)[1..] == a[1..] + b;
      RunThen(s, Apply(s, st, a[0]), a[1..], mid, b, end);
    }
  }

  /** What the user of a client in its receive loop says reaches every other client. Once the daemon has passed
      on what waits in the sender's queue, and client j has handled all that came before, the cable is at j's
      turn, sealed under the session key that j holds then. */
  lemma SaidIsRead(s: Suite, st: State, i: nat, text: Key, j: nat) returns (end: State)
    requires Commutes(s) && Safe(s, st) && st.server.Idle? && i < |st.conns| && j < |st.conns| && i != j
    requires Enabled(st, Say(i, text)) && st.conns[i].client.phase.Listening?
    ensures Run(s, st, [Say(i, text)] + Forwards(i, |st.conns[i].up| + 1)
                       + ClientSteps(j, |st.conns[j].down| + |st.conns[i].up|), end)
    ensures end.server.Idle? && |end.conns| == |st.conns| && end.conns[j].client.phase.Listening?
    ensures end.conns[j].down == [Cable(end.conns[j].client.session, text)]
  {
    hide Safe, RingKey, ClientNext;
    var up, down := st.conns[i].up, st.conns[j].down;
    HoldsRingKey(s, st, i);
    var m := Cable(RingKey(s, st.draws), text);
    var said := Apply(s, st, Say(i, text));
    StepSafe(s, st, Say(i, text));
    SayRun(s, st, i, text);
    var passed := ForwardAll(s, said, i);
    assert passed.conns[j].down == down + (up + [m]) == (down + up) + [m];
    end := HandleAllButLast(s, passed, j);
    assert end.conns[j].down == [m];
    HoldsRingKey(s, end, j);
    RunThen(s, st, [Say(i, text)], said, Forwards(i, |up| + 1), passed);
    RunThen(s, st, [Say(i, text)] + Forwards(i, |up| + 1), passed, ClientSteps(j, |down| + |up|), end);
  }

  lemma SayRun(s: Suite, st: State, i: nat, text: Key)
    requires Enabled(st, Say(i, text))
    ensures Run(s, st, [Say(i, text)], Apply(s, st, Say(i, text)))
  {
    assert [Say(i, text)][1..] == [];
  }
}
