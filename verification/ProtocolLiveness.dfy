/** No reachable state of the exchange is stuck, every exchange ends, it fails exactly if a cable is in
    its way, and when the queues have drained everybody holds the same keys. */
module ProtocolLiveness {
  import opened GroupSecret
  import opened Protocol
  import opened ProtocolSafety
  import opened ProtocolCables

  // Steps of an exchange under way and of forwarding, as opposed to what users do.
  predicate Internal(e: Event) { e.ClientStep? || e.ServerStep? || e.Forward? }

  // The daemon is back in its loop and nothing is left to handle.
  predicate Quiescent(st: State) {
    st.server.Idle? && forall i :: 0 <= i < |st.conns| ==> st.conns[i].down == [] && st.conns[i].up == []
  }

  /** In a quiescent state all clients are in their receive loop with the daemon's control key, and
      two or more of them share one session key, the one made of all their secrets. */
  lemma KeysAgree(s: Suite, st: State, i: nat)
    requires Safe(s, st) && Quiescent(st) && i < |st.conns|
    ensures st.conns[i].client.phase.Listening? && st.conns[i].client.ctrl == st.key
    ensures |st.conns| >= 2 ==> |st.draws| == |st.conns| && st.conns[i].client.session == RingKey(s, st.draws)
  {
    var p :| Inv(s, st, p);
    assert Rested(s, st.conns[i], st.key);
  }

  /** What the daemon is about to read from socket i in round r is client i's r-th intermediate, unless
      a cable comes first; and behind cables it is the next in any case. */
  lemma ReadsInOrder(s: Suite, st: State)
    requires Safe(s, st) && st.server.Rotate?
    requires st.server.at < |st.conns| && st.server.held == [] && Keys(st.conns[st.server.at].up) != []
    ensures |st.draws| == |st.conns|
    ensures Keys(st.conns[st.server.at].up)[0] == Inter(Intermediate(s, st.draws, st.server.at, st.server.round))
    ensures var up := st.conns[st.server.at].up; up[0].Cable? || up[0] == Keys(up)[0]
  {
    hide ConnOk;
    var p :| Inv(s, st, p);
    var at := st.server.at;
    var e := Account(s, st, p, at);
    FrontKey(s, e, at, st.conns[at], p.got[at], Snt(st.server, at, |st.conns|), Rcvd(st.server, at));
    assert Rcvd(st.server, at) == st.server.round;
  }

  lemma FrontKey(s: Suite, e: Epoch, i: nat, conn: Conn, got: nat, snt: nat, rcvd: nat)
    requires ConnOk(s, e, i, conn, got, snt, rcvd) && Keys(conn.up) != []
    ensures Keys(conn.up)[0] == UpMsg(s, e, i, rcvd)
  {
    assert Keys(conn.up)[0] == UpMsg(s, e, i, rcvd + 0);
  }

  /** No client ever receives a message of the wrong kind or a control message that it cannot read. */
  lemma NobodyFails(s: Suite, st: State, i: nat)
    requires Safe(s, st) && i < |st.conns|
    ensures !st.conns[i].client.phase.Broken?
  {
    var p :| Inv(s, st, p);
    NoneBroken(s, st, p);
  }

  // ---- The last client leaves ----

  lemma OverIsTheEnd(s: Suite, st: State, events: seq<Event>, end: State)
    requires Over(st) && Run(s, st, events, end)
    ensures events == [] && end == st
  {}

  // The state before the last event of a run.
  ghost predicate LastStep(s: Suite, st: State, events: seq<Event>, mid: State, end: State) {
    events != [] && Run(s, st, events[..|events| - 1], mid)
    && Enabled(mid, events[|events| - 1]) && end == Apply(s, mid, events[|events| - 1])
  }

  lemma {:induction false} RunLast(s: Suite, st: State, events: seq<Event>, end: State) returns (mid: State)
    requires Run(s, st, events, end) && events != []
    ensures LastStep(s, st, events, mid, end)
    decreases |events|
  {
    var n := |events| - 1;
    if n == 0 {
      mid := st;
      assert events[1..] == [] && events[..0] == [];
    } else {
      mid := RunLast(s, Apply(s, st, events[0]), events[1..], end);
      assert events[1..][..n - 1] == events[..n][1..] && events[..n][0] == events[0];
    }
  }

  /** The assertion in n_party_server fails in a run exactly if the run ends with the leave of the only
      client that was left. */
  lemma LeaveAborts(s: Suite, key: Key, events: seq<Event>, end: State)
    requires Run(s, Init(key), events, end)
    ensures end.server.Aborted? <==>
      exists mid :: LastStep(s, Init(key), events, mid, end) && events[|events| - 1].Leave? && |mid.conns| == 1
  {
    if events != [] {
      var mid := RunLast(s, Init(key), events, end);
      AbortsOnLeave(s, mid, events[|events| - 1]);
      forall mid' | LastStep(s, Init(key), events, mid', end) {
        AbortsOnLeave(s, mid', events[|events| - 1]);
      }
    }
  }

  lemma AbortsOnLeave(s: Suite, st: State, e: Event)
    requires Enabled(st, e)
    ensures Apply(s, st, e).server.Aborted? <==> e.Leave? && |st.conns| == 1
  {
    hide React, ClientNext, Fan;
    if e.ServerStep? {
      NoAbort(s, st, e.secret, e.renewed, e.draws);
    }
  }

  lemma NoAbort(s: Suite, st: State, secret: Key, renewed: Key, draws: seq<Key>)
    requires Enabled(st, ServerStep(secret, renewed, draws))
    ensures !ServerNext(s, st, secret, renewed, draws).server.Aborted?
  {}

  // One client joins, takes the greeting in part, and leaves: the daemon is gone.
  lemma LastClientEndsDaemon(s: Suite, key: Key, a: Key, b: Key)
    ensures var events := [Join(a), ClientStep(0), ServerStep(b, key, []), ServerStep(b, key, []),
                           ServerStep(b, key, [[]]), Leave(0, key, [])];
            exists end :: Run(s, Init(key), events, end) && end.server.Aborted?
  {
    var c := Client(Connecting(a), s.zero, s.zero, false);
    var g := Client(Greeting(a), s.zero, s.zero, false);
    var pub, shared := s.kx(a, s.base), s.kx(b, s.kx(a, s.base));
    var answer := ServerPublic(s.kx(b, s.base));
    var s1 := State([Conn(c, [], [])], key, AwaitPublic, []);
    var s2 := State([Conn(g, [], [ClientPublic(pub)])], key, AwaitPublic, []);
    var s3 := State([Conn(g, [], [])], key, GotPublic(pub), []);
    var s4 := State([Conn(g, [answer], [])], key, SentPublic(shared), []);
    var s5 := State([Conn(g, [answer, SessionKey(shared, key)], [])], key, Idle, [[]]);
    var s6 := State([], key, Aborted, []);
    assert Apply(s, s5, Leave(0, key, [])) == s6;
    OneMore(s, s5, Leave(0, key, []), [], s6, s6);
    ReplaceOne(s4.conns[0], s5.conns[0]);
    assert Push(s4.conns[0], SessionKey(shared, key)) == s5.conns[0];
    OneMore(s, s4, ServerStep(b, key, [[]]), [Leave(0, key, [])], s5, s6);
    ReplaceOne(s3.conns[0], s4.conns[0]);
    assert Push(s3.conns[0], answer) == s4.conns[0];
    OneMore(s, s3, ServerStep(b, key, []), [ServerStep(b, key, [[]]), Leave(0, key, [])], s4, s6);
    ReplaceOne(s2.conns[0], s3.conns[0]);
    var rest := [ServerStep(b, key, []), ServerStep(b, key, [[]]), Leave(0, key, [])];
    assert [ClientPublic(pub)][1..] == [];
    OneMore(s, s2, ServerStep(b, key, []), rest, s3, s6);
    ReplaceOne(s1.conns[0], s2.conns[0]);
    var none: seq<Msg> := [];
    assert none + [ClientPublic(pub)] == [ClientPublic(pub)];
    var rest2 := [ServerStep(b, key, [])] + rest;
    OneMore(s, s1, ClientStep(0), rest2, s2, s6);
    OneMore(s, Init(key), Join(a), [ClientStep(0)] + rest2, s1, s6);
    assert [Join(a)] + ([ClientStep(0)] + rest2)
        == [Join(a), ClientStep(0), ServerStep(b, key, []), ServerStep(b, key, []), ServerStep(b, key, [[]]), Leave(0, key, [])];
  }

  lemma ReplaceOne<T>(x: T, y: T)
    ensures [x][0 := y] == [y]
  {}

  // A run with one more event in front.
  lemma OneMore(s: Suite, st: State, e: Event, rest: seq<Event>, next: State, end: State)
    requires Enabled(st, e) && Apply(s, st, e) == next && Run(s, next, rest, end)
    ensures Run(s, st, [e] + rest, end)
  {
    assert ([e] + rest)[1..] == rest;
  }

  // When the daemon waits for the message of client `at`, that client has one to handle.
  lemma WaitedForCanStep(s: Suite, st: State, p: Progress)
    requires Inv(s, st, p) && st.server.Rotate? && st.server.held == []
    requires st.conns[st.server.at].up == []
    ensures Enabled(st, ClientStep(st.server.at))
  {
    var at := st.server.at;
    NobodyFails(s, st, at);
    var e := Epoch(p.previous, st.key, st.draws);
    assert ConnOk(s, e, at, st.conns[at], p.got[at], Snt(st.server, at, |st.conns|), Rcvd(st.server, at));
  }

  /** A state that is not quiescent always allows a step, unless the daemon has ended. */
  lemma NotStuck(s: Suite, st: State) returns (e: Event)
    requires Safe(s, st) && !Quiescent(st) && !Over(st)
    ensures Internal(e) && Enabled(st, e)
  {
    var p :| Inv(s, st, p);
    e := ServerStep([], [], seq(|st.conns|, _ => []));
    var last := |st.conns| - 1;
    match st.server
    case Idle =>
      var i :| 0 <= i < |st.conns| && (st.conns[i].down != [] || st.conns[i].up != []);
      NobodyFails(s, st, i);
      e := if st.conns[i].up != [] then Forward(i) else ClientStep(i);
    case AwaitPublic =>
      if st.conns[last].client.phase.Connecting? {
        e := ClientStep(last);
      }
    case Rotate(_, at, held) =>
      if held == [] && st.conns[at].up == [] {
        WaitedForCanStep(s, st, p);
        e := ClientStep(at);
      }
    case _ =>
  }

  // ---- Termination ----

  // The cables that a client has sent and those that it still owes.
  function Cables(up: seq<Msg>): nat {
    if up == [] then 0 else (if up[0].Cable? then 1 else 0) + Cables(up[1..])
  }

  lemma {:induction false} CablesAppend(a: seq<Msg>, b: seq<Msg>)
    ensures Cables(a + b) == Cables(a) + Cables(b)
  {
    if a == [] {
      assert a + b == b;
    } else {
      assert (a + b)[1..] == a[1..] + b;
      CablesAppend(a[1..], b);
    }
  }

  function Unsent(conn: Conn): nat { Cables(conn.up) + if conn.client.announced then 0 else 1 }

  // Messages waiting for a client, the greeting it has yet to send, and w for every cable.
  function Weight(conn: Conn, w: nat): nat {
    |conn.down| + (if conn.client.phase.Connecting? then 1 else 0) + w * Unsent(conn)
  }

  function Load(conns: seq<Conn>, w: nat): nat {
    if conns == [] then 0 else Weight(conns[0], w) + Load(conns[1..], w)
  }

  lemma {:induction false} LoadUpdate(conns: seq<Conn>, w: nat, i: nat, conn: Conn)
    requires i < |conns|
    ensures Load(conns[i := conn], w) == Load(conns, w) + Weight(conn, w) - Weight(conns[i], w)
  {
    hide Weight;
    if i > 0 {
      LoadUpdate(conns[1..], w, i - 1, conn);
      assert conns[i := conn][1..] == conns[1..][i - 1 := conn];
    } else {
      assert conns[0 := conn][1..] == conns[1..];
    }
  }

  // One more message for everybody.
  lemma {:induction false} LoadGrows(a: seq<Conn>, b: seq<Conn>, w: nat)
    requires |a| == |b| && forall i :: 0 <= i < |a| ==> Weight(b[i], w) <= Weight(a[i], w) + 1
    ensures Load(b, w) <= Load(a, w) + |a|
  {
    hide Weight;
    if a != [] {
      LoadGrows(a[1..], b[1..], w);
    }
  }

  // Steps left to the daemon in the rounds of an exchange of n.
  function Rounds(n: nat, round: nat): nat
    requires round < n
  {
    2 * n * (n - 1 - round)
  }

  function Work(server: Server, n: nat): int {
    match server
    case AwaitPublic => 3 + n + if n > 0 then Rounds(n, 0) else 0
    case GotPublic(_) => 2 + n + if n > 0 then Rounds(n, 0) else 0
    case SentPublic(_) => 1 + n + if n > 0 then Rounds(n, 0) else 0
    case Broadcast(next, _) => n - next + if n > 0 then Rounds(n, 0) else 0
    case Rotate(round, at, held) =>
      if round < n then Rounds(n, round) - 2 * at - (if held == [] then 0 else 1) else 0
    case _ => 0
  }

  function Measure(st: State): int {
    2 * Work(st.server, |st.conns|) + Load(st.conns, |st.conns| + 1)
  }

  lemma RoundsLeft(n: nat, round: nat)
    requires round + 1 < n
    ensures Rounds(n, round) == Rounds(n, round + 1) + 2 * n && Rounds(n, round + 1) >= 0
  {}

  lemma MeasureNatural(s: Suite, st: State)
    requires Safe(s, st)
    ensures Measure(st) >= 0
  {
    var p :| Inv(s, st, p);
    if st.server.Rotate? {
      RoundsLeft(|st.conns|, st.server.round);
    }
  }

  // Handling a message costs one; a cable that is sent was owed.
  lemma ClientUnsent(s: Suite, conn: Conn, draw: Key)
    requires conn.client.phase.Connecting? || conn.down != []
    ensures Unsent(ClientNext(s, conn, draw)) <= Unsent(conn)
  {
    if conn.client.phase.Connecting? {
      CablesAppend(conn.up, [ClientPublic(s.kx(conn.client.phase.secret, s.base))]);
    } else {
      var (c, out) := React(s, conn.client, conn.down[0], draw);
      CablesAppend(conn.up, out);
      CablesOut(s, conn.client, conn.down[0], draw);
    }
  }

  lemma CablesOut(s: Suite, c: Client, m: Msg, draw: Key)
    ensures var (c', out) := React(s, c, m, draw);
            Cables(out) + (if c'.announced then 0 else 1) <= if c.announced then 0 else 1
  {
    if c.phase.Listening? && m.Ctrl? && m.rounds == 0 {
      CablesAppend([Inter(s.kx(draw, s.base))], Announce(c, s.zero));
    }
  }

  lemma ClientWeight(s: Suite, conn: Conn, draw: Key, w: nat)
    requires conn.client.phase.Connecting? || conn.down != []
    ensures Weight(ClientNext(s, conn, draw), w) < Weight(conn, w)
  {
    ClientUnsent(s, conn, draw);
    var conn' := ClientNext(s, conn, draw);
    MulMonotone(w, Unsent(conn'), Unsent(conn));
    hide Unsent;
  }

  lemma MulMonotone(w: nat, a: nat, b: nat)
    requires a <= b
    ensures w * a <= w * b && w * (b + 1) == w * b + w
  {}

  lemma ClientDecreases(s: Suite, st: State, i: nat)
    requires Enabled(st, ClientStep(i))
    ensures Measure(Apply(s, st, ClientStep(i))) < Measure(st)
  {
    hide Load, ClientNext, Work, Weight;
    var draw := if i < |st.draws| then st.draws[i] else s.zero;
    var conn := ClientNext(s, st.conns[i], draw);
    ClientWeight(s, st.conns[i], draw, |st.conns| + 1);
    LoadUpdate(st.conns, |st.conns| + 1, i, conn);
  }

  // Forwarding a cable takes it out of the account and gives one message to each other client.
  lemma ForwardDecreases(s: Suite, st: State, i: nat)
    requires Enabled(st, Forward(i)) && st.conns[i].up[0].Cable?
    ensures Measure(Apply(s, st, Forward(i))) < Measure(st)
  {
    var w := |st.conns| + 1;
    var taken := st.conns[i].(up := st.conns[i].up[1..]);
    assert Unsent(st.conns[i]) == Unsent(taken) + 1;
    MulMonotone(w, Unsent(taken), Unsent(taken));
    assert Weight(st.conns[i], w) == Weight(taken, w) + w;
    var conns := Fan(st.conns, i);
    forall j | 0 <= j < |conns| ensures Weight(conns[j], w) <= Weight(st.conns[i := taken][j], w) + 1 {
      if j != i {
        assert Unsent(conns[j]) == Unsent(st.conns[j]);
      }
    }
    hide Load, Work, Weight, Unsent, Fan;
    LoadUpdate(st.conns, w, i, taken);
    LoadGrows(st.conns[i := taken], conns, w);
  }

  // What a step of the daemon does to the queues: at most one message is sent.
  lemma ServerLoad(s: Suite, st: State, e: Event, w: nat)
    requires e.ServerStep? && Enabled(st, e)
    ensures |Apply(s, st, e).conns| == |st.conns|
    ensures Load(Apply(s, st, e).conns, w) <= Load(st.conns, w) + 1
  {
    hide Load, Work, Weight;
    var n := |st.conns|;
    var x := match st.server
      case Broadcast(next, _) => next
      case Rotate(_, at, held) => if held == [] then at else Right(at, n)
      case _ => n - 1;
    var conns := Apply(s, st, e).conns;
    assert conns == st.conns[x := conns[x]];
    TouchedWeight(st.conns[x], conns[x], w);
    LoadUpdate(st.conns, w, x, conns[x]);
  }

  lemma TouchedWeight(conn: Conn, conn': Conn, w: nat)
    requires conn'.client == conn.client && |conn'.down| <= |conn.down| + 1
    requires conn'.up == conn.up || (conn.up != [] && conn'.up == conn.up[1..])
    ensures Weight(conn', w) <= Weight(conn, w) + 1
  {
    MulMonotone(w, Unsent(conn'), Unsent(conn));
  }

  lemma ServerWork(s: Suite, st: State, e: Event)
    requires Safe(s, st) && e.ServerStep? && Enabled(st, e)
    ensures Work(Apply(s, st, e).server, |st.conns|) < Work(st.server, |st.conns|)
  {
    hide Rounds, AllOk, Welcoming;
    var p :| Inv(s, st, p);
    if st.server.Rotate? {
      RoundsLeft(|st.conns|, st.server.round);
    }
  }

  lemma StepDecreases(s: Suite, st: State, e: Event)
    requires Safe(s, st) && Internal(e) && Enabled(st, e)
    ensures |Apply(s, st, e).conns| == |st.conns|
    ensures Measure(Apply(s, st, e)) < Measure(st)
  {
    if e.ClientStep? {
      ClientDecreases(s, st, e.client);
    } else if e.Forward? {
      var p :| Inv(s, st, p);
      ForwardOk(s, st, p, e.client);
      ForwardDecreases(s, st, e.client);
    } else {
      hide Apply, Work, Load, Safe;
      ServerLoad(s, st, e, |st.conns| + 1);
      ServerWork(s, st, e);
    }
  }

  /** Every run of the exchange is finite: it has at most as many steps as the measure says. */
  lemma {:induction false} RunsAreFinite(s: Suite, st: State, events: seq<Event>, end: State)
    requires Commutes(s) && Safe(s, st) && Run(s, st, events, end)
    requires forall e :: e in events ==> Internal(e)
    ensures Safe(s, end) && 0 <= Measure(end) && |events| <= Measure(st) - Measure(end)
    decreases |events|
  {
    if events == [] {
      MeasureNatural(s, st);
    } else {
      StepSafe(s, st, events[0]);
      StepDecreases(s, st, events[0]);
      assert forall e :: e in events[1..] ==> e in events;
      hide Measure, Safe, Apply;
      RunsAreFinite(s, Apply(s, st, events[0]), events[1..], end);
    }
  }

  /** From any reachable state, letting the parties take steps in any order until none is possible
      ends in a quiescent state, or with the daemon ended. */
  lemma MaximalRunsEndQuiescent(s: Suite, st: State, events: seq<Event>, end: State)
    requires Commutes(s) && Safe(s, st) && Run(s, st, events, end)
    requires forall e :: Internal(e) ==> !Enabled(end, e)
    ensures Safe(s, end) && (Quiescent(end) || Over(end))
  {
    RunSafe(s, st, events, end);
    if !Quiescent(end) && !Over(end) {
      var e := NotStuck(s, end);
    }
  }

  /** And some such run exists. */
  lemma Completes(s: Suite, st: State) returns (events: seq<Event>, end: State)
    requires Commutes(s) && Safe(s, st)
    ensures Run(s, st, events, end) && (forall e :: e in events ==> Internal(e))
    ensures Safe(s, end) && (Quiescent(end) || Over(end))
    decreases Measure(st)
  {
    if Quiescent(st) || Over(st) {
      events, end := [], st;
    } else {
      var e := NotStuck(s, st);
      StepSafe(s, st, e);
      StepDecreases(s, st, e);
      MeasureNatural(s, Apply(s, st, e));
      var rest;
      rest, end := Completes(s, Apply(s, st, e));
      events := [e] + rest;
      assert events[1..] == rest;
    }
  }

  /** The whole story: after any run from start-up, once nothing is left to handle, the keys agree. */
  lemma Agreement(s: Suite, key: Key, events: seq<Event>, end: State, i: nat)
    requires Commutes(s) && Run(s, Init(key), events, end) && Quiescent(end) && i < |end.conns|
    ensures end.conns[i].client.phase.Listening? && end.conns[i].client.ctrl == end.key
    ensures |end.conns| >= 2 ==> end.conns[i].client.session == end.conns[0].client.session
  {
    InitSafe(s, key);
    RunSafe(s, Init(key), events, end);
    KeysAgree(s, end, i);
    if |end.conns| >= 2 {
      KeysAgree(s, end, 0);
    }
  }
}
