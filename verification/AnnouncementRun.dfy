/** A run in which nobody but the program sends anything, and the daemon ends: the announcement of the
    first client is still waiting when a third one is admitted. */
module AnnouncementRun {
  import opened GroupSecret
  import opened Protocol
  import opened ProtocolSafety
  import opened ProtocolCables
  import opened ProtocolLiveness
  import opened ExchangeOutcome

  // Events of the program alone, and of clients arriving.
  predicate Plain(events: seq<Event>) {
    forall e :: e in events ==> e.Join? || Internal(e)
  }

  lemma {:induction false} RunConcat(s: Suite, st: State, a: seq<Event>, mid: State, b: seq<Event>, end: State)
    requires Run(s, st, a, mid) && Run(s, mid, b, end)
    ensures Run(s, st, a + b, end)
    decreases |a|
  {
    if a == [] {
      assert a + b == b;
    } else {
      assert (a + b)[1..] == a[1..] + b;
      RunConcat(s, Apply(s, st, a[0]), a[1..], mid, b, end);
    }
  }

  // A client whose public key has been read and answered.
  function Greeted(s: Suite, a: Key, b: Key, key: Key): Conn {
    Conn(Client(Greeting(a), s.zero, s.zero, false),
         [ServerPublic(s.kx(b, s.base)), SessionKey(s.kx(b, s.kx(a, s.base)), key)], [])
  }

  // The last of a number of connections is replaced.
  lemma ReplaceLast(conns: seq<Conn>, x: Conn, y: Conn)
    ensures (conns + [x])[|conns| := y] == conns + [y]
  {}

  // A client is admitted, and has read nothing yet.
  lemma JoinRun(s: Suite, st: State, a: Key, b: Key, renewed: Key, draws: seq<Key>) returns (events: seq<Event>)
    requires st.server.Idle? && |draws| == |st.conns| + 1
    ensures Plain(events)
    ensures Run(s, st, events, Begin(st.conns + [Greeted(s, a, b, st.key)], st.key, renewed, draws))
  {
    hide Begin;
    var n, key := |st.conns|, st.key;
    var pub, answer := s.kx(a, s.base), ServerPublic(s.kx(b, s.base));
    var c0 := Conn(Client(Connecting(a), s.zero, s.zero, false), [], []);
    var g := Client(Greeting(a), s.zero, s.zero, false);
    var c1, c2, c3, c4 := Conn(g, [], [ClientPublic(pub)]), Conn(g, [], []), Conn(g, [answer], []), Greeted(s, a, b, key);
    var s1 := State(st.conns + [c0], key, AwaitPublic, st.draws);
    var s2 := State(st.conns + [c1], key, AwaitPublic, st.draws);
    var s3 := State(st.conns + [c2], key, GotPublic(pub), st.draws);
    var s4 := State(st.conns + [c3], key, SentPublic(s.kx(b, pub)), st.draws);
    var s5 := Begin(st.conns + [c4], key, renewed, draws);
    var step := ServerStep(b, renewed, draws);
    ReplaceLast(st.conns, c0, c1);
    ReplaceLast(st.conns, c1, c2);
    ReplaceLast(st.conns, c2, c3);
    ReplaceLast(st.conns, c3, c4);
    assert c0.up + [ClientPublic(pub)] == [ClientPublic(pub)] && [ClientPublic(pub)][1..] == [];
    assert Push(c2, answer) == c3 && Push(c3, SessionKey(s.kx(b, pub), key)) == c4;
    assert Apply(s, s4, step) == s5;
    OneMore(s, s4, step, [], s5, s5);
    assert Apply(s, s3, step) == s4;
    OneMore(s, s3, step, [step], s4, s5);
    assert Apply(s, s2, step) == s3;
    OneMore(s, s2, step, [step] + [step], s3, s5);
    var rest := [step] + ([step] + [step]);
    assert Apply(s, s1, ClientStep(n)) == s2;
    OneMore(s, s1, ClientStep(n), rest, s2, s5);
    assert Apply(s, st, Join(a)) == s1;
    OneMore(s, st, Join(a), [ClientStep(n)] + rest, s1, s5);
    events := [Join(a)] + ([ClientStep(n)] + rest);
  }

  // A greeted client reads everything up to the control message of an exchange of two.
  lemma ReadRun(s: Suite, st: State, i: nat, a: Key, b: Key, key: Key, renewed: Key) returns (events: seq<Event>)
    requires Commutes(s) && st.server.Rotate? && i < |st.conns| && i < |st.draws|
    requires st.conns[i] == Push(Greeted(s, a, b, key), Ctrl(key, 1, renewed))
    ensures Plain(events)
    ensures var c := Client(Exchanging(st.draws[i], 0, 1, renewed), key, s.zero, false);
            Run(s, st, events, st.(conns := st.conns[i := Conn(c, [], [Inter(s.kx(st.draws[i], s.base))])]))
  {
    hide ClientNext, React;
    var e, d, shared := ClientStep(i), st.draws[i], s.kx(a, s.kx(b, s.base));
    var key0, ctrl := SessionKey(shared, key), Ctrl(key, 1, renewed);
    var x1 := Conn(Client(Shared(shared), s.zero, s.zero, false), [key0, ctrl], []);
    var x2 := Conn(Client(Listening, key, s.zero, false), [ctrl], []);
    var x3 := Conn(Client(Exchanging(d, 0, 1, renewed), key, s.zero, false), [], [Inter(s.kx(d, s.base))]);
    ReadSteps(s, st.conns[i], a, b, key, renewed, d);
    var s1, s2, s3 := st.(conns := st.conns[i := x1]), st.(conns := st.conns[i := x2]), st.(conns := st.conns[i := x3]);
    assert s1.conns[i := x2] == s2.conns && s2.conns[i := x3] == s3.conns;
    assert Apply(s, s2, e) == s3;
    OneMore(s, s2, e, [], s3, s3);
    assert Apply(s, s1, e) == s2;
    OneMore(s, s1, e, [e], s2, s3);
    assert Apply(s, st, e) == s1;
    OneMore(s, st, e, [e] + [e], s1, s3);
    events := [e] + ([e] + [e]);
  }

  lemma ReplaceTwo(x: Conn, y: Conn, x': Conn, y': Conn)
    ensures [x, y][0 := x'] == [x', y] && [x, y][1 := y'] == [x, y']
  {}

  lemma ReadSteps(s: Suite, x0: Conn, a: Key, b: Key, key: Key, renewed: Key, d: Key)
    requires Commutes(s) && x0 == Push(Greeted(s, a, b, key), Ctrl(key, 1, renewed))
    ensures var shared := s.kx(a, s.kx(b, s.base));
            var key0, ctrl := SessionKey(shared, key), Ctrl(key, 1, renewed);
            var x1 := Conn(Client(Shared(shared), s.zero, s.zero, false), [key0, ctrl], []);
            var x2 := Conn(Client(Listening, key, s.zero, false), [ctrl], []);
            ClientNext(s, x0, d) == x1 && ClientNext(s, x1, d) == x2
            && ClientNext(s, x2, d) == Conn(Client(Exchanging(d, 0, 1, renewed), key, s.zero, false), [], [Inter(s.kx(d, s.base))])
            && x0.down == [ServerPublic(s.kx(b, s.base)), key0, ctrl]
  {
    var shared := s.kx(a, s.kx(b, s.base));
    var key0, ctrl := SessionKey(shared, key), Ctrl(key, 1, renewed);
    assert shared == s.kx(b, s.kx(a, s.base));
    assert x0.down == [ServerPublic(s.kx(b, s.base)), key0, ctrl];
    assert x0.down[1..] == [key0, ctrl] && [key0, ctrl][1..] == [ctrl] && [ctrl][1..] == [];
    var none: seq<Msg> := [];
    assert none + none == none && none + [Inter(s.kx(d, s.base))] == [Inter(s.kx(d, s.base))];
  }

  // Both greeted clients are sent the control message.
  lemma BroadcastRun(s: Suite, x: Conn, y: Conn, key: Key, renewed: Key, draws: seq<Key>) returns (events: seq<Event>)
    requires |draws| == 2
    ensures Plain(events)
    ensures var m := Ctrl(key, 1, renewed);
            Run(s, State([x, y], renewed, Broadcast(0, key), draws), events,
                State([Push(x, m), Push(y, m)], renewed, Rotate(0, 0, []), draws))
  {
    var m, step := Ctrl(key, 1, renewed), ServerStep([], [], []);
    var s0 := State([x, y], renewed, Broadcast(0, key), draws);
    var s1 := State([Push(x, m), y], renewed, Broadcast(1, key), draws);
    var s2 := State([Push(x, m), Push(y, m)], renewed, Rotate(0, 0, []), draws);
    ReplaceTwo(x, y, Push(x, m), y);
    ReplaceTwo(Push(x, m), y, x, Push(y, m));
    assert Apply(s, s1, step) == s2;
    OneMore(s, s1, step, [], s2, s2);
    assert Apply(s, s0, step) == s1;
    OneMore(s, s0, step, [step], s1, s2);
    events := [step] + [step];
  }

  // The one round of an exchange of two: each intermediate goes to the other client.
  lemma RotateRun(s: Suite, c: Client, d: Client, u: Msg, v: Msg, renewed: Key, draws: seq<Key>) returns (events: seq<Event>)
    requires u.Inter? && v.Inter?
    ensures Plain(events)
    ensures Run(s, State([Conn(c, [], [u]), Conn(d, [], [v])], renewed, Rotate(0, 0, []), draws), events,
                State([Conn(c, [v], []), Conn(d, [u], [])], renewed, Idle, draws))
  {
    hide React, Begin, Fan;
    var step := ServerStep([], [], []);
    var x0, x1, x2 := Conn(c, [], [u]), Conn(c, [], []), Conn(c, [v], []);
    var y0, y1, y2 := Conn(d, [], [v]), Conn(d, [u], [v]), Conn(d, [u], []);
    var s0 := State([x0, y0], renewed, Rotate(0, 0, []), draws);
    var s1 := State([x1, y0], renewed, Rotate(0, 0, [u.key]), draws);
    var s2 := State([x1, y1], renewed, Rotate(0, 1, []), draws);
    var s3 := State([x1, y2], renewed, Rotate(0, 1, [v.key]), draws);
    var s4 := State([x2, y2], renewed, Idle, draws);
    assert [u][1..] == [] && [v][1..] == [];
    assert Push(x1, v) == x2 && Push(y0, u) == y1;
    ReplaceTwo(x0, y0, x1, y0);
    ReplaceTwo(x1, y0, x1, y1);
    ReplaceTwo(x1, y1, x1, y2);
    ReplaceTwo(x1, y2, x2, y2);
    assert Apply(s, s3, step) == s4;
    OneMore(s, s3, step, [], s4, s4);
    assert Apply(s, s2, step) == s3;
    OneMore(s, s2, step, [step], s3, s4);
    assert Apply(s, s1, step) == s2;
    OneMore(s, s1, step, [step] + [step], s2, s4);
    assert Apply(s, s0, step) == s1;
    OneMore(s, s0, step, [step] + ([step] + [step]), s1, s4);
    events := [step] + ([step] + ([step] + [step]));
  }

  // The first client ends its first exchange and announces itself.
  lemma AnnounceRun(s: Suite, own: Key, d: Client, u: Msg, v: Msg, ctrl: Key, renewed: Key, draws: seq<Key>)
      returns (events: seq<Event>, end: State)
    requires v.Inter?
    ensures var c := Client(Exchanging(own, 0, 1, renewed), ctrl, s.zero, false);
            Plain(events) && Run(s, State([Conn(c, [v], []), Conn(d, [u], [])], renewed, Idle, draws), events, end)
    ensures end.server.Idle? && |end.conns| == 2 && end.conns[0].up != [] && end.conns[0].up[0].Cable?
  {
    var c := Client(Exchanging(own, 0, 1, renewed), ctrl, s.zero, false);
    var st := State([Conn(c, [v], []), Conn(d, [u], [])], renewed, Idle, draws);
    events := [ClientStep(0)];
    end := Apply(s, st, ClientStep(0));
    OneMore(s, st, ClientStep(0), [], end, end);
  }

  /** Two clients join, one of them ends its first exchange, a third joins: an exchange has begun with the
      announcement in its way, and will fail. */
  lemma AnnouncementInTheWay(s: Suite, key: Key, renewed: Key, a: seq<Key>, b: seq<Key>, draws: seq<Key>)
      returns (events: seq<Event>, st: State)
    requires Commutes(s) && |a| == |b| == |draws| == 3
    ensures Plain(events) && Run(s, Init(key), events, st)
    ensures Exchange(st) && |st.conns| == 3 && Disturbed(st, 0)
  {
    hide Disturbed;
    var d2 := draws[..2];
    var x, y := Greeted(s, a[0], b[0], key), Greeted(s, a[1], b[1], key);
    var s1 := State([x], key, Idle, draws[..1]);
    var s2 := State([x, y], renewed, Broadcast(0, key), d2);
    var e1 := JoinRun(s, Init(key), a[0], b[0], renewed, draws[..1]);
    var none: seq<Conn> := [];
    assert none + [x] == [x] && [x] + [y] == [x, y];
    var e2 := JoinRun(s, s1, a[1], b[1], renewed, d2);
    RunConcat(s, Init(key), e1, s1, e2, s2);
    var e3, s3 := FirstExchange(s, s2, a, b, key);
    RunConcat(s, Init(key), e1 + e2, s2, e3, s3);
    var e4 := JoinRun(s, s3, a[2], b[2], renewed, draws);
    st := Begin(s3.conns + [Greeted(s, a[2], b[2], s3.key)], s3.key, renewed, draws);
    RunConcat(s, Init(key), e1 + e2 + e3, s3, e4, st);
    events := e1 + e2 + e3 + e4;
    CableDisturbs(st);
  }

  lemma CableDisturbs(st: State)
    requires st.server.Broadcast? && |st.conns| >= 2 && st.conns[0].up != [] && st.conns[0].up[0].Cable?
    ensures Disturbed(st, 0)
  {}

  // From the beginning of the exchange of two to the announcement of the first client.
  lemma FirstExchange(s: Suite, st: State, a: seq<Key>, b: seq<Key>, key: Key) returns (events: seq<Event>, end: State)
    requires Commutes(s) && |a| == |b| == 3 && |st.draws| == 2
    requires st.server == Broadcast(0, key) && st.conns == [Greeted(s, a[0], b[0], key), Greeted(s, a[1], b[1], key)]
    ensures Plain(events) && Run(s, st, events, end)
    ensures end.server.Idle? && |end.conns| == 2 && end.conns[0].up != [] && end.conns[0].up[0].Cable?
  {
    var renewed, draws := st.key, st.draws;
    var x, y, m := st.conns[0], st.conns[1], Ctrl(key, 1, st.key);
    var u, v := Inter(s.kx(draws[0], s.base)), Inter(s.kx(draws[1], s.base));
    var c := Client(Exchanging(draws[0], 0, 1, renewed), key, s.zero, false);
    var d := Client(Exchanging(draws[1], 0, 1, renewed), key, s.zero, false);
    var t1 := State([Push(x, m), Push(y, m)], renewed, Rotate(0, 0, []), draws);
    var t2 := State([Conn(c, [], [u]), Push(y, m)], renewed, Rotate(0, 0, []), draws);
    var t3 := State([Conn(c, [], [u]), Conn(d, [], [v])], renewed, Rotate(0, 0, []), draws);
    var t4 := State([Conn(c, [v], []), Conn(d, [u], [])], renewed, Idle, draws);
    hide Run, Greeted;
    assert st == State([x, y], renewed, Broadcast(0, key), draws);
    var f1 := BroadcastRun(s, x, y, key, renewed, draws);
    ReplaceTwo(Push(x, m), Push(y, m), Conn(c, [], [u]), y);
    var f2 := ReadRun(s, t1, 0, a[0], b[0], key, renewed);
    ReplaceTwo(Conn(c, [], [u]), Push(y, m), x, Conn(d, [], [v]));
    var f3 := ReadRun(s, t2, 1, a[1], b[1], key, renewed);
    var f4 := RotateRun(s, c, d, u, v, renewed, draws);
    var f5;
    f5, end := AnnounceRun(s, draws[0], d, u, v, key, renewed, draws);
    RunConcat(s, st, f1, t1, f2, t2);
    RunConcat(s, st, f1 + f2, t2, f3, t3);
    RunConcat(s, st, f1 + f2 + f3, t3, f4, t4);
    RunConcat(s, st, f1 + f2 + f3 + f4, t4, f5, end);
    events := f1 + f2 + f3 + f4 + f5;
  }

  lemma NothingLeft(s: Suite, st: State, e: Event)
    requires Safe(s, st) && (Quiescent(st) || Over(st)) && Internal(e)
    ensures !Enabled(st, e)
  {
    if e.ClientStep? && Quiescent(st) && e.client < |st.conns| {
      KeysAgree(s, st, e.client);
    }
  }

  /** So the program alone can bring the daemon down: three clients join, and its own announcement makes
      the second exchange fail. */
  lemma AnnouncementEndsDaemon(s: Suite, key: Key, renewed: Key, a: seq<Key>, b: seq<Key>, draws: seq<Key>)
      returns (events: seq<Event>, end: State)
    requires Commutes(s) && |a| == |b| == |draws| == 3
    ensures Plain(events) && Run(s, Init(key), events, end) && end.server.Failed?
  {
    hide Disturbed, Safe;
    var first, st := AnnouncementInTheWay(s, key, renewed, a, b, draws);
    InitSafe(s, key);
    RunSafe(s, Init(key), first, st);
    var rest;
    rest, end := Completes(s, st);
    forall e | Internal(e) ensures !Enabled(end, e) {
      NothingLeft(s, end, e);
    }
    FailsExactlyIfDisturbed(s, st, rest, end);
    RunConcat(s, Init(key), first, st, rest, end);
    events := first + rest;
  }
}
