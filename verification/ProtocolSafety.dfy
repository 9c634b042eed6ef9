/** What every reachable state of the key exchange satisfies, for any interleaving. */
module ProtocolSafety {
  import opened GroupSecret
  import opened Protocol

  // One exchange: the control key it is announced under, the one it carries, and the secrets drawn.
  datatype Epoch = Epoch(previous: Key, renewed: Key, d: seq<Key>)

  // The k-th message of the exchange to client i, and the k-th message from client i.
  ghost function DownMsg(s: Suite, e: Epoch, i: nat, k: nat): Msg
    requires i < |e.d|
  {
    if k == 0 then Ctrl(e.previous, |e.d| - 1, e.renewed)
    else Inter(Intermediate(s, e.d, Left(i, |e.d|), k - 1))
  }

  ghost function UpMsg(s: Suite, e: Epoch, i: nat, k: nat): Msg
    requires i < |e.d|
  {
    Inter(Intermediate(s, e.d, i, k))
  }

  // How many messages a client has sent once it has handled `got` messages of the exchange.
  function Sent(got: nat, n: nat): nat
    requires n > 0
  {
    if got < n then got else n - 1
  }

  // A queue without its cables: what the key exchanges put there.
  function Keys(q: seq<Msg>): (r: seq<Msg>)
    ensures |r| <= |q|
  {
    if q == [] then [] else (if q[0].Cable? then [] else [q[0]]) + Keys(q[1..])
  }

  lemma {:induction false} KeysAppend(a: seq<Msg>, b: seq<Msg>)
    ensures Keys(a + b) == Keys(a) + Keys(b)
  {
    if a == [] {
      assert a + b == b;
    } else {
      assert (a + b)[1..] == a[1..] + b;
      KeysAppend(a[1..], b);
    }
  }

  lemma KeysOne(m: Msg)
    ensures Keys([m]) == if m.Cable? then [] else [m]
  {
    assert [m][1..] == [];
  }

  /** What is still queued (pre) from before the current exchange leaves the client in its receive
      loop, holding `key`, without sending anything but its announcement. */
  ghost predicate Pending(s: Suite, c: Client, pre: seq<Msg>, key: Key) {
    match c.phase
    case Greeting(secret) =>
      && |pre| >= 2 && pre[0].ServerPublic? && pre[1] == SessionKey(s.kx(secret, pre[0].key), key)
      && Keys(pre[2..]) == []
    case Shared(shared) => |pre| >= 1 && pre[0] == SessionKey(shared, key) && Keys(pre[1..]) == []
    case Listening => Keys(pre) == [] && c.ctrl == key
    case Exchanging(_, done, rounds, renewed) =>
      && |pre| >= 1 && pre[0].Inter? && done + 1 == rounds && renewed == key && Keys(pre[1..]) == []
    case _ => false
  }

  // The client still has to end its first exchange, and will announce itself then.
  predicate Owes(c: Client) { c.phase.Exchanging? && !c.announced }

  // The session key of the client once it has handled what is queued.
  ghost function FinalSession(s: Suite, c: Client, pre: seq<Msg>): Key {
    if c.phase.Exchanging? && |pre| >= 1 && pre[0].Inter? then s.digest(s.kx(c.phase.own, pre[0].key))
    else c.session
  }

  // Client i after handling got > 0 messages of the exchange.
  ghost predicate InExchange(s: Suite, e: Epoch, i: nat, c: Client, got: nat)
    requires i < |e.d| && got > 0
  {
    var n := |e.d|;
    if got < n then c.phase == Exchanging(e.d[i], got - 1, n - 1, e.renewed)
    else c == Client(Listening, e.renewed, s.digest(Intermediate(s, e.d, i, n - 1)), true)
  }

  /** Connection i during an exchange: the client has handled `got` of the `snt` messages the daemon
      sent it, and the daemon has read `rcvd` of those the client sent.  Nothing is lost, reordered
      or left over, whatever cables lie between. */
  ghost predicate ConnOk(s: Suite, e: Epoch, i: nat, conn: Conn, got: nat, snt: nat, rcvd: nat) {
    && i < |e.d| && got <= snt <= |e.d|
    && snt - got <= |conn.down|
    && var lag := |conn.down| - (snt - got);
    && (forall k :: lag <= k < |conn.down| ==> conn.down[k] == DownMsg(s, e, i, got + (k - lag)))
    && rcvd + |Keys(conn.up)| == Sent(got, |e.d|)
    && (forall j :: 0 <= j < |Keys(conn.up)| ==> Keys(conn.up)[j] == UpMsg(s, e, i, rcvd + j))
    && if got == 0 then Pending(s, conn.client, conn.down[..lag], e.previous)
       else lag == 0 && InExchange(s, e, i, conn.client, got)
  }

  // A connection between exchanges.
  ghost predicate Rested(s: Suite, conn: Conn, key: Key) {
    Keys(conn.up) == [] && Pending(s, conn.client, conn.down, key)
  }

  // The connection being welcomed.
  ghost predicate Newcomer(s: Suite, conn: Conn, server: Server) {
    match server
    case AwaitPublic =>
      conn.down == [] &&
      (match conn.client.phase
       case Connecting(_) => conn.up == []
       case Greeting(a) => conn.up == [ClientPublic(s.kx(a, s.base))]
       case _ => false)
    case GotPublic(public) =>
      && conn.down == [] && conn.up == [] && conn.client.phase.Greeting?
      && public == s.kx(conn.client.phase.secret, s.base)
    case SentPublic(shared) =>
      conn.up == [] &&
      (match conn.client.phase
       case Greeting(a) => |conn.down| == 1 && conn.down[0].ServerPublic? && s.kx(a, conn.down[0].key) == shared
       case Shared(x) => conn.down == [] && x == shared
       case _ => false)
    case _ => false
  }

  // Messages of the exchange sent to client i, and read from it, when the daemon is at `server`.
  function Snt(server: Server, i: nat, n: nat): nat
    requires i < n
  {
    match server
    case Broadcast(next, _) => if i < next then 1 else 0
    case Rotate(round, at, _) => if Left(i, n) < at then round + 2 else round + 1
    case _ => 0
  }

  function Rcvd(server: Server, i: nat): nat {
    match server
    case Rotate(round, at, held) => if i < at || (i == at && held != []) then round + 1 else round
    case _ => 0
  }

  // got[i]: messages of the current exchange handled by client i.
  datatype Progress = Progress(got: seq<nat>, previous: Key)

  ghost predicate ConnsOk(s: Suite, e: Epoch, conns: seq<Conn>, got: seq<nat>, server: Server) {
    && |e.d| == |got| == |conns|
    && forall i :: 0 <= i < |conns| ==>
         ConnOk(s, e, i, conns[i], got[i], Snt(server, i, |conns|), Rcvd(server, i))
  }

  ghost predicate AllOk(s: Suite, st: State, p: Progress) {
    |st.conns| >= 2 && ConnsOk(s, Epoch(p.previous, st.key, st.draws), st.conns, p.got, st.server)
  }

  ghost predicate Welcoming(s: Suite, st: State) {
    && |st.conns| > 0
    && (forall i :: 0 <= i < |st.conns| - 1 ==> Rested(s, st.conns[i], st.key))
    && Newcomer(s, st.conns[|st.conns| - 1], st.server)
  }

  ghost predicate Resting(s: Suite, st: State) {
    && (forall i :: 0 <= i < |st.conns| ==> Rested(s, st.conns[i], st.key))
    && (|st.conns| >= 2 ==>
          && |st.draws| == |st.conns|
          && forall i :: 0 <= i < |st.conns| ==>
               FinalSession(s, st.conns[i].client, st.conns[i].down) == RingKey(s, st.draws))
  }

  ghost predicate Inv(s: Suite, st: State, p: Progress) {
    match st.server
    case Idle => Resting(s, st)
    case AwaitPublic => Welcoming(s, st)
    case GotPublic(_) => Welcoming(s, st)
    case SentPublic(_) => Welcoming(s, st)
    case Broadcast(next, previous) => next < |st.conns| && p.previous == previous && AllOk(s, st, p)
    case Rotate(round, at, held) =>
      && AllOk(s, st, p)
      && round + 1 < |st.conns| && at < |st.conns|
      && (held == [] || held == [Intermediate(s, st.draws, at, round)])
    case Aborted => st.conns == []
    case Failed => forall i :: 0 <= i < |st.conns| ==> !st.conns[i].client.phase.Broken?
  }

  ghost predicate Safe(s: Suite, st: State) {
    exists p :: Inv(s, st, p)
  }

  // ---- Steps of a client ----

  lemma PendingStep(s: Suite, c: Client, pre: seq<Msg>, key: Key, draw: Key)
    requires Pending(s, c, pre, key) && pre != []
    ensures !c.phase.Connecting?
    ensures var (c', out) := React(s, c, pre[0], draw);
            && Pending(s, c', pre[1..], key) && !Owes(c')
            && FinalSession(s, c', pre[1..]) == FinalSession(s, c, pre)
            && Keys(out) == [] && (out == [] <==> !Owes(c)) && |out| <= 1
  {
    if c.phase.Listening? {
      assert pre[0].Cable?;
    } else if c.phase.Greeting? {
      assert pre[1..][1..] == pre[2..];
    }
  }

  lemma RestedStep(s: Suite, conn: Conn, key: Key, draw: Key)
    requires Rested(s, conn, key) && conn.down != []
    ensures var conn' := ClientNext(s, conn, draw);
            && Rested(s, conn', key)
            && FinalSession(s, conn'.client, conn'.down) == FinalSession(s, conn.client, conn.down)
  {
    PendingStep(s, conn.client, conn.down, key, draw);
    var (c, out) := React(s, conn.client, conn.down[0], draw);
    KeysAppend(conn.up, out);
  }

  // Handling one message of the exchange.
  lemma ExchangeStep(s: Suite, e: Epoch, i: nat, c: Client, got: nat)
    requires i < |e.d| && |e.d| >= 2 && got < |e.d|
    requires if got == 0 then Pending(s, c, [], e.previous) else InExchange(s, e, i, c, got)
    ensures !c.phase.Connecting?
    ensures var (c', out) := React(s, c, DownMsg(s, e, i, got), e.d[i]);
            && InExchange(s, e, i, c', got + 1) && |out| <= 1
            && if got + 1 < |e.d| then out == [UpMsg(s, e, i, got)]
               else Keys(out) == [] && (out == [] <==> c.announced)
    ensures got == 0 ==> !Owes(c)
  {}

  // Handling one message during an exchange, and what is sent in return.
  lemma ConnStep(s: Suite, e: Epoch, i: nat, conn: Conn, got: nat, snt: nat, rcvd: nat)
      returns (got': nat, out: seq<Msg>)
    requires |e.d| >= 2 && ConnOk(s, e, i, conn, got, snt, rcvd)
    requires conn.down != []
    ensures var conn' := ClientNext(s, conn, e.d[i]);
            && ConnOk(s, e, i, conn', got', snt, rcvd) && conn'.up == conn.up + out && |out| <= 1
            && if got' == got then
                 got == 0 && Keys(out) == [] && (out == [] <==> !Owes(conn.client)) && !Owes(conn'.client)
               else
                 got' == got + 1 && (got == 0 ==> !Owes(conn.client))
                 && if got' < |e.d| then out == [UpMsg(s, e, i, got)] else Keys(out) == []
  {
    hide React, Pending, InExchange, DownMsg, UpMsg, Keys, Owes;
    var lag := |conn.down| - (snt - got);
    var next := ClientNext(s, conn, e.d[i]);
    var (c, o) := React(s, conn.client, conn.down[0], e.d[i]);
    out := o;
    KeysAppend(conn.up, out);
    if lag > 0 {
      got' := got;
      var pre := conn.down[..lag];
      PendingStep(s, conn.client, pre, e.previous, e.d[i]);
      assert pre[0] == conn.down[0];
      assert next.down[..lag - 1] == pre[1..];
    } else {
      got' := got + 1;
      assert conn.down[0] == DownMsg(s, e, i, got);
      assert conn.down[..lag] == [];
      ExchangeStep(s, e, i, conn.client, got);
      ExchangeOut(s, e, i, got, out);
    }
  }

  lemma ExchangeOut(s: Suite, e: Epoch, i: nat, got: nat, out: seq<Msg>)
    requires i < |e.d| && got < |e.d|
    requires if got + 1 < |e.d| then out == [UpMsg(s, e, i, got)] else Keys(out) == []
    ensures |Keys(out)| == Sent(got + 1, |e.d|) - Sent(got, |e.d|)
    ensures forall j :: 0 <= j < |Keys(out)| ==> Keys(out)[j] == UpMsg(s, e, i, got + j)
  {
    if got + 1 < |e.d| {
      KeysOne(UpMsg(s, e, i, got));
    }
  }

  // ---- Steps of the daemon ----

  lemma PushOk(s: Suite, e: Epoch, i: nat, conn: Conn, got: nat, snt: nat, rcvd: nat)
    requires ConnOk(s, e, i, conn, got, snt, rcvd) && snt < |e.d|
    ensures ConnOk(s, e, i, Push(conn, DownMsg(s, e, i, snt)), got, snt + 1, rcvd)
  {
    hide Keys, Pending, InExchange, UpMsg, DownMsg, Sent;
    var next := Push(conn, DownMsg(s, e, i, snt));
    var lag := |conn.down| - (snt - got);
    assert next.down[..lag] == conn.down[..lag];
  }

  // What the daemon reads next is the next message the client sent, unless a cable comes first.
  lemma PopOk(s: Suite, e: Epoch, i: nat, conn: Conn, got: nat, snt: nat, rcvd: nat)
    requires ConnOk(s, e, i, conn, got, snt, rcvd) && conn.up != [] && !conn.up[0].Cable?
    ensures conn.up[0] == UpMsg(s, e, i, rcvd)
    ensures ConnOk(s, e, i, conn.(up := conn.up[1..]), got, snt, rcvd + 1)
  {
    assert Keys(conn.up)[0] == UpMsg(s, e, i, rcvd + 0);
    assert Keys(conn.up[1..]) == Keys(conn.up)[1..];
    hide Keys;
  }

  lemma StartOk(s: Suite, e: Epoch, i: nat, conn: Conn)
    requires i < |e.d| && Rested(s, conn, e.previous)
    ensures ConnOk(s, e, i, conn, 0, 0, 0)
  {
    assert conn.down[..|conn.down|] == conn.down;
  }

  // All messages sent and all answers read: the client is done, or has one last message to handle.
  lemma FinishOk(s: Suite, e: Epoch, i: nat, conn: Conn, got: nat)
    requires Commutes(s) && |e.d| >= 2 && ConnOk(s, e, i, conn, got, |e.d|, |e.d| - 1)
    ensures Rested(s, conn, e.renewed)
    ensures FinalSession(s, conn.client, conn.down) == RingKey(s, e.d)
  {
    hide Keys, UpMsg, RingKey;
    var n := |e.d|;
    Agreement(s, e.d, i);
    assert n - 1 <= got <= n;
    if got < n {
      assert conn.down[0] == DownMsg(s, e, i, got + (0 - 0));
      assert conn.down == [DownMsg(s, e, i, n - 1)];
    }
  }

  lemma BeginOk(s: Suite, conns: seq<Conn>, key: Key, renewed: Key, draws: seq<Key>) returns (p: Progress)
    requires forall i :: 0 <= i < |conns| ==> Rested(s, conns[i], key)
    requires |draws| == |conns|
    ensures Inv(s, Begin(conns, key, renewed, draws), p)
  {
    p := Progress(seq(|conns|, _ => 0), key);
    if |conns| >= 2 {
      var e := Epoch(key, renewed, draws);
      forall i | 0 <= i < |conns| ensures ConnOk(s, e, i, conns[i], 0, 0, 0) {
        StartOk(s, e, i, conns[i]);
      }
    }
  }

  lemma RestedSlots(s: Suite, conns: seq<Conn>, key: Key, i: nat)
    requires forall j :: 0 <= j < |conns| ==> Rested(s, conns[j], key)
    requires i < |conns|
    ensures forall j :: 0 <= j < |conns| - 1 ==> Rested(s, RemoveSlot(conns, i)[j], key)
  {}

  lemma WelcomeStep(s: Suite, st: State, secret: Key, renewed: Key, draws: seq<Key>) returns (p: Progress)
    requires Commutes(s) && Welcoming(s, st)
    requires st.server.AwaitPublic? || st.server.GotPublic? || st.server.SentPublic?
    requires Enabled(st, ServerStep(secret, renewed, draws))
    ensures Inv(s, ServerNext(s, st, secret, renewed, draws), p)
  {
    var n := |st.conns|;
    var conn := st.conns[n - 1];
    p := Progress([], []);
    if st.server.SentPublic? {
      var conns := st.conns[n - 1 := Push(conn, SessionKey(st.server.shared, st.key))];
      assert Rested(s, conns[n - 1], st.key);
      p := BeginOk(s, conns, st.key, renewed, draws);
    } else if st.server.GotPublic? {
      var a, b := conn.client.phase.secret, secret;
      assert s.kx(a, s.kx(b, s.base)) == s.kx(b, s.kx(a, s.base));
    }
  }

  // A step of the daemon that touches connection x only.
  lemma ConnsStep(s: Suite, e: Epoch, conns: seq<Conn>, got: seq<nat>, server: Server,
                  x: nat, conn: Conn, server': Server)
    requires ConnsOk(s, e, conns, got, server) && x < |conns|
    requires ConnOk(s, e, x, conn, got[x], Snt(server', x, |conns|), Rcvd(server', x))
    requires forall i :: 0 <= i < |conns| && i != x ==>
               Snt(server', i, |conns|) == Snt(server, i, |conns|) && Rcvd(server', i) == Rcvd(server, i)
    ensures ConnsOk(s, e, conns[x := conn], got, server')
  {
    hide ConnOk, Snt, Rcvd;
  }

  lemma BroadcastStep(s: Suite, st: State, p: Progress)
    requires st.server.Broadcast? && Inv(s, st, p)
    ensures Inv(s, ServerNext(s, st, [], [], []), p)
  {
    hide ConnOk;
    var next := st.server.next;
    var st' := ServerNext(s, st, [], [], []);
    var e := Epoch(p.previous, st.key, st.draws);
    var conn := Push(st.conns[next], DownMsg(s, e, next, 0));
    PushOk(s, e, next, st.conns[next], p.got[next], 0, 0);
    ConnsStep(s, e, st.conns, p.got, st.server, next, conn, st'.server);
    hide ConnsOk, Push;
    assert st'.conns == st.conns[next := conn];
  }

  lemma ReadStep(s: Suite, st: State, p: Progress)
    requires st.server.Rotate? && st.server.held == [] && Inv(s, st, p)
    requires st.conns[st.server.at].up != [] && !st.conns[st.server.at].up[0].Cable?
    ensures Inv(s, ServerNext(s, st, [], [], []), p)
  {
    var n, at := |st.conns|, st.server.at;
    var e := Epoch(p.previous, st.key, st.draws);
    hide ConnOk;
    PopOk(s, e, at, st.conns[at], p.got[at], Snt(st.server, at, n), Rcvd(st.server, at));
    var st' := ServerNext(s, st, [], [], []);
    ConnsStep(s, e, st.conns, p.got, st.server, at, st.conns[at].(up := st.conns[at].up[1..]), st'.server);
    hide ConnsOk;
  }

  lemma CountsAfter(round: nat, at: nat, i: nat, n: nat)
    requires at < n && i < n
    ensures Rcvd(Rotate(round, at + 1, []), i) == Rcvd(Rotate(round, at, [[]]), i)
    ensures Snt(Rotate(round, at + 1, []), i, n) == if i == Right(at, n) then round + 2 else Snt(Rotate(round, at, [[]]), i, n)
    ensures Snt(Rotate(round, at, [[]]), Right(at, n), n) == round + 1
  {}

  // The intermediate read from `at` goes to the connection on its right; every count then stands as
  // at the start of the turn of at + 1.
  lemma ForwardConns(s: Suite, e: Epoch, conns: seq<Conn>, got: seq<nat>, round: nat, at: nat)
    requires ConnsOk(s, e, conns, got, Rotate(round, at, [[]])) && at < |conns| && round + 1 < |conns|
    ensures var next := Right(at, |conns|);
            ConnsOk(s, e, conns[next := Push(conns[next], Inter(Intermediate(s, e.d, at, round)))], got,
                    Rotate(round, at + 1, []))
  {
    hide ConnOk, Push, Intermediate, Snt, Rcvd;
    var n := |conns|;
    var next := Right(at, n);
    var here, after := Rotate(round, at, [[]]), Rotate(round, at + 1, []);
    assert DownMsg(s, e, next, round + 1) == Inter(Intermediate(s, e.d, at, round));
    hide DownMsg, Right;
    CountsAfter(round, at, next, n);
    PushOk(s, e, next, conns[next], got[next], round + 1, Rcvd(here, next));
    forall i | 0 <= i < n && i != next ensures Snt(after, i, n) == Snt(here, i, n) && Rcvd(after, i) == Rcvd(here, i) {
      CountsAfter(round, at, i, n);
    }
    ConnsStep(s, e, conns, got, here, next, Push(conns[next], DownMsg(s, e, next, round + 1)), after);
  }

  lemma FinishConns(s: Suite, e: Epoch, conns: seq<Conn>, got: seq<nat>)
    requires Commutes(s) && |conns| >= 2
    requires ConnsOk(s, e, conns, got, Rotate(|conns| - 2, |conns|, []))
    ensures forall i :: 0 <= i < |conns| ==> Rested(s, conns[i], e.renewed)
    ensures forall i :: 0 <= i < |conns| ==> FinalSession(s, conns[i].client, conns[i].down) == RingKey(s, e.d)
  {
    hide ConnOk, Rested, FinalSession, RingKey;
    forall i | 0 <= i < |conns|
      ensures Rested(s, conns[i], e.renewed) && FinalSession(s, conns[i].client, conns[i].down) == RingKey(s, e.d)
    {
      FinishOk(s, e, i, conns[i], got[i]);
    }
  }

  // Turn n of a round is turn 0 of the next.
  lemma NextRound(s: Suite, e: Epoch, conns: seq<Conn>, got: seq<nat>, round: nat)
    requires ConnsOk(s, e, conns, got, Rotate(round, |conns|, []))
    ensures ConnsOk(s, e, conns, got, Rotate(round + 1, 0, []))
  {
    hide ConnOk;
  }

  // Holding a message counts as having read it, whatever it is.
  lemma HeldAny(s: Suite, e: Epoch, conns: seq<Conn>, got: seq<nat>, round: nat, at: nat, m: Key)
    requires ConnsOk(s, e, conns, got, Rotate(round, at, [m]))
    ensures ConnsOk(s, e, conns, got, Rotate(round, at, [[]]))
  {
    hide ConnOk;
  }

  lemma ForwardStep(s: Suite, st: State, p: Progress)
    requires Commutes(s)
    requires st.server.Rotate? && st.server.held != [] && Inv(s, st, p)
    ensures Inv(s, ServerNext(s, st, [], [], []), p)
  {
    hide Intermediate, Rested, FinalSession, RingKey, ServerNext, ConnOk;
    var n, at, round := |st.conns|, st.server.at, st.server.round;
    var e := Epoch(p.previous, st.key, st.draws);
    var conns := AfterForward(s, st);
    assert ConnsOk(s, e, st.conns, p.got, Rotate(round, at, [st.server.held[0]]));
    ForwardMeaning(s, st);
    hide ConnsOk;
    HeldAny(s, e, st.conns, p.got, round, at, st.server.held[0]);
    ForwardConns(s, e, st.conns, p.got, round, at);
    if at + 1 == n && round + 2 == n {
      FinishConns(s, e, conns, p.got);
    } else if at + 1 == n {
      NextRound(s, e, conns, p.got, round);
    }
  }

  ghost function AfterForward(s: Suite, st: State): (r: seq<Conn>)
    requires st.server.Rotate? && st.server.held != [] && st.server.at < |st.conns|
    ensures |r| == |st.conns|
  {
    var next := Right(st.server.at, |st.conns|);
    st.conns[next := Push(st.conns[next], Inter(st.server.held[0]))]
  }

  lemma ForwardMeaning(s: Suite, st: State)
    requires st.server.Rotate? && st.server.held != [] && st.server.at < |st.conns|
    ensures var st' := ServerNext(s, st, [], [], []);
            var n, at, round := |st.conns|, st.server.at, st.server.round;
            st' == State(AfterForward(s, st), st.key,
                         if at + 1 < n then Rotate(round, at + 1, [])
                         else if round + 1 < n - 1 then Rotate(round + 1, 0, []) else Idle, st.draws)
  {}

  lemma ServerStepOk(s: Suite, st: State, p: Progress, e: Event) returns (p': Progress)
    requires Commutes(s) && Inv(s, st, p) && e.ServerStep? && Enabled(st, e)
    ensures Inv(s, Apply(s, st, e), p')
  {
    hide AllOk, Welcoming, Newcomer, Resting, Begin;
    p' := p;
    match st.server
    case Broadcast(_, _) => BroadcastStep(s, st, p);
    case Rotate(_, _, held) =>
      if held == [] && st.conns[st.server.at].up[0].Cable? {
        NoneBroken(s, st, p);
      } else if held == [] {
        ReadStep(s, st, p);
      } else {
        ForwardStep(s, st, p);
      }
    case AwaitPublic => p' := WelcomeStep(s, st, e.secret, e.renewed, e.draws);
    case GotPublic(_) => p' := WelcomeStep(s, st, e.secret, e.renewed, e.draws);
    case SentPublic(_) => p' := WelcomeStep(s, st, e.secret, e.renewed, e.draws);
  }

  lemma NoneBroken(s: Suite, st: State, p: Progress)
    requires Inv(s, st, p)
    ensures forall i :: 0 <= i < |st.conns| ==> !st.conns[i].client.phase.Broken?
  {
    hide Keys;
    forall i | 0 <= i < |st.conns| ensures !st.conns[i].client.phase.Broken? {
      if st.server.Broadcast? || st.server.Rotate? {
        var e := Epoch(p.previous, st.key, st.draws);
        assert ConnOk(s, e, i, st.conns[i], p.got[i], Snt(st.server, i, |st.conns|), Rcvd(st.server, i));
      } else if !Over(st) && (st.server.Idle? || i + 1 < |st.conns|) {
        assert Rested(s, st.conns[i], st.key);
      }
    }
  }

  // A step of a client never disturbs the invariant, wherever the daemon is.
  lemma ClientStepOk(s: Suite, st: State, p: Progress, i: nat) returns (p': Progress)
    requires Commutes(s) && Inv(s, st, p) && Enabled(st, ClientStep(i))
    ensures Inv(s, Apply(s, st, ClientStep(i)), p')
  {
    p' := p;
    if st.server.Broadcast? || st.server.Rotate? {
      p' := ClientInExchange(s, st, p, i);
    } else if st.server.Idle? {
      ClientInLoop(s, st, p, i);
    } else {
      ClientInWelcome(s, st, p, i);
    }
  }

  lemma ClientInExchange(s: Suite, st: State, p: Progress, i: nat) returns (p': Progress)
    requires Inv(s, st, p) && (st.server.Broadcast? || st.server.Rotate?) && Enabled(st, ClientStep(i))
    ensures Inv(s, Apply(s, st, ClientStep(i)), p')
  {
    hide Keys, React, Snt, Rcvd, Pending, InExchange, UpMsg, DownMsg;
    var conn := st.conns[i];
    var e := Epoch(p.previous, st.key, st.draws);
    assert ConnOk(s, e, i, conn, p.got[i], Snt(st.server, i, |st.conns|), Rcvd(st.server, i));
    ExchangeNotConnecting(s, e, i, conn, p.got[i], Snt(st.server, i, |st.conns|), Rcvd(st.server, i));
    hide ConnOk, ClientNext;
    var g, out := ConnStep(s, e, i, conn, p.got[i], Snt(st.server, i, |st.conns|), Rcvd(st.server, i));
    p' := p.(got := p.got[i := g]);
  }

  lemma ClientInLoop(s: Suite, st: State, p: Progress, i: nat)
    requires Inv(s, st, p) && st.server.Idle? && Enabled(st, ClientStep(i))
    ensures Inv(s, Apply(s, st, ClientStep(i)), p)
  {
    hide Keys, React, RingKey, ClientNext, FinalSession;
    var draw := if i < |st.draws| then st.draws[i] else s.zero;
    assert Rested(s, st.conns[i], st.key);
    RestedNotConnecting(s, st.conns[i], st.key);
    hide Rested;
    RestedStep(s, st.conns[i], st.key, draw);
  }

  lemma ClientInWelcome(s: Suite, st: State, p: Progress, i: nat)
    requires Inv(s, st, p) && !st.server.Idle? && !st.server.Broadcast? && !st.server.Rotate? && Enabled(st, ClientStep(i))
    ensures Inv(s, Apply(s, st, ClientStep(i)), p)
  {
    hide Keys, React, ClientNext, Newcomer, Pending, Rested;
    var draw := if i < |st.draws| then st.draws[i] else s.zero;
    if i + 1 < |st.conns| {
      assert Rested(s, st.conns[i], st.key);
      RestedNotConnecting(s, st.conns[i], st.key);
      RestedStep(s, st.conns[i], st.key, draw);
    } else {
      NewcomerStep(s, st.conns[i], st.server, draw);
    }
  }

  lemma RestedNotConnecting(s: Suite, conn: Conn, key: Key)
    requires Rested(s, conn, key)
    ensures !conn.client.phase.Connecting?
  {}

  lemma ExchangeNotConnecting(s: Suite, e: Epoch, i: nat, conn: Conn, got: nat, snt: nat, rcvd: nat)
    requires ConnOk(s, e, i, conn, got, snt, rcvd)
    ensures !conn.client.phase.Connecting?
  {}

  lemma NewcomerStep(s: Suite, conn: Conn, server: Server, draw: Key)
    requires Newcomer(s, conn, server)
    requires conn.client.phase.Connecting? || conn.down != []
    ensures Newcomer(s, ClientNext(s, conn, draw), server)
  {}

  lemma JoinOk(s: Suite, st: State, p: Progress, secret: Key)
    requires Inv(s, st, p) && st.server.Idle?
    ensures Inv(s, Apply(s, st, Join(secret)), p)
  {}

  lemma LeaveOk(s: Suite, st: State, p: Progress, e: Event) returns (p': Progress)
    requires Inv(s, st, p) && e.Leave? && Enabled(st, e)
    ensures Inv(s, Apply(s, st, e), p')
  {
    hide Rested;
    RestedSlots(s, st.conns, st.key, e.client);
    p' := BeginOk(s, RemoveSlot(st.conns, e.client), st.key, e.renewed, e.draws);
  }

  // ---- Cables ----

  // More cables at the end of a client's queue change no account.
  lemma SayConn(s: Suite, e: Epoch, i: nat, conn: Conn, got: nat, snt: nat, rcvd: nat, m: Msg)
    requires ConnOk(s, e, i, conn, got, snt, rcvd) && m.Cable?
    ensures ConnOk(s, e, i, conn.(up := conn.up + [m]), got, snt, rcvd)
  {
    KeysAppend(conn.up, [m]);
    KeysOne(m);
    hide Keys;
  }

  lemma SayRested(s: Suite, conn: Conn, key: Key, m: Msg)
    requires Rested(s, conn, key) && m.Cable?
    ensures Rested(s, conn.(up := conn.up + [m]), key)
  {
    KeysAppend(conn.up, [m]);
    KeysOne(m);
    hide Keys;
  }

  lemma SayOk(s: Suite, st: State, p: Progress, i: nat, text: Key)
    requires Inv(s, st, p) && Enabled(st, Say(i, text))
    ensures Inv(s, Apply(s, st, Say(i, text)), p)
  {
    hide Keys, Snt, Rcvd, Pending, FinalSession, RingKey;
    var conn, m := st.conns[i], Cable(st.conns[i].client.session, text);
    if st.server.Broadcast? || st.server.Rotate? {
      var e := Epoch(p.previous, st.key, st.draws);
      assert ConnOk(s, e, i, conn, p.got[i], Snt(st.server, i, |st.conns|), Rcvd(st.server, i));
      hide ConnOk;
      SayConn(s, e, i, conn, p.got[i], Snt(st.server, i, |st.conns|), Rcvd(st.server, i), m);
    } else if st.server.Idle? || i + 1 < |st.conns| {
      assert Rested(s, conn, st.key);
      SayRested(s, conn, st.key, m);
    }
  }

  // A cable behind what is pending leaves it pending, and the session key as it will be.
  lemma PendingPush(s: Suite, c: Client, pre: seq<Msg>, key: Key, m: Msg)
    requires Pending(s, c, pre, key) && m.Cable?
    ensures Pending(s, c, pre + [m], key) && FinalSession(s, c, pre + [m]) == FinalSession(s, c, pre)
  {
    KeysOne(m);
    if c.phase.Greeting? {
      KeysAppend(pre[2..], [m]);
      assert (pre + [m])[2..] == pre[2..] + [m];
    } else if c.phase.Listening? {
      KeysAppend(pre, [m]);
    } else {
      KeysAppend(pre[1..], [m]);
      assert (pre + [m])[1..] == pre[1..] + [m];
    }
    hide Keys;
  }

  lemma KeysTail(q: seq<Msg>)
    requires q != [] && Keys(q) == []
    ensures q[0].Cable? && Keys(q[1..]) == []
  {}

  // The daemon finds nothing but cables while it is in its loop, and passing one on changes nothing else.
  lemma ForwardOk(s: Suite, st: State, p: Progress, i: nat)
    requires Inv(s, st, p) && Enabled(st, Forward(i))
    ensures st.conns[i].up[0].Cable?
    ensures Inv(s, Apply(s, st, Forward(i)), p)
  {
    hide Keys, Pending, FinalSession, RingKey;
    assert Rested(s, st.conns[i], st.key);
    KeysTail(st.conns[i].up);
    var conns := Fan(st.conns, i);
    forall j | 0 <= j < |conns|
      ensures Rested(s, conns[j], st.key)
      ensures FinalSession(s, conns[j].client, conns[j].down) == FinalSession(s, st.conns[j].client, st.conns[j].down)
    {
      assert Rested(s, st.conns[j], st.key);
      if j != i {
        PendingPush(s, st.conns[j].client, st.conns[j].down, st.key, st.conns[i].up[0]);
      }
    }
  }

  /** Every step of every party keeps the invariant. */
  lemma StepSafe(s: Suite, st: State, e: Event)
    requires Commutes(s) && Safe(s, st) && Enabled(st, e)
    ensures Safe(s, Apply(s, st, e))
  {
    var p :| Inv(s, st, p);
    hide Inv;
    match e
    case Join(secret) => JoinOk(s, st, p, secret);
    case Leave(_, _, _) => var p' := LeaveOk(s, st, p, e);
    case ClientStep(i) => var p' := ClientStepOk(s, st, p, i);
    case ServerStep(_, _, _) => var p' := ServerStepOk(s, st, p, e);
    case Say(i, text) => SayOk(s, st, p, i, text);
    case Forward(i) => ForwardOk(s, st, p, i);
  }

  /** Hence every state of every run satisfies it. */
  lemma {:induction false} RunSafe(s: Suite, st: State, events: seq<Event>, end: State)
    requires Commutes(s) && Safe(s, st) && Run(s, st, events, end)
    ensures Safe(s, end)
    decreases |events|
  {
    if events != [] {
      StepSafe(s, st, events[0]);
      RunSafe(s, Apply(s, st, events[0]), events[1..], end);
    }
  }

  lemma InitSafe(s: Suite, key: Key)
    ensures Safe(s, Init(key))
  {
    assert Inv(s, Init(key), Progress([], []));
  }
}
