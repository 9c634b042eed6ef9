/** The daemon and its clients exchanging keys over FIFO sockets, as a machine of interleaved steps.

    Each connection has one queue per direction.  The daemon serves one join or leave at a time and
    then runs the control-key broadcast and the ring rounds; clients react to what they receive,
    at any speed, so a slow client may still be busy with one exchange when the next one starts. Their
    users send cables whenever they like once they have announced themselves, which a client does at
    the end of its first exchange; the daemon forwards cables while it is in its loop. */
module Protocol {
  import opened GroupSecret

  // What travels in a socket.  A wire is represented by the key it is sealed under and its content.
  datatype Msg =
    | ClientPublic(key: Key)
    | ServerPublic(key: Key)
    | SessionKey(seal: Key, key: Key)
    | Ctrl(seal: Key, rounds: nat, renewed: Key)
    | Inter(key: Key)
    | Cable(seal: Key, text: Key)                   // what a client sends to the others

  datatype Phase =
    | Connecting(secret: Key)                       // has not sent its public key yet
    | Greeting(secret: Key)                         // waits for the server's public key
    | Shared(shared: Key)                           // waits for the control key
    | Listening                                     // in its receive loop
    | Exchanging(own: Key, done: nat, rounds: nat, renewed: Key)  // in n_party_client
    | Broken                                        // gave up on an unexpected or unreadable message

  datatype Client = Client(phase: Phase, ctrl: Key, session: Key, announced: bool)

  datatype Conn = Conn(client: Client, down: seq<Msg>, up: seq<Msg>)

  // Where the daemon is.
  datatype Server =
    | Idle
    | AwaitPublic                                   // two_party_server, for the last connection
    | GotPublic(public: Key)
    | SentPublic(shared: Key)
    | Broadcast(next: nat, previous: Key)           // control keys sent to the connections below next
    | Rotate(round: nat, at: nat, held: seq<Key>)   // held: the intermediate just read, if any
    | Aborted                                       // the assertion in n_party_server failed
    | Failed                                        // a message of the wrong kind was read, and the daemon ended

  // draws[i] is the secret that client i draws in the current exchange.
  datatype State = State(conns: seq<Conn>, key: Key, server: Server, draws: seq<Key>)

  const ANNOUNCEMENT: Key := []

  // What a client sends when it has new keys and has not announced itself.
  function Announce(c: Client, session: Key): seq<Msg> {
    if c.announced then [] else [Cable(session, ANNOUNCEMENT)]
  }

  /** A client handles one message; what it sends in return comes second. */
  function React(s: Suite, c: Client, m: Msg, draw: Key): (Client, seq<Msg>) {
    match c.phase
    case Connecting(_) => (c, [])
    case Greeting(secret) =>
      if m.ServerPublic? then (c.(phase := Shared(s.kx(secret, m.key))), []) else (c.(phase := Broken), [])
    case Shared(shared) =>
      if m.SessionKey? && m.seal == shared then (c.(phase := Listening, ctrl := m.key), [])
      else (c.(phase := Broken), [])
    case Listening =>
      if m.Ctrl? && (m.seal == c.session || m.seal == c.ctrl) then
        if m.rounds == 0 then
          (Client(Listening, m.renewed, s.zero, true), [Inter(s.kx(draw, s.base))] + Announce(c, s.zero))
        else (c.(phase := Exchanging(draw, 0, m.rounds, m.renewed)), [Inter(s.kx(draw, s.base))])
      else if m.Ctrl? || m.SessionKey? || m.Cable? then (c, [])  // shown to the user, or not readable and dropped
      else (c.(phase := Broken), [])                 // not a cable
    case Exchanging(own, done, rounds, renewed) =>
      if !m.Inter? then (c.(phase := Broken), [])
      else if done + 1 == rounds then
        var session := s.digest(s.kx(own, m.key));
        (Client(Listening, renewed, session, true), Announce(c, session))
      else (c.(phase := Exchanging(own, done + 1, rounds, renewed)), [Inter(s.kx(own, m.key))])
    case Broken => (c, [])
  }

  // The freed slot is filled with the last one, as `disconnect_client` does.
  function RemoveSlot<T>(slots: seq<T>, i: nat): (r: seq<T>)
    requires i < |slots|
    ensures |r| == |slots| - 1
  {
    slots[i := slots[|slots| - 1]][..|slots| - 1]
  }

  datatype Event =
    | Join(secret: Key)
    | Leave(client: nat, renewed: Key, draws: seq<Key>)
    | ClientStep(client: nat)
    | ServerStep(secret: Key, renewed: Key, draws: seq<Key>)
    | Say(client: nat, text: Key)                   // a user sends a cable
    | Forward(client: nat)                          // the daemon passes a cable on

  // The daemon has ended, and every connection with it.
  predicate Over(st: State) { st.server.Aborted? || st.server.Failed? }

  predicate Enabled(st: State, e: Event) {
    match e
    case Join(_) => st.server.Idle?
    case Leave(i, _, draws) => st.server.Idle? && i < |st.conns| && |draws| + 1 == |st.conns|
    case ClientStep(i) =>
      !Over(st) && i < |st.conns| && !st.conns[i].client.phase.Broken?
      && (st.conns[i].client.phase.Connecting? || st.conns[i].down != [])
    case Say(i, _) =>
      !Over(st) && i < |st.conns| && st.conns[i].client.announced
      && (st.conns[i].client.phase.Listening? || st.conns[i].client.phase.Exchanging?)
    case Forward(i) => st.server.Idle? && i < |st.conns| && st.conns[i].up != []
    case ServerStep(_, _, draws) =>
      match st.server
      case AwaitPublic => |st.conns| > 0 && st.conns[|st.conns| - 1].up != []
      case GotPublic(_) => |st.conns| > 0
      case SentPublic(_) => |st.conns| > 0 && |draws| == |st.conns|
      case Broadcast(next, _) => next < |st.conns|
      case Rotate(_, at, held) => at < |st.conns| && (held == [] ==> st.conns[at].up != [])
      case _ => false
  }

  function Push(conn: Conn, m: Msg): Conn { conn.(down := conn.down + [m]) }

  // A cable is taken from connection i and passed on to all others.
  function Fan(conns: seq<Conn>, i: nat): (r: seq<Conn>)
    requires i < |conns| && conns[i].up != []
    ensures |r| == |conns|
  {
    seq(|conns|, j requires 0 <= j < |conns| =>
      if j == i then conns[i].(up := conns[i].up[1..]) else Push(conns[j], conns[i].up[0]))
  }

  // The start of n_party_server, after a join or a leave.
  function Begin(conns: seq<Conn>, key: Key, renewed: Key, draws: seq<Key>): State {
    if |conns| == 0 then State(conns, key, Aborted, draws)
    else if |conns| == 1 then State(conns, key, Idle, draws)
    else State(conns, renewed, Broadcast(0, key), draws)
  }

  function ClientNext(s: Suite, conn: Conn, draw: Key): Conn
    requires conn.client.phase.Connecting? || conn.down != []
  {
    if conn.client.phase.Connecting? then
      var a := conn.client.phase.secret;
      Conn(conn.client.(phase := Greeting(a)), conn.down, conn.up + [ClientPublic(s.kx(a, s.base))])
    else
      var (c, out) := React(s, conn.client, conn.down[0], draw);
      Conn(c, conn.down[1..], conn.up + out)
  }

  // One step of two_party_server or n_party_server.
  function ServerNext(s: Suite, st: State, secret: Key, renewed: Key, draws: seq<Key>): State
    requires Enabled(st, ServerStep(secret, renewed, draws))
  {
    var n := |st.conns|;
    match st.server
    case AwaitPublic =>
      var m := st.conns[n - 1].up[0];
      var conns := st.conns[n - 1 := st.conns[n - 1].(up := st.conns[n - 1].up[1..])];
      st.(conns := conns, server := if m.ClientPublic? then GotPublic(m.key) else Failed)
    case GotPublic(public) =>
      st.(conns := st.conns[n - 1 := Push(st.conns[n - 1], ServerPublic(s.kx(secret, s.base)))],
          server := SentPublic(s.kx(secret, public)))
    case SentPublic(shared) =>
      Begin(st.conns[n - 1 := Push(st.conns[n - 1], SessionKey(shared, st.key))], st.key, renewed, draws)
    case Broadcast(next, previous) =>
      st.(conns := st.conns[next := Push(st.conns[next], Ctrl(previous, n - 1, st.key))],
          server := if next + 1 < n then Broadcast(next + 1, previous) else Rotate(0, 0, []))
    case Rotate(round, at, held) =>
      if held == [] then
        var m := st.conns[at].up[0];
        var conns := st.conns[at := st.conns[at].(up := st.conns[at].up[1..])];
        st.(conns := conns, server := if m.Inter? then Rotate(round, at, [m.key]) else Failed)
      else
        var next := Right(at, n);
        st.(conns := st.conns[next := Push(st.conns[next], Inter(held[0]))],
            server := if at + 1 < n then Rotate(round, at + 1, [])
                      else if round + 1 < n - 1 then Rotate(round + 1, 0, []) else Idle)
  }

  function Apply(s: Suite, st: State, e: Event): State
    requires Enabled(st, e)
  {
    match e
    case Join(secret) =>
      var c := Client(Connecting(secret), s.zero, s.zero, false);
      st.(conns := st.conns + [Conn(c, [], [])], server := AwaitPublic)
    case Leave(i, renewed, draws) => Begin(RemoveSlot(st.conns, i), st.key, renewed, draws)
    case ClientStep(i) =>
      var draw := if i < |st.draws| then st.draws[i] else s.zero;
      st.(conns := st.conns[i := ClientNext(s, st.conns[i], draw)])
    case Say(i, text) =>
      st.(conns := st.conns[i := st.conns[i].(up := st.conns[i].up + [Cable(st.conns[i].client.session, text)])])
    case Forward(i) =>
      if st.conns[i].up[0].Cable? then st.(conns := Fan(st.conns, i)) else st.(server := Failed)
    case ServerStep(secret, renewed, draws) => ServerNext(s, st, secret, renewed, draws)
  }

  function Init(key: Key): State { State([], key, Idle, []) }

  // The state after a run of events.
  ghost predicate Run(s: Suite, st: State, events: seq<Event>, end: State)
    decreases |events|
  {
    if events == [] then st == end
    else Enabled(st, events[0]) && Run(s, Apply(s, st, events[0]), events[1..], end)
  }
}
