/** The daemon's table of connections, its descriptor set and its loop over ready descriptors.

    Accepting, receiving and the key exchanges themselves are choices of the environment here; what
    an exchange does is the subject of module Protocol, whose connection list evolves as Clients(). */
module Daemon {
  import opened Protocol

  // The sends of one forwarded cable: to every slot but the sender's, in slot order.
  function Fanout<T>(clients: seq<int>, sender: nat, cable: T): (r: seq<(int, T)>) {
    if clients == [] then []
    else Fanout(clients[..|clients| - 1], sender, cable)
         + if |clients| - 1 == sender then [] else [(clients[|clients| - 1], cable)]
  }

  lemma NoFanout<T>(clients: seq<int>, sender: nat, cable: T)
    ensures Fanout(clients[..0], sender, cable) == []
  {}

  lemma FanoutStep<T>(clients: seq<int>, k: nat, sender: nat, cable: T)
    requires k < |clients|
    ensures Fanout(clients[..k + 1], sender, cable)
         == Fanout(clients[..k], sender, cable) + if k == sender then [] else [(clients[k], cable)]
  {
    assert clients[..k + 1][..k] == clients[..k];
  }

  // The log has grown by the sends of one cable from a slot to the first k clients.
  ghost predicate Forwarded<T>(before: seq<(int, T)>, after: seq<(int, T)>, clients: seq<int>, k: nat, slot: nat, cable: T) {
    k <= |clients| && slot > 0 && after == before + Fanout(clients[..k], slot - 1, cable)
  }

  function Sends<T>(log: seq<(int, T)>, fd: int): nat {
    if log == [] then 0
    else Sends(log[..|log| - 1], fd) + if log[|log| - 1].0 == fd then 1 else 0
  }

  lemma SendsSnoc<T>(log: seq<(int, T)>, x: (int, T), fd: int)
    ensures Sends(log + [x], fd) == Sends(log, fd) + if x.0 == fd then 1 else 0
  {
    assert (log + [x])[..|log|] == log;
  }

  /** A forwarded cable goes once to every other client, and to nobody else. */
  lemma {:induction false} FanoutOnce<T>(clients: seq<int>, sender: nat, cable: T, fd: int)
    requires forall i, j :: 0 <= i < j < |clients| ==> clients[i] != clients[j]
    ensures Sends(Fanout(clients, sender, cable), fd)
         == if fd in clients && !(sender < |clients| && clients[sender] == fd) then 1 else 0
    ensures forall x :: x in Fanout(clients, sender, cable) ==> x.1 == cable
  {
    if clients != [] {
      var n := |clients| - 1;
      var front := clients[..n];
      FanoutOnce(front, sender, cable, fd);
      assert clients == front + [clients[n]];
      var log := Fanout(front, sender, cable);
      if n == sender {
        assert Fanout(clients, sender, cable) == log + [] == log;
      } else {
        SendsSnoc(log, (clients[n], cable), fd);
      }
    }
  }

  /** Slots 1 to cnt hold distinct open sockets, later slots are free, and the descriptor set is the
      listener plus the sockets in the slots, none above nfds. */
  ghost predicate Table(slots: seq<int>, cnt: nat, fds: set<int>, nfds: int) {
    && |slots| >= 2 && cnt < |slots|
    && (forall i :: 0 <= i <= cnt ==> slots[i] > 0 && slots[i] in fds)
    && (forall i, j :: 0 <= i < j <= cnt ==> slots[i] != slots[j])
    && (forall i :: cnt < i < |slots| ==> slots[i] == 0)
    && (forall fd :: fd in fds ==> fd <= nfds && fd in slots[..cnt + 1])
  }

  lemma AddSlot(slots: seq<int>, cnt: nat, fds: set<int>, nfds: int, fd: int)
    requires Table(slots, cnt, fds, nfds) && cnt + 1 < |slots| && fd > 0 && fd !in fds
    ensures Table(slots[cnt + 1 := fd], cnt + 1, fds + {fd}, if fd > nfds then fd else nfds)
    ensures slots[cnt + 1 := fd][1..cnt + 2] == slots[1..cnt + 1] + [fd]
  {
    assert slots[cnt + 1 := fd][..cnt + 2] == slots[..cnt + 1] + [fd];
  }

  lemma Unfilled(slots: seq<int>, cnt: nat, fds: set<int>, nfds: int)
    requires cnt < |slots| && slots[cnt] == 0
    ensures !Table(slots, cnt, fds, nfds)
  {}

  function AfterRemoval(slots: seq<int>, cnt: nat, index: nat): (r: seq<int>)
    requires 1 <= index <= cnt < |slots|
    ensures |r| == |slots|
  {
    if cnt == 1 then slots[index := 0] else slots[index := slots[cnt]][cnt := 0]
  }

  lemma AfterAt(slots: seq<int>, cnt: nat, index: nat, k: nat)
    requires 1 <= index <= cnt < |slots| && k < |slots|
    ensures AfterRemoval(slots, cnt, index)[k]
         == if k == cnt then 0 else if k == index then slots[cnt] else slots[k]
  {}

  lemma DropSlot(slots: seq<int>, cnt: nat, fds: set<int>, nfds: int, index: nat)
    requires Table(slots, cnt, fds, nfds) && 1 <= index <= cnt
    ensures Table(AfterRemoval(slots, cnt, index), cnt - 1, fds - {slots[index]}, nfds)
    ensures AfterRemoval(slots, cnt, index)[0] == slots[0]
    ensures AfterRemoval(slots, cnt, index)[1..cnt] == RemoveSlot(slots[1..cnt + 1], index - 1)
  {
    var after := AfterRemoval(slots, cnt, index);
    forall k | 0 <= k < |slots|
      ensures after[k] == if k == cnt then 0 else if k == index then slots[cnt] else slots[k]
    {
      AfterAt(slots, cnt, index, k);
    }
    hide AfterRemoval;
    DropSlotFds(slots, after, cnt, fds, nfds, index);
    assert after[1..cnt] == RemoveSlot(slots[1..cnt + 1], index - 1);
  }

  lemma DropSlotFds(slots: seq<int>, after: seq<int>, cnt: nat, fds: set<int>, nfds: int, index: nat)
    requires Table(slots, cnt, fds, nfds) && 1 <= index <= cnt && |after| == |slots|
    requires forall k :: 0 <= k < |slots| ==>
               after[k] == if k == cnt then 0 else if k == index then slots[cnt] else slots[k]
    ensures Table(after, cnt - 1, fds - {slots[index]}, nfds)
  {
    forall fd | fd in fds - {slots[index]} ensures fd in after[..cnt] {
      var k :| 0 <= k < cnt + 1 && slots[..cnt + 1][k] == fd;
      assert after[..cnt][if k == cnt then index else k] == fd;
    }
  }

  datatype Outcome = Handled | Rejected | Fatal | Abort

  // ---- The account of a pass ----

  // What the environment did when the daemon turned to a ready descriptor.
  datatype Deed<T> =
    | NoConnection                                  // accept failed
    | Connection(newClient: int, peerOk: bool, twoPartyOk: bool, nPartyOk: bool)
    | HangUp(closed: bool, nPartyOk: bool)
    | Data(cable: T, received: bool)

  // The server before and after.
  datatype Snapshot<T> = Snapshot(slots: seq<int>, cnt: nat, fds: set<int>, sent: seq<(int, T)>)

  function ClientsOf<T>(s: Snapshot<T>): seq<int>
    requires s.cnt < |s.slots|
  {
    s.slots[1..s.cnt + 1]
  }

  datatype Entry<T> = Entry(fd: int, slot: nat, deed: Deed<T>, before: Snapshot<T>, after: Snapshot<T>, outcome: Outcome)

  // A connection is admitted as far as the table, the address and the exchanges allow.
  ghost predicate Admitted<T>(b: Snapshot<T>, a: Snapshot<T>, d: Deed<T>, outcome: Outcome)
    requires d.Connection? && b.cnt < |b.slots|
  {
    d.newClient !in b.fds
    && if b.cnt + 1 == |b.slots| then outcome == Rejected && a == b
       else
         && outcome == (if d.peerOk && d.twoPartyOk && (b.cnt == 0 || d.nPartyOk) then Handled else Fatal)
         && a.cnt == b.cnt + 1 < |a.slots| && a.fds == b.fds + {d.newClient} && a.sent == b.sent
         && (d.peerOk ==> ClientsOf(a) == ClientsOf(b) + [d.newClient])
  }

  // A client that hung up is out of the table and of the descriptors, and nothing is sent.
  ghost predicate Dropped<T>(b: Snapshot<T>, a: Snapshot<T>, fd: int, slot: nat, d: Deed<T>, outcome: Outcome)
    requires d.HangUp? && 1 <= slot <= b.cnt < |b.slots|
  {
    && a.cnt < |a.slots| && ClientsOf(a) == RemoveSlot(ClientsOf(b), slot - 1)
    && a.fds == b.fds - {fd} && a.sent == b.sent
    && outcome == if !d.closed then Fatal else if b.cnt == 1 then Abort else if d.nPartyOk then Handled else Fatal
  }

  // A cable that came in whole goes out to all other clients, or to the first of them until a send fails.
  ghost predicate PassedOn<T>(b: Snapshot<T>, a: Snapshot<T>, slot: nat, d: Deed<T>, outcome: Outcome)
    requires d.Data? && 1 <= slot <= b.cnt < |b.slots|
  {
    && a == b.(sent := a.sent) && (outcome == Handled || outcome == Fatal)
    && (!d.received ==> outcome == Fatal && a.sent == b.sent)
    && (d.received && outcome == Handled ==> a.sent == b.sent + Fanout(ClientsOf(b), slot - 1, d.cable))
    && (d.received && outcome == Fatal ==> exists k :: Forwarded(b.sent, a.sent, ClientsOf(b), k, slot, d.cable))
  }

  /** What an entry promises: the descriptor is the listener's or that of the client in its slot, and the server
      does with it what the deed calls for. */
  ghost predicate Effect<T>(e: Entry<T>) {
    && e.before.cnt < |e.before.slots| && e.slot <= e.before.cnt && e.before.slots[e.slot] == e.fd
    && match e.deed
       case NoConnection => e.slot == 0 && e.outcome == Fatal && e.after == e.before
       case Connection(_, _, _, _) => e.slot == 0 && Admitted(e.before, e.after, e.deed, e.outcome)
       case HangUp(_, _) => e.slot > 0 && Dropped(e.before, e.after, e.fd, e.slot, e.deed, e.outcome)
       case Data(_, _) => e.slot > 0 && PassedOn(e.before, e.after, e.slot, e.deed, e.outcome)
  }

  // Entries that follow on one another, from one state of the server to another.
  ghost predicate Chain<T>(log: seq<Entry<T>>, first: Snapshot<T>, last: Snapshot<T>) {
    if log == [] then first == last
    else
      var e := log[|log| - 1];
      Effect(e) && e.after == last && Chain(log[..|log| - 1], first, e.before)
  }

  lemma ChainSnoc<T>(log: seq<Entry<T>>, first: Snapshot<T>, e: Entry<T>)
    requires Chain(log, first, e.before) && Effect(e)
    ensures Chain(log + [e], first, e.after)
  {
    assert (log + [e])[..|log|] == log;
  }

  ghost predicate Logged<T>(log: seq<Entry<T>>, fd: int) { exists k :: 0 <= k < |log| && log[k].fd == fd }

  // Each at most once, in ascending order.
  ghost predicate Ascending<T>(log: seq<Entry<T>>) { forall j, k :: 0 <= j < k < |log| ==> log[j].fd < log[k].fd }

  // The entries of the ready descriptors below fd.
  ghost predicate ServedBelow<T>(log: seq<Entry<T>>, rdy: set<int>, fd: int) {
    && Ascending(log)
    && (forall k :: 0 <= k < |log| ==> log[k].fd in rdy && log[k].fd < fd)
    && (forall d :: d in rdy && d < fd ==> Logged(log, d))
  }

  lemma ServedSnoc<T>(log: seq<Entry<T>>, rdy: set<int>, e: Entry<T>)
    requires ServedBelow(log, rdy, e.fd) && e.fd in rdy
    ensures ServedBelow(log + [e], rdy, e.fd + 1)
  {
    var longer := log + [e];
    assert longer[|log|].fd == e.fd;
    forall d | d in rdy && d < e.fd + 1 ensures Logged(longer, d) {
      if d < e.fd {
        var k :| 0 <= k < |log| && log[k].fd == d;
        assert longer[k].fd == d;
      }
    }
  }

  lemma NotReady<T>(log: seq<Entry<T>>, rdy: set<int>, fd: int)
    requires ServedBelow(log, rdy, fd) && fd !in rdy
    ensures ServedBelow(log, rdy, fd + 1)
  {}

  // The daemon goes on after all of these.
  ghost predicate GoesOn<T>(log: seq<Entry<T>>) {
    forall k :: 0 <= k < |log| ==> log[k].outcome == Handled || log[k].outcome == Rejected
  }

  /** A pass: every ready descriptor was turned to once, in ascending order, and nothing else happened; or
      this is so up to the one that ended the daemon. */
  ghost predicate Pass<T>(log: seq<Entry<T>>, rdy: set<int>, first: Snapshot<T>, last: Snapshot<T>, r: Outcome) {
    && Chain(log, first, last) && Ascending(log)
    && (r == Handled ==> GoesOn(log) && forall fd :: fd in rdy <==> Logged(log, fd))
    && (r != Handled ==>
          && |log| > 0 && log[|log| - 1].outcome == r && GoesOn(log[..|log| - 1])
          && ServedBelow(log, rdy, log[|log| - 1].fd + 1))
  }

  // Passes one after the other; only the last can have ended the daemon.
  datatype PassLog<T> = PassLog(rdy: set<int>, log: seq<Entry<T>>, begins: Snapshot<T>)

  ghost predicate Passes<T>(logs: seq<PassLog<T>>, first: Snapshot<T>, last: Snapshot<T>, r: Outcome) {
    if logs == [] then first == last && r == Handled
    else
      var p := logs[|logs| - 1];
      Passes(logs[..|logs| - 1], first, p.begins, Handled) && Pass(p.log, p.rdy, p.begins, last, r)
  }

  // A pass as far as the descriptors below fd, with none of them ending the daemon.
  ghost predicate Under<T>(log: seq<Entry<T>>, rdy: set<int>, fd: int, first: Snapshot<T>, last: Snapshot<T>) {
    Chain(log, first, last) && GoesOn(log) && ServedBelow(log, rdy, fd)
  }

  lemma PassBegins<T>(rdy: set<int>, first: Snapshot<T>)
    requires forall fd :: fd in rdy ==> fd > 0
    ensures Under([], rdy, 0, first, first)
  {}

  lemma PassSkips<T>(log: seq<Entry<T>>, rdy: set<int>, fd: int, first: Snapshot<T>, last: Snapshot<T>)
    requires Under(log, rdy, fd, first, last) && fd !in rdy
    ensures Under(log, rdy, fd + 1, first, last)
  {
    hide Chain;
    NotReady(log, rdy, fd);
  }

  lemma PassGoesOn<T>(log: seq<Entry<T>>, rdy: set<int>, first: Snapshot<T>, e: Entry<T>)
    requires Under(log, rdy, e.fd, first, e.before) && e.fd in rdy && Effect(e)
    ensures e.outcome == Handled || e.outcome == Rejected ==> Under(log + [e], rdy, e.fd + 1, first, e.after)
    ensures e.outcome == Fatal || e.outcome == Abort ==> Pass(log + [e], rdy, first, e.after, e.outcome)
  {
    hide Chain, Effect;
    ChainSnoc(log, first, e);
    ServedSnoc(log, rdy, e);
    assert (log + [e])[..|log|] == log;
  }

  lemma PassEnds<T>(log: seq<Entry<T>>, rdy: set<int>, fd: int, first: Snapshot<T>, last: Snapshot<T>)
    requires Under(log, rdy, fd, first, last) && forall d :: d in rdy ==> d < fd
    ensures Pass(log, rdy, first, last, Handled)
  {
    hide Chain;
  }

  class Server<T(0)> {
    const sfds: array<int>      // slot 0 is the listener, 0 marks a free slot
    var cnt: nat
    var fds: set<int>
    var nfds: int
    var sent: seq<(int, T)>     // everything forwarded so far

    ghost predicate Valid()
      reads this, sfds
    {
      Table(sfds[..], cnt, fds, nfds)
    }

    // The connected clients, in slot order.
    ghost function Clients(): seq<int>
      requires Valid()
      reads this, sfds
    {
      sfds[1..cnt + 1]
    }

    ghost function State(): Snapshot<T>
      reads this, sfds
    {
      Snapshot(sfds[..], cnt, fds, sent)
    }

    lemma StateClients()
      requires Valid()
      ensures cnt < |State().slots| && ClientsOf(State()) == Clients()
    {
      assert sfds[..][1..cnt + 1] == sfds[1..cnt + 1];
    }

    constructor (capacity: nat, listener: int)
      requires capacity >= 2 && listener > 0
      ensures Valid() && Clients() == [] && sfds.Length == capacity && sfds[0] == listener
      ensures fresh(sfds) && sent == []
    {
      sfds := new int[capacity](i => if i == 0 then listener else 0);
      cnt := 0;
      fds := {listener};
      nfds := listener;
      sent := [];
      new;
      assert sfds[..][..1] == [listener] && sfds[..][0] == listener;
    }

    lemma Slots()
      requires Valid()
      ensures cnt < sfds.Length
      ensures forall k :: 0 <= k <= cnt ==> sfds[k] != 0
      ensures cnt + 1 < sfds.Length ==> sfds[cnt + 1] == 0
    {
      assert forall k :: 0 <= k <= cnt ==> sfds[k] == sfds[..][k];
    }

    lemma FreshDescriptor()
      requires Valid()
      ensures exists fd :: fd > 0 && fd !in fds
    {
      var fd := nfds + 1;
      assert sfds[..][0] in fds;
      assert fd > 0 && fd !in fds;
    }

    // A descriptor other than the listener's is a client's.
    lemma InTable(fd: int)
      requires Valid() && fd in fds && fd != sfds[0]
      ensures fd in Clients()
    {
      assert fd in sfds[..][..cnt + 1];
      assert sfds[..][..cnt + 1] == [sfds[0]] + Clients();
    }

    // The slot of a client.
    lemma SlotOf(socket: int) returns (slot: nat)
      requires Valid()
      ensures 1 <= slot <= sfds.Length && (socket !in Clients() ==> slot == sfds.Length)
      ensures socket in Clients() ==> slot <= cnt < sfds.Length && sfds[slot] == socket
    {
      slot := sfds.Length;
      if socket in Clients() {
        var k :| 0 <= k < cnt && Clients()[k] == socket;
        slot := k + 1;
      }
    }

    /** Finds the slot of a socket. The program's loop goes on to the place behind the table if and only
        if the socket is in no slot; here the search stops and says so. A client is always found. */
    method SocketIndex(socket: int) returns (i: nat, overrun: bool)
      requires Valid()
      ensures overrun <==> forall k :: 1 <= k < sfds.Length ==> sfds[k] != socket
      ensures !overrun ==> 1 <= i < sfds.Length && sfds[i] == socket && forall k :: 1 <= k < i ==> sfds[k] != socket
      ensures socket in Clients() ==> !overrun && i <= cnt
    {
      hide Table, Clients;
      ghost var slot := SlotOf(socket);
      i, overrun := 1, false;
      while i <= sfds.Length
        invariant 1 <= i <= slot
        invariant forall k :: 1 <= k < i ==> sfds[k] != socket
      {
        if i == sfds.Length {
          overrun := true;
          return;
        }
        if sfds[i] == socket {
          return;
        }
        i := i + 1;
      }
    }

    /** Admits a connection that was just accepted, unless the table is full.  The flags say whether
        the peer's address was found and the two key exchanges succeeded.  A peer without an address is
        counted but has no slot, so the table is not one any more; a failed exchange leaves it whole. */
    method AddClient(newClient: int, peerOk: bool, twoPartyOk: bool, nPartyOk: bool) returns (r: Outcome)
      requires Valid() && newClient > 0 && newClient !in fds
      modifies this, sfds
      ensures sfds[0] == old(sfds[0]) && sent == old(sent) && r != Abort
      ensures r == Rejected <==> old(cnt) + 1 == sfds.Length
      ensures r == Rejected ==> Valid() && State() == old(State()) && nfds == old(nfds)
      ensures r == Handled <==> old(cnt) + 1 < sfds.Length && peerOk && twoPartyOk && (old(cnt) == 0 || nPartyOk)
      ensures r != Rejected ==> cnt == old(cnt) + 1 && fds == old(fds) + {newClient}
      ensures r != Rejected && peerOk ==> Valid() && Clients() == old(Clients()) + [newClient]
      ensures r != Rejected && !peerOk ==> !Valid() && sfds[..] == old(sfds[..])
    {
      hide Table;
      Slots();
      if cnt + 1 == sfds.Length {
        return Rejected;
      }
      ghost var slots := sfds[..];
      AddSlot(slots, cnt, fds, nfds, newClient);
      fds := fds + {newClient};
      nfds := if newClient > nfds then newClient else nfds;
      cnt := cnt + 1;
      if !peerOk {
        Unfilled(slots, cnt, fds, nfds);
        return Fatal;
      }
      PlaceClient(newClient);
      assert sfds[1..cnt + 1] == sfds[..][1..cnt + 1];
      if !twoPartyOk || (cnt > 1 && !nPartyOk) {
        return Fatal;
      }
      return Handled;
    }

    // The loop that looks for the first free slot, which is slot cnt.
    method PlaceClient(newClient: int)
      requires 1 <= cnt < sfds.Length && sfds[cnt] == 0
      requires forall k :: 0 < k < cnt ==> sfds[k] != 0
      modifies sfds
      ensures sfds[..] == old(sfds[..])[cnt := newClient]
    {
      for i := 1 to sfds.Length
        invariant i <= cnt && sfds[..] == old(sfds[..])
      {
        if sfds[i] == 0 {
          sfds[i] := newClient;
          break;
        }
      }
    }

    /** Drops a connection and fills its slot with the last one. */
    method DisconnectClient(index: nat)
      requires Valid() && 1 <= index <= cnt
      modifies this, sfds
      ensures Valid() && sfds[0] == old(sfds[0]) && sent == old(sent) && nfds == old(nfds)
      ensures Clients() == RemoveSlot(old(Clients()), index - 1)
      ensures fds == old(fds) - {old(sfds[index])}
    {
      ghost var slots := sfds[..];
      DropSlot(slots, cnt, fds, nfds, index);
      hide Table;
      fds := fds - {sfds[index]};
      if cnt == 1 {
        sfds[index] := 0;
      } else {
        sfds[index] := sfds[cnt];
        sfds[cnt] := 0;
      }
      assert sfds[..] == AfterRemoval(slots, cnt, index);
      cnt := cnt - 1;
      assert sfds[1..cnt + 1] == sfds[..][1..cnt + 1];
      assert old(sfds[1..cnt + 1]) == slots[1..cnt + 2];
    }

    /** Forwards a cable to everybody but its sender; stops at the first failed send. */
    method TransferMessage(sender: nat, cable: T) returns (ok: bool)
      requires Valid() && 1 <= sender <= cnt
      modifies this`sent
      ensures Valid() && Clients() == old(Clients()) && sfds[..] == old(sfds[..])
      ensures ok ==> sent == old(sent) + Fanout(Clients(), sender - 1, cable)
      ensures !ok ==> exists k :: Forwarded(old(sent), sent, Clients(), k, sender, cable)
    {
      hide Fanout;
      assert cnt < sfds.Length;
      ghost var clients := Clients();
      NoFanout(clients, sender - 1, cable);
      hide Table;
      var i := 1;
      while i <= cnt
        invariant 1 <= i <= cnt + 1
        invariant sent == old(sent) + Fanout(clients[..i - 1], sender - 1, cable)
      {
        FanoutStep(clients, i - 1, sender - 1, cable);
        if i != sender {
          var delivered: bool := *;
          if !delivered {
            assert Forwarded(old(sent), sent, Clients(), i - 1, sender, cable);
            return false;
          }
          sent := sent + [(sfds[i], cable)];
        }
        i := i + 1;
      }
      assert clients[..cnt] == clients;
      return true;
    }

    /** A ready client: it hung up, or sent this cable to forward.  The flags say what the environment
        did: whether the client hung up and its socket could be closed, whether the exchange of those who
        stay succeeded, whether the cable came in whole.  The daemon aborts if and only if its only client
        hangs up and is closed. */
    method RecvClient(index: nat, cable: T, hungUp: bool, closed: bool, nPartyOk: bool, received: bool) returns (r: Outcome)
      requires Valid() && 1 <= index <= cnt
      modifies this, sfds
      ensures Valid() && sfds[0] == old(sfds[0]) && nfds == old(nfds) && r != Rejected
      ensures r == Abort <==> hungUp && closed && old(cnt) == 1
      ensures r == Abort ==> Clients() == []
      ensures hungUp ==> (r == Handled <==> closed && old(cnt) > 1 && nPartyOk)
      ensures hungUp ==> Clients() == RemoveSlot(old(Clients()), index - 1) && fds == old(fds) - {old(sfds[index])}
      ensures hungUp || !received ==> sent == old(sent)
      ensures !hungUp ==> Clients() == old(Clients()) && State() == old(State()).(sent := sent)
      ensures !hungUp && r == Handled ==> received && sent == old(sent) + Fanout(Clients(), index - 1, cable)
      ensures !hungUp && received && r != Handled ==> exists k :: Forwarded(old(sent), sent, Clients(), k, index, cable)
    {
      hide Fanout;
      if hungUp {
        DisconnectClient(index);
        if !closed {
          return Fatal;
        }
        if cnt == 0 {
          return Abort;  // the assertion at the head of n_party_server
        }
        return if nPartyOk then Handled else Fatal;
      }
      if !received {
        return Fatal;
      }
      var ok := TransferMessage(index, cable);
      return if ok then Handled else Fatal;
    }

    /** The listener is ready: a connection is accepted, with a descriptor that is not in use, or the
        accept fails. */
    method Accept() returns (r: Outcome, ghost deed: Deed<T>)
      requires Valid()
      modifies this, sfds
      ensures sfds[0] == old(sfds[0])
      ensures r == Handled || r == Rejected || r == Fatal
      ensures r != Fatal ==> Valid() && old(fds) <= fds
      ensures match deed
              case NoConnection => r == Fatal && State() == old(State())
              case Connection(_, _, _, _) => Admitted(old(State()), State(), deed, r)
              case _ => false
    {
      FreshDescriptor();
      var newClient: int :| newClient > 0 && newClient !in fds;
      var accepted: bool, peerOk: bool, twoPartyOk: bool, nPartyOk: bool := *, *, *, *;
      if !accepted {
        return Fatal, NoConnection;
      }
      deed := Connection(newClient, peerOk, twoPartyOk, nPartyOk);
      r := AddClient(newClient, peerOk, twoPartyOk, nPartyOk);
    }

    // What the loop at the slot of a client does with it.
    method Receive(index: nat) returns (r: Outcome, ghost deed: Deed<T>)
      requires Valid() && 1 <= index <= cnt
      modifies this, sfds
      ensures Valid() && sfds[0] == old(sfds[0]) && nfds == old(nfds) && r != Rejected
      ensures r == Abort ==> Clients() == []
      ensures old(fds) - {old(sfds[index])} <= fds
      ensures match deed
              case HangUp(_, _) => Dropped(old(State()), State(), old(sfds[index]), index, deed, r)
              case Data(_, _) => PassedOn(old(State()), State(), index, deed, r)
              case _ => false
    {
      hide Fanout, RemoveSlot, Forwarded, Table, ClientsOf, Clients;
      var cable: T := *;
      var hungUp: bool, closed: bool, nPartyOk: bool, received: bool := *, *, *, *;
      StateClients();
      r := RecvClient(index, cable, hungUp, closed, nPartyOk, received);
      StateClients();
      if hungUp {
        deed := HangUp(closed, nPartyOk);
      } else {
        deed := Data(cable, received);
      }
    }

    /** A ready descriptor: the listener's or a client's, whatever the environment makes of it. The entry says
        what became of it. */
    method HandleReady(fd: int) returns (r: Outcome, ghost entry: Entry<T>)
      requires Valid() && fd in fds
      modifies this, sfds
      ensures sfds.Length > 0 && sfds[0] == old(sfds[0])
      ensures r == Handled || r == Rejected ==> Valid() && old(fds) - {fd} <= fds
      ensures fd != sfds[0] ==> nfds == old(nfds) && r != Rejected
      ensures r == Abort ==> Valid() && Clients() == []
      ensures Effect(entry) && entry.fd == fd && entry.before == old(State()) && entry.after == State() && entry.outcome == r
    {
      hide Admitted, Dropped, PassedOn;
      assert sfds.Length > 0 && cnt < sfds.Length;
      ghost var before, deed := State(), NoConnection;
      if fd == sfds[0] {
        hide Table;
        r, deed := Accept();
        entry := Entry(fd, 0, deed, before, State(), r);
      } else {
        InTable(fd);
        var index, overrun := SocketIndex(fd);
        hide Table;
        r, deed := Receive(index);
        entry := Entry(fd, index, deed, before, State(), r);
      }
    }

    /** One pass over the descriptors that were ready when the pass began.  However the table changes
        on the way, every ready descriptor is the listener or is found in the table, and is turned to
        exactly once. */
    method Scan(rdy: set<int>) returns (r: Outcome, ghost log: seq<Entry<T>>)
      requires Valid() && rdy <= fds
      modifies this, sfds
      ensures sfds.Length > 0 && sfds[0] == old(sfds[0])
      ensures r == Handled ==> Valid()
      ensures r == Abort ==> Valid() && Clients() == []
      ensures r != Rejected
      ensures Pass(log, rdy, old(State()), State(), r)
    {
      hide Under, Effect, Pass, Table, Clients, State;
      Positive();
      var i := 0;
      log := [];
      PassBegins(rdy, State());
      while i <= nfds
        invariant 0 <= i && Valid() && sfds[0] == old(sfds[0])
        invariant forall fd :: fd in rdy && fd >= i ==> fd in fds
        invariant Under(log, rdy, i, old(State()), State())
        decreases if i <= sfds[0] then 1 else 0, nfds - i
      {
        if i in rdy {
          ghost var entry;
          r, entry := HandleReady(i);
          PassGoesOn(log, rdy, old(State()), entry);
          log := log + [entry];
          if r == Fatal || r == Abort {
            return;
          }
        } else {
          PassSkips(log, rdy, i, old(State()), State());
        }
        i := i + 1;
      }
      r := Handled;
      Positive();
      PassEnds(log, rdy, i, old(State()), State());
    }

    // No descriptor is below the first place of the scan or above the last.
    lemma Positive()
      requires Valid()
      ensures sfds.Length > 0 && forall fd :: fd in fds ==> 0 < fd <= nfds
    {
      assert |sfds[..]| > 0;
      forall fd | fd in fds ensures 0 < fd <= nfds {
        var k :| 0 <= k < cnt + 1 && sfds[..][..cnt + 1][k] == fd;
        assert sfds[..][k] == fd;
      }
    }

    /** The daemon's loop, for any number of passes over any sets of ready descriptors. */
    method Serve(passes: nat) returns (r: Outcome, ghost logs: seq<PassLog<T>>)
      requires Valid()
      modifies this, sfds
      ensures r == Handled ==> Valid()
      ensures r == Abort ==> Valid() && Clients() == []
      ensures r != Rejected
      ensures Passes(logs, old(State()), State(), r) && (r == Handled ==> |logs| == passes)
    {
      hide Pass, Table;
      logs := [];
      r := Handled;
      for k := 0 to passes
        invariant Valid() && r == Handled && |logs| == k && Passes(logs, old(State()), State(), r)
      {
        assert {} <= fds;
        var rdy: set<int> :| rdy <= fds;
        ghost var begins, log := State(), [];
        r, log := Scan(rdy);
        ghost var p := PassLog(rdy, log, begins);
        assert (logs + [p])[..|logs|] == logs;
        logs := logs + [p];
        if r != Handled {
          return;
        }
      }
    }
  }
}
