/** When an exchange succeeds: it fails exactly if a cable is in its way. */
module ExchangeOutcome {
  import opened GroupSecret
  import opened Protocol
  import opened ProtocolSafety
  import opened ProtocolCables
  import opened ProtocolLiveness

  /** Whatever step an exchange takes, a cable is in its way afterwards if and only if one was before;
      the daemon fails only on such a cable, and ends the exchange only if there is none. */
  lemma InternalKeeps(s: Suite, st: State, e: Event, i: nat)
    requires Commutes(s) && Safe(s, st) && Exchange(st) && Internal(e) && Enabled(st, e) && i < |st.conns|
    ensures var st' := Apply(s, st, e);
            && |st'.conns| == |st.conns| && (Exchange(st') || st'.server.Failed? || st'.server.Idle?)
            && (st'.server.Failed? ==> st.server.Rotate? && st.server.at < |st.conns| && Disturbed(st, st.server.at))
            && (Exchange(st') ==> (Disturbed(st', i) <==> Disturbed(st, i)))
            && (st'.server.Idle? ==> !Disturbed(st, i))
  {
    if e.ServerStep? {
      ServerKeeps(s, st, e, i);
    } else {
      ClientStepKeeps(s, st, e.client, i);
    }
  }

  lemma ClientStepKeeps(s: Suite, st: State, j: nat, i: nat)
    requires Safe(s, st) && Exchange(st) && Enabled(st, ClientStep(j)) && i < |st.conns|
    ensures var st' := Apply(s, st, ClientStep(j));
            st'.server == st.server && |st'.conns| == |st.conns| && (Disturbed(st', i) <==> Disturbed(st, i))
  {
    hide ConnOk, InTheWay, Keys, Snt, Rcvd, ClientNext;
    var p :| Inv(s, st, p);
    if i == j {
      var e := Account(s, st, p, i);
      ExchangeNotConnecting(s, e, i, st.conns[i], p.got[i], Snt(st.server, i, |st.conns|), Rcvd(st.server, i));
      ClientKeeps(s, e, i, st.conns[i], p.got[i], Snt(st.server, i, |st.conns|), Rcvd(st.server, i));
    }
  }

  // In the daemon's loop nothing fails before somebody joins or leaves.
  lemma {:induction false} IdleStays(s: Suite, st: State, events: seq<Event>, end: State)
    requires Commutes(s) && Safe(s, st) && st.server.Idle? && Run(s, st, events, end)
    requires forall e :: e in events ==> Internal(e)
    ensures end.server.Idle?
    decreases |events|
  {
    if events != [] {
      var e := events[0];
      assert e in events && Internal(e);
      StepSafe(s, st, e);
      if e.Forward? {
        var p :| Inv(s, st, p);
        ForwardOk(s, st, p, e.client);
      }
      assert forall e :: e in events[1..] ==> e in events;
      IdleStays(s, Apply(s, st, e), events[1..], end);
    }
  }

  /** An exchange that is left to itself fails if and only if a cable is in its way; otherwise it ends
      with everything handled. */
  lemma {:induction false} FailsExactlyIfDisturbed(s: Suite, st: State, events: seq<Event>, end: State)
    requires Commutes(s) && Safe(s, st) && Exchange(st) && Run(s, st, events, end)
    requires forall e :: e in events ==> Internal(e)
    requires forall e :: Internal(e) ==> !Enabled(end, e)
    ensures end.server.Failed? <==> exists i: nat :: i < |st.conns| && Disturbed(st, i)
    ensures !end.server.Failed? ==> Quiescent(end)
    decreases |events|
  {
    hide Disturbed;
    if events == [] {
      var e := NotStuck(s, st);
    } else {
      hide Safe;
      var e := events[0];
      var next := Apply(s, st, e);
      assert Internal(e);
      StepSafe(s, st, e);
      forall i: nat | i < |st.conns|
        ensures Exchange(next) ==> (Disturbed(next, i) <==> Disturbed(st, i))
        ensures next.server.Idle? ==> !Disturbed(st, i)
      {
        InternalKeeps(s, st, e, i);
      }
      Somebody(s, st);
      InternalKeeps(s, st, e, 0);
      assert forall e :: e in events[1..] ==> e in events;
      if Exchange(next) {
        FailsExactlyIfDisturbed(s, next, events[1..], end);
      } else if next.server.Idle? {
        IdleStays(s, next, events[1..], end);
        MaximalRunsEndQuiescent(s, next, events[1..], end);
      } else {
        OverIsTheEnd(s, next, events[1..], end);
        assert Disturbed(st, st.server.at);
      }
    }
  }

  lemma Somebody(s: Suite, st: State)
    requires Safe(s, st) && Exchange(st)
    ensures |st.conns| >= 2
  {}

  // ---- What disturbs ----

  /** An exchange begins with a cable in its way exactly where one is waiting to be read, or where a client
      has yet to end its first exchange and will announce itself. */
  lemma BeginsDisturbed(s: Suite, conns: seq<Conn>, key: Key, renewed: Key, draws: seq<Key>, i: nat)
    requires |conns| >= 2 && i < |conns| && Rested(s, conns[i], key)
    ensures Disturbed(Begin(conns, key, renewed, draws), i) <==> conns[i].up != [] || Owes(conns[i].client)
  {
    BlockedAlone(conns[i].up);
    hide Blocked, Keys, Pending;
  }

  /** A cable that a user sends during an exchange is in its way exactly if the client has not yet sent its
      last intermediate. */
  lemma SayDisturbs(s: Suite, st: State, i: nat, text: Key, j: nat)
    requires Exchange(st) && Enabled(st, Say(i, text)) && j < |st.conns|
    ensures var st' := Apply(s, st, Say(i, text));
            Disturbed(st', j) <==>
              Disturbed(st, j) || (i == j && Rcvd(st.server, i) + |Keys(st.conns[i].up)| + 1 < |st.conns|)
  {
    var m := Cable(st.conns[i].client.session, text);
    KeysAppend(st.conns[i].up, [m]);
    KeysOne(m);
    BlockedByCable(st.conns[i].up, m, Rcvd(st.server, i) + |Keys(st.conns[i].up)| + 1 < |st.conns|);
    hide Blocked, Keys;
  }

  // ---- Runs ----

  // Nothing waits to be read from the connection, and nothing will before the next control message.
  predicate Quiet(conn: Conn) { conn.up == [] && !Owes(conn.client) }

  /** Users and daemon keep out of the way: cables are not sent while the client's intermediates are due,
      and nobody is admitted or dropped while another client is not quiet. */
  predicate Considerate(st: State, e: Event) {
    match e
    case Say(i, _) => Exchange(st) && i < |st.conns| ==> Rcvd(st.server, i) + |Keys(st.conns[i].up)| + 1 >= |st.conns|
    case Leave(i, _, _) =>
      i < |st.conns| && |st.conns| >= 3 ==> forall j :: 0 <= j < |st.conns| - 1 ==> Quiet(RemoveSlot(st.conns, i)[j])
    case ServerStep(_, _, _) =>
      st.server.SentPublic? && |st.conns| >= 2 ==> forall j :: 0 <= j < |st.conns| - 1 ==> Quiet(st.conns[j])
    case _ => true
  }

  ghost predicate Undisturbed(st: State) {
    Exchange(st) ==> forall i: nat :: i < |st.conns| ==> !Disturbed(st, i)
  }

  lemma BeginUndisturbed(s: Suite, conns: seq<Conn>, key: Key, renewed: Key, draws: seq<Key>)
    requires forall i :: 0 <= i < |conns| ==> Rested(s, conns[i], key)
    ensures Undisturbed(Begin(conns, key, renewed, draws))
      <==> (|conns| >= 2 ==> forall i :: 0 <= i < |conns| ==> Quiet(conns[i]))
  {
    hide Disturbed, Rested, Owes;
    if |conns| >= 2 {
      forall i: nat | i < |conns| ensures Disturbed(Begin(conns, key, renewed, draws), i) <==> !Quiet(conns[i]) {
        BeginsDisturbed(s, conns, key, renewed, draws, i);
      }
    }
  }

  /** A step that is taken while nothing is in the way leaves it so exactly if it is considerate. */
  lemma ConsiderateExactly(s: Suite, st: State, e: Event)
    requires Commutes(s) && Safe(s, st) && Undisturbed(st) && Enabled(st, e)
    ensures Undisturbed(Apply(s, st, e)) <==> Considerate(st, e)
    ensures Considerate(st, e) ==> !Apply(s, st, e).server.Failed?
  {
    hide Disturbed, Safe, Quiet, Keys;
    if Exchange(st) && Internal(e) {
      forall i: nat | i < |st.conns|
        ensures Exchange(Apply(s, st, e)) ==> (Disturbed(Apply(s, st, e), i) <==> Disturbed(st, i))
      {
        InternalKeeps(s, st, e, i);
      }
      Somebody(s, st);
      InternalKeeps(s, st, e, 0);
    } else if Exchange(st) {
      forall j: nat | j < |st.conns|
        ensures Disturbed(Apply(s, st, e), j) <==> (e.client == j && !Considerate(st, e))
      {
        SayDisturbs(s, st, e.client, e.text, j);
      }
      assert Exchange(Apply(s, st, e)) && |Apply(s, st, e).conns| == |st.conns|;
      assert Disturbed(Apply(s, st, e), e.client) <==> !Considerate(st, e);
    } else if e.Leave? {
      LeaveRested(s, st, e.client);
      BeginUndisturbed(s, RemoveSlot(st.conns, e.client), st.key, e.renewed, e.draws);
    } else if st.server.SentPublic? && e.ServerStep? {
      var last := |st.conns| - 1;
      var conns := st.conns[last := Push(st.conns[last], SessionKey(st.server.shared, st.key))];
      WelcomedRested(s, st);
      BeginUndisturbed(s, conns, st.key, e.renewed, e.draws);
      assert forall j :: 0 <= j < last ==> conns[j] == st.conns[j];
    } else {
      Elsewhere(s, st, e);
    }
  }

  lemma LeaveRested(s: Suite, st: State, i: nat)
    requires Safe(s, st) && st.server.Idle? && i < |st.conns|
    ensures forall j :: 0 <= j < |st.conns| - 1 ==> Rested(s, RemoveSlot(st.conns, i)[j], st.key)
  {
    hide Rested;
    var p :| Inv(s, st, p);
    RestedSlots(s, st.conns, st.key, i);
  }

  // The newcomer is quiet when its greeting is over.
  lemma WelcomedRested(s: Suite, st: State)
    requires Safe(s, st) && st.server.SentPublic? && |st.conns| > 0
    ensures var last := |st.conns| - 1;
            var conns := st.conns[last := Push(st.conns[last], SessionKey(st.server.shared, st.key))];
            Quiet(conns[last]) && forall j :: 0 <= j < |conns| ==> Rested(s, conns[j], st.key)
  {
    var p :| Inv(s, st, p);
  }

  // Outside exchanges and their beginnings nothing begins and nothing fails.
  lemma Elsewhere(s: Suite, st: State, e: Event)
    requires Safe(s, st) && !Exchange(st) && Enabled(st, e)
    requires !e.Leave? && !(st.server.SentPublic? && e.ServerStep?)
    ensures !Exchange(Apply(s, st, e)) && !Apply(s, st, e).server.Failed?
  {
    hide Keys, React, Pending;
    var p :| Inv(s, st, p);
    if e.Forward? {
      ForwardOk(s, st, p, e.client);
    }
  }

  ghost predicate ConsiderateRun(s: Suite, st: State, events: seq<Event>, end: State)
    decreases |events|
  {
    if events == [] then st == end
    else Enabled(st, events[0]) && Considerate(st, events[0]) && ConsiderateRun(s, Apply(s, st, events[0]), events[1..], end)
  }

  lemma {:induction false} ConsiderateIsRun(s: Suite, st: State, events: seq<Event>, end: State)
    requires ConsiderateRun(s, st, events, end)
    ensures Run(s, st, events, end)
    decreases |events|
  {
    if events != [] {
      ConsiderateIsRun(s, Apply(s, st, events[0]), events[1..], end);
    }
  }

  /** Hence no considerate run, of any length and in any interleaving, ever fails. */
  lemma {:induction false} ConsiderateNeverFails(s: Suite, st: State, events: seq<Event>, end: State)
    requires Commutes(s) && Safe(s, st) && Undisturbed(st) && !st.server.Failed? && ConsiderateRun(s, st, events, end)
    ensures Safe(s, end) && Undisturbed(end) && !end.server.Failed?
    decreases |events|
  {
    hide Undisturbed, Safe, Considerate;
    if events != [] {
      StepSafe(s, st, events[0]);
      ConsiderateExactly(s, st, events[0]);
      ConsiderateNeverFails(s, Apply(s, st, events[0]), events[1..], end);
    }
  }

  /** And once nothing is left to do in one, everybody is in the receive loop under the daemon's control key
      and one session key, unless the last client has left. */
  lemma ConsiderateRunsAgree(s: Suite, key: Key, events: seq<Event>, end: State, i: nat)
    requires Commutes(s) && ConsiderateRun(s, Init(key), events, end)
    requires forall e :: Internal(e) ==> !Enabled(end, e)
    ensures end.server.Aborted? || Quiescent(end)
    ensures i < |end.conns| && !end.server.Aborted? ==>
      end.conns[i].client.phase.Listening? && end.conns[i].client.ctrl == end.key
      && (|end.conns| >= 2 ==> end.conns[i].client.session == end.conns[0].client.session)
  {
    InitSafe(s, key);
    ConsiderateIsRun(s, Init(key), events, end);
    ConsiderateNeverFails(s, Init(key), events, end);
    MaximalRunsEndQuiescent(s, Init(key), events, end);
    if i < |end.conns| && !end.server.Aborted? {
      ProtocolLiveness.Agreement(s, key, events, end, i);
    }
  }
}
