/** Two places where `server.js` behaves in a way that is evidently
    unintended. `Server` models each as written; here an input exhibits
    the gap, next to the corrected behaviour with the intended property
    proved. */
module Findings {
  import opened Wrappers
  import opened Protocol
  import opened Registry
  import opened Server
  import opened Invariants
  import opened Properties

  // ---------------------------------------------------------------------
  // 1. The "Name already exists" test reads inherited properties.
  // ---------------------------------------------------------------------

  /** Corrected `onRegister`: "Name already exists" is answered only for
      an own key of the registry, never for an inherited property name. */
  function OnRegisterOwnKeys(s: State, c: ConnId, name: Option<string>): (r: Transition)
    requires c < |s.clients|
    ensures !(!Truthy(s.clients[c].userName) && Truthy(name) && name.value in InheritedNames) ==>
              r == OnRegister(s, c, name)
    ensures !Truthy(s.clients[c].userName) && Truthy(name) && !Has(s.users, name.value) ==>
              var n := name.value;
              && r.state.users == s.users + [Entry(n, User(n))]
              && r.state.clients == s.clients[c := Conn(Some(n), s.clients[c].open)]
              && |r.out| >= 1 && r.out[0] == Out(c, OkRegister(n))
              && IsBroadcast(r.out[1..], r.state.clients, UsersEvent(r.state.users))
    ensures |r.state.clients| == |s.clients| && r.state.clients[c].open == s.clients[c].open
    ensures forall d :: 0 <= d < |s.clients| && d != c ==> r.state.clients[d] == s.clients[d]
  {
    if Truthy(s.clients[c].userName) then
      Transition(s, [Out(c, Error(Some("register"), AlreadyRegistered))])
    else if !Truthy(name) then
      Transition(s, [Out(c, Error(Some("register"), NameEmpty))])
    else if Has(s.users, name.value) then
      Transition(s, [Out(c, Error(Some("register"), NameExists))])
    else
      Admit(s, c, name.value)
  }

  const ToStringMsg := Msg(Some("register"), Some("toString"), None, None)

  /** On a fresh server with one anonymous connection, registering
      "toString" is refused as written although the registry is empty,
      and accepted by the corrected handler. */
  lemma InheritedNameRefused(now: Timestamp)
    ensures var s := State([], [Conn(None, true)]);
            && !Has(s.users, "toString")
            && Refused(Step(s, Received(0, Text(ToStringMsg), now)), s, 0, "register", NameExists)
            && OnRegisterOwnKeys(s, 0, Some("toString")).state.users == [Entry("toString", User("toString"))]
  {
    var s := State([], [Conn(None, true)]);
    assert Step(s, Received(0, Text(ToStringMsg), now)) == OnRegister(s, 0, Some("toString")) by {
      assert Step(s, Received(0, Text(ToStringMsg), now)) == Dispatch(s, 0, Text(ToStringMsg), now);
    }
  }

  /** Corrected: register answers "Name already exists" exactly when the
      name is a key of the registry (for an anonymous connection and a
      non-empty name). */
  lemma NameExistsOnlyForHeldNames(s: State, c: ConnId, name: Option<string>)
    requires c < |s.clients|
    ensures OnRegisterOwnKeys(s, c, name).out == [Out(c, Error(Some("register"), NameExists))] <==>
            !Truthy(s.clients[c].userName) && Truthy(name) && Has(s.users, name.value)
  {
    var r := OnRegisterOwnKeys(s, c, name);
    if !Truthy(s.clients[c].userName) && Truthy(name) && !Has(s.users, name.value) {
      assert r.out[0] == Out(c, OkRegister(name.value));
    }
  }

  /** The corrected register keeps the invariant. */
  lemma RegisterOwnKeysKeepsInv(s: State, c: ConnId, name: Option<string>)
    requires Inv(s) && c < |s.clients| && s.clients[c].open
    ensures Inv(OnRegisterOwnKeys(s, c, name).state)
  {
    if !Truthy(s.clients[c].userName) && Truthy(name) && !Has(s.users, name.value) {
      BindFreshKeepsInv(s, c, name.value);
    } else if !(!Truthy(s.clients[c].userName) && Truthy(name) && name.value in InheritedNames) {
      RegisterKeepsInv(s, c, name);
    }
  }

  // ---------------------------------------------------------------------
  // 2. Disconnect cleanup keeps a stale `ws.userName`.
  // ---------------------------------------------------------------------

  const S1 := State([Alice], [Conn(Some("alice"), true), Conn(None, true)])
  const S2 := State([], [Conn(Some("alice"), false), Conn(None, true)])
  const S3 := State([Alice], [Conn(Some("alice"), false), Conn(Some("alice"), true)])
  const S4 := State([], [Conn(Some("alice"), false), Conn(Some("alice"), true)])

  /** The cleanup after A's error: it deletes "alice" and pushes nothing,
      since no connection is both bound and open. */
  lemma StaleFirstCleanup()
    ensures OnDisconnect(State([Alice], S2.clients), 0) == Transition(S2, [])
  {
    assert Has([Alice], "alice");
    assert Delete([Alice], "alice") == [];
    assert Broadcast(S2.clients, UsersEvent([])) == [] by {
      assert Fanout(S2.clients, 2, UsersEvent([])) == [];
      FanoutConsSkipped(S2.clients, 1, UsersEvent([]));
      FanoutConsSkipped(S2.clients, 0, UsersEvent([]));
    }
  }

  /** A (connection 0, "alice") fails: its entry goes, its name stays. */
  lemma StaleFirstDisconnect()
    ensures Step(S1, Failed(0)) == Transition(S2, [])
  {
    assert Step(S1, Failed(0)) == OnDisconnect(State([Alice], S2.clients), 0) by {
      assert MarkClosed(S1, 0) == State([Alice], S2.clients);
    }
    StaleFirstCleanup();
  }

  /** The events of B's registration of the freed name: the reply, then
      the list `[alice]` to B, the only connection both bound and open. */
  lemma StaleReAdmittedOut()
    ensures Admit(S2, 1, "alice").out == [Out(1, OkRegister("alice")), Out(1, Users([User("alice")]))]
  {
    var e := Users([User("alice")]);
    var r := Admit(S2, 1, "alice");
    assert Put([], "alice", User("alice")) == [Alice];
    assert r.state == S3;
    BroadcastIsUnique(r.out[1..], r.state.clients, UsersEvent(r.state.users));
    HeadTail(r.out, Out(1, OkRegister("alice")));
    assert UsersEvent([Alice]) == e by {
      assert Values([Alice]) == [User("alice")];
    }
    assert Broadcast(S3.clients, e) == [Out(1, e)] by {
      assert Fanout(S3.clients, 2, e) == [];
      FanoutConsEligible(S3.clients, 1, e);
      FanoutConsSkipped(S3.clients, 0, e);
    }
  }

  /** The handler's part of B's registration of the freed name. */
  lemma StaleReRegisterHandler()
    ensures OnRegister(S2, 1, Some("alice")) ==
            Transition(S3, [Out(1, OkRegister("alice")), Out(1, Users([User("alice")]))])
  {
    assert !NameTaken([], "alice");
    assert OnRegister(S2, 1, Some("alice")) == Admit(S2, 1, "alice");
    assert Admit(S2, 1, "alice").state == S3 by {
      assert Put([], "alice", User("alice")) == [Alice];
    }
    StaleReAdmittedOut();
  }

  /** B (connection 1) then registers the freed name "alice". */
  lemma StaleReRegister(now: Timestamp)
    ensures Step(S2, Received(1, Text(AliceMsg), now)) ==
            Transition(S3, [Out(1, OkRegister("alice")), Out(1, Users([User("alice")]))])
  {
    assert Step(S2, Received(1, Text(AliceMsg), now)) == OnRegister(S2, 1, Some("alice")) by {
      assert Step(S2, Received(1, Text(AliceMsg), now)) == Dispatch(S2, 1, Text(AliceMsg), now);
    }
    StaleReRegisterHandler();
  }

  /** The cleanup for A's close signal finds "alice" registered again,
      deletes it and tells B. */
  lemma StaleSecondCleanup()
    ensures OnDisconnect(S3, 0) == Transition(S4, [Out(1, Users([]))])
  {
    assert Has([Alice], "alice");
    assert Delete([Alice], "alice") == [];
    assert Broadcast(S4.clients, UsersEvent([])) == [Out(1, Users([]))] by {
      assert Fanout(S4.clients, 2, UsersEvent([])) == [];
      FanoutConsEligible(S4.clients, 1, UsersEvent([]));
      FanoutConsSkipped(S4.clients, 0, UsersEvent([]));
    }
  }

  /** A's close signal arrives after its error: the cleanup deletes the
      entry B now holds, and B is left bound to a name the registry lacks. */
  lemma StaleSecondDisconnect()
    ensures Hazard(S3, Closed(0))
    ensures Step(S3, Closed(0)) == Transition(S4, [Out(1, Users([]))])
    ensures !Inv(S4)
  {
    assert Has([Alice], "alice");
    assert Step(S3, Closed(0)) == OnDisconnect(S3, 0) by {
      assert MarkClosed(S3, 0) == S3;
    }
    StaleSecondCleanup();
    assert !BoundAreKeys(S4) by {
      assert S4.clients[1].open && S4.clients[1].userName == Some("alice");
    }
  }

  /** After the stale cleanup, B can neither send, nor register, nor exit. */
  lemma StaleOwnerStranded(data: Option<Json>, now: Timestamp)
    ensures Refused(OnSend(S4, 1, data, now), S4, 1, "send", NotRegistered)
    ensures Refused(OnRegister(S4, 1, Some("bob")), S4, 1, "register", AlreadyRegistered)
    ensures Refused(OnExit(S4, 1), S4, 1, "exit", NotRegistered)
  {
  }

  /** Corrected `onDisconnect`: like `onExit`, it also clears the
      connection's name, so nothing stale outlives the connection. */
  function OnDisconnectUnbinding(s: State, c: ConnId): (r: Transition)
    requires c < |s.clients|
    ensures r.state.clients == s.clients[c := Conn(None, s.clients[c].open)]
    ensures !Registered(s, c) ==> r.state.users == s.users && r.out == []
    ensures Registered(s, c) ==>
              var n := s.clients[c].userName.value;
              && (forall x :: Has(r.state.users, x) <==> Has(s.users, x) && x != n)
              && r.state.users == Delete(s.users, n)
              && IsBroadcast(r.out, r.state.clients, UsersEvent(r.state.users))
  {
    var conn := s.clients[c];
    var clients' := s.clients[c := conn.(userName := None)];
    if !Truthy(conn.userName) || !Has(s.users, conn.userName.value) then
      Transition(State(s.users, clients'), [])
    else
      var users' := Delete(s.users, conn.userName.value);
      Transition(State(users', clients'), Broadcast(clients', UsersEvent(users')))
  }

  /** A register frame on an open connection. */
  predicate IsRegister(s: State, input: Input)
  {
    && input.Received? && input.c < |s.clients| && s.clients[input.c].open
    && input.frame.Text? && input.frame.msg.typ == Some("register")
  }

  /** The transition function with both corrections: register looks up own
      keys only, and the disconnect cleanup clears the binding. */
  function StepFixed(s: State, input: Input): Transition
  {
    match input
    case Closed(c) => if c < |s.clients| then OnDisconnectUnbinding(MarkClosed(s, c), c) else Transition(s, [])
    case Failed(c) => if c < |s.clients| then OnDisconnectUnbinding(MarkClosed(s, c), c) else Transition(s, [])
    case Opened => Step(s, input)
    case Received(c, frame, _) =>
      if IsRegister(s, input) then OnRegisterOwnKeys(s, c, frame.msg.name) else Step(s, input)
  }

  function RunFixed(s: State, inputs: seq<Input>): Transition
    decreases |inputs|
  {
    if inputs == [] then Transition(s, [])
    else
      var t := StepFixed(s, inputs[0]);
      var rest := RunFixed(t.state, inputs[1..]);
      Transition(rest.state, t.out + rest.out)
  }

  /** The invariant, plus: a closed connection holds no name. */
  ghost predicate InvFixed(s: State)
  {
    && Inv(s)
    && forall c :: 0 <= c < |s.clients| && !s.clients[c].open ==> s.clients[c].userName.None?
  }

  /** The corrected cleanup keeps the invariant for every close or error
      signal, repeated ones included. */
  lemma DisconnectFixedKeepsInv(s: State, c: ConnId)
    requires InvFixed(s) && c < |s.clients|
    ensures InvFixed(OnDisconnectUnbinding(MarkClosed(s, c), c).state)
  {
    var m := MarkClosed(s, c);
    var r := OnDisconnectUnbinding(m, c).state;
    assert r.clients == s.clients[c := Conn(None, false)];
    if Registered(m, c) {
      var n := s.clients[c].userName.value;
      DeleteWellFormed(s.users, n);
      assert s.clients[c].open;
      forall k | Has(r.users, k)
        ensures Owned(r.clients, k)
      {
        assert Owned(s.clients, k);
        var d :| 0 <= d < |s.clients| && s.clients[d].open && s.clients[d].userName == Some(k);
        assert d != c;
        assert r.clients[d] == s.clients[d];
      }
    } else {
      assert r.users == s.users;
      if s.clients[c].open {
        assert s.clients[c].userName.None?;
      }
      forall k | Has(r.users, k)
        ensures Owned(r.clients, k)
      {
        assert Owned(s.clients, k);
        var d :| 0 <= d < |s.clients| && s.clients[d].open && s.clients[d].userName == Some(k);
        assert d != c;
        assert r.clients[d] == s.clients[d];
      }
    }
  }

  /** Every input of the corrected server keeps the invariant. */
  lemma StepFixedKeepsInv(s: State, input: Input)
    requires InvFixed(s)
    ensures InvFixed(StepFixed(s, input).state)
  {
    match input
    case Closed(c) =>
      if c < |s.clients| {
        DisconnectFixedKeepsInv(s, c);
      }
    case Failed(c) =>
      if c < |s.clients| {
        DisconnectFixedKeepsInv(s, c);
      }
    case Opened =>
      StepKeepsInv(s, input);
    case Received(c, frame, now) =>
      if IsRegister(s, input) {
        RegisterOwnKeysKeepsInv(s, c, frame.msg.name);
      } else {
        StepKeepsInv(s, input);
        var r := Step(s, input).state;
        forall d | 0 <= d < |r.clients| && !r.clients[d].open
          ensures r.clients[d].userName.None?
        {
          if c < |s.clients| && s.clients[c].open && frame.Text? {
            if d != c {
              ClosedConnectionUnchanged(s, input, d);
            }
          }
        }
      }
  }

  /** With the corrected cleanup, every run from an invariant state ends in
      an invariant state: no hazard remains to exclude. */
  lemma {:induction false} RunFixedKeepsInv(s: State, inputs: seq<Input>)
    requires InvFixed(s)
    ensures InvFixed(RunFixed(s, inputs).state)
    decreases |inputs|
  {
    if inputs != [] {
      StepFixedKeepsInv(s, inputs[0]);
      RunFixedKeepsInv(StepFixed(s, inputs[0]).state, inputs[1..]);
    }
  }

  /** With the corrected cleanup, a second close or error for a connection
      is a no-op whatever happened in between. */
  lemma {:induction false} RepeatedDisconnectFixedIsNoOp(s: State, c: ConnId, between: seq<Input>, second: Input)
    requires c < |s.clients|
    requires second == Closed(c) || second == Failed(c)
    ensures var t := RunFixed(StepFixed(s, Closed(c)).state, between).state;
            StepFixed(t, second) == Transition(t, [])
  {
    var d := StepFixed(s, Closed(c)).state;
    ClosedStaysUnbound(d, c, between);
    var t := RunFixed(d, between).state;
    assert MarkClosed(t, c) == t;
    assert t.clients[c := Conn(None, false)] == t.clients;
  }

  /** Under the corrected server, a closed connection stays closed and
      unbound for good. */
  lemma {:induction false} ClosedStaysUnbound(s: State, c: ConnId, inputs: seq<Input>)
    requires c < |s.clients| && s.clients[c] == Conn(None, false)
    ensures var t := RunFixed(s, inputs).state;
            c < |t.clients| && t.clients[c] == Conn(None, false)
    decreases |inputs|
  {
    if inputs != [] {
      var t := StepFixed(s, inputs[0]).state;
      if inputs[0].Received? && !IsRegister(s, inputs[0]) {
        ClosedConnectionUnchanged(s, inputs[0], c);
      }
      ClosedStaysUnbound(t, c, inputs[1..]);
    }
  }
}
