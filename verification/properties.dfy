/** Properties of the relay that relate several steps: which inputs may
    add or remove registry entries, when a repeated disconnect is a no-op,
    and a complete session between two clients. */
module Properties {
  import opened Wrappers
  import opened Protocol
  import opened Registry
  import opened Server

  /** The input is a text frame registering `n`. */
  predicate RegistersName(input: Input, n: string)
  {
    input.Received? && input.frame.Text? && input.frame.msg.typ == Some("register") && input.frame.msg.name == Some(n)
  }

  /** The input can remove registry entries: an exit frame, a close or an error. */
  predicate MayRemove(input: Input)
  {
    || input.Closed? || input.Failed?
    || (input.Received? && input.frame.Text? && input.frame.msg.typ == Some("exit"))
  }

  /** Register is the only operation that adds a registry key, and it adds
      only the name it was given. */
  lemma OnlyRegisterAdds(s: State, input: Input, k: string)
    requires !Has(s.users, k) && !RegistersName(input, k)
    ensures !Has(Step(s, input).state.users, k)
  {
    match input
    case Opened =>
    case Received(c, frame, now) =>
      if c < |s.clients| && s.clients[c].open && frame.Text? {
        if frame.msg.typ == Some("register") {
          if RegisterAccepted(s, c, frame.msg.name) {
            HasAppend(s.users, Entry(frame.msg.name.value, User(frame.msg.name.value)), k);
          }
        }
      }
    case Closed(c) =>
    case Failed(c) =>
  }

  /** Exit, close and error are the only inputs that remove a registry key. */
  lemma OnlyExitOrDisconnectRemoves(s: State, input: Input, k: string)
    requires Has(s.users, k) && !MayRemove(input)
    ensures Has(Step(s, input).state.users, k)
  {
    match input
    case Opened =>
    case Received(c, frame, now) =>
      if c < |s.clients| && s.clients[c].open && frame.Text? && frame.msg.typ == Some("register") {
        if RegisterAccepted(s, c, frame.msg.name) {
          HasAppend(s.users, Entry(frame.msg.name.value, User(frame.msg.name.value)), k);
        }
      }
  }

  /** A closed connection is never touched again: it gets no frames and
      cleanup does not clear its name. */
  lemma ClosedConnectionUnchanged(s: State, input: Input, c: ConnId)
    requires c < |s.clients| && !s.clients[c].open
    ensures Step(s, input).state.clients[c] == s.clients[c]
  {
  }

  /** The first close or error of a connection leaves it closed and not
      registered, whatever its state was. */
  lemma DisconnectLeavesUnregistered(s: State, c: ConnId)
    requires c < |s.clients|
    ensures var t := Disconnect(s, c).state;
            && !t.clients[c].open
            && t.clients[c].userName == s.clients[c].userName
            && !Registered(t, c)
  {
  }

  /** While no one registers the stale name of a closed, unregistered
      connection, it stays closed and unregistered. */
  lemma {:induction false} StaysUnregistered(s: State, c: ConnId, inputs: seq<Input>)
    requires c < |s.clients| && !s.clients[c].open && !Registered(s, c)
    requires forall i :: 0 <= i < |inputs| && s.clients[c].userName.Some? ==> !RegistersName(inputs[i], s.clients[c].userName.value)
    ensures var t := Run(s, inputs).state;
            c < |t.clients| && t.clients[c] == s.clients[c] && !Registered(t, c)
    decreases |inputs|
  {
    if inputs != [] {
      var t := Step(s, inputs[0]).state;
      ClosedConnectionUnchanged(s, inputs[0], c);
      if Truthy(s.clients[c].userName) {
        var n := s.clients[c].userName.value;
        OnlyRegisterAdds(s, inputs[0], n);
      }
      StaysUnregistered(t, c, inputs[1..]);
    }
  }

  /** A repeated disconnect is a no-op when nothing in between registers
      the connection's stale name: once a connection has been closed
      (by a close or an error signal), a later close or error for it, after
      any inputs none of which registers its name again, removes nothing
      and sends nothing. */
  lemma RepeatedDisconnectIsNoOp(s: State, c: ConnId, between: seq<Input>, second: Input)
    requires c < |s.clients|
    requires second == Closed(c) || second == Failed(c)
    requires forall i :: 0 <= i < |between| && s.clients[c].userName.Some? ==> !RegistersName(between[i], s.clients[c].userName.value)
    ensures var t := Run(Disconnect(s, c).state, between).state;
            Step(t, second) == Transition(t, [])
  {
    var d := Disconnect(s, c).state;
    DisconnectLeavesUnregistered(s, c);
    StaysUnregistered(d, c, between);
    var t := Run(d, between).state;
    assert MarkClosed(t, c) == t;
  }

  const AliceMsg := Msg(Some("register"), Some("alice"), None, None)
  const BobMsg := Msg(Some("register"), Some("bob"), None, None)
  const Alice := Entry("alice", User("alice"))
  const Bob := Entry("bob", User("bob"))

  /** Two connections open on a fresh server. */
  lemma SessionOpens()
    ensures Run(Init, [Opened, Opened]).state == State([], [Conn(None, true), Conn(None, true)])
    ensures Run(Init, [Opened, Opened]).out == []
  {
    var s1 := Step(Init, Opened).state;
    assert s1 == State([], [Conn(None, true)]);
    assert [Opened, Opened][1..] == [Opened];
  }

  /** With only the first of two open connections bound, a broadcast goes
      to it alone. */
  lemma FanoutToFirst(e: Event)
    ensures Broadcast([Conn(Some("alice"), true), Conn(None, true)], e) == [Out(0, e)]
  {
    var cl := [Conn(Some("alice"), true), Conn(None, true)];
    assert Fanout(cl, 2, e) == [];
    FanoutConsSkipped(cl, 1, e);
    FanoutConsEligible(cl, 0, e);
  }

  /** The registry and bindings after A's registration of "alice". */
  lemma AliceAdmittedState()
    ensures Admit(State([], [Conn(None, true), Conn(None, true)]), 0, "alice").state ==
            State([Alice], [Conn(Some("alice"), true), Conn(None, true)])
  {
    assert Put([], "alice", User("alice")) == [Alice];
  }

  /** The events of A's registration of "alice". */
  lemma AliceAdmittedOut()
    ensures Admit(State([], [Conn(None, true), Conn(None, true)]), 0, "alice").out ==
            [Out(0, OkRegister("alice")), Out(0, Users([User("alice")]))]
  {
    var s := State([], [Conn(None, true), Conn(None, true)]);
    var cl := [Conn(Some("alice"), true), Conn(None, true)];
    var e := Users([User("alice")]);
    var r := Admit(s, 0, "alice");
    AliceAdmittedState();
    BroadcastIsUnique(r.out[1..], r.state.clients, UsersEvent(r.state.users));
    HeadTail(r.out, Out(0, OkRegister("alice")));
    assert UsersEvent([Alice]) == e by {
      assert Values([Alice]) == [User("alice")];
    }
    FanoutToFirst(e);
  }

  /** The handler's part of A's registration of "alice". */
  lemma AliceRegisterHandler()
    ensures OnRegister(State([], [Conn(None, true), Conn(None, true)]), 0, Some("alice")) ==
            Transition(State([Alice], [Conn(Some("alice"), true), Conn(None, true)]),
                       [Out(0, OkRegister("alice")), Out(0, Users([User("alice")]))])
  {
    var s := State([], [Conn(None, true), Conn(None, true)]);
    assert !NameTaken([], "alice");
    assert OnRegister(s, 0, Some("alice")) == Admit(s, 0, "alice");
    AliceAdmittedState();
    AliceAdmittedOut();
  }

  /** A registers "alice": A gets the confirmation and the list [alice]. */
  lemma SessionAliceRegisters(now: Timestamp)
    ensures Step(State([], [Conn(None, true), Conn(None, true)]), Received(0, Text(AliceMsg), now)) ==
            Transition(State([Alice], [Conn(Some("alice"), true), Conn(None, true)]),
                       [Out(0, OkRegister("alice")), Out(0, Users([User("alice")]))])
  {
    var s := State([], [Conn(None, true), Conn(None, true)]);
    assert Step(s, Received(0, Text(AliceMsg), now)) == OnRegister(s, 0, Some("alice")) by {
      assert Step(s, Received(0, Text(AliceMsg), now)) == Dispatch(s, 0, Text(AliceMsg), now);
    }
    AliceRegisterHandler();
  }

  /** B's attempt at "alice" is refused with "Name already exists". */
  lemma SessionNameTaken(now: Timestamp)
    ensures var s := State([Alice], [Conn(Some("alice"), true), Conn(None, true)]);
            Step(s, Received(1, Text(AliceMsg), now)) == Transition(s, [Out(1, Error(Some("register"), NameExists))])
  {
    assert Has([Alice], "alice");
  }

  /** With both connections bound and open, a broadcast reaches A then B. */
  lemma FanoutToBoth(e: Event)
    ensures Broadcast([Conn(Some("alice"), true), Conn(Some("bob"), true)], e) == [Out(0, e), Out(1, e)]
  {
    var cl := [Conn(Some("alice"), true), Conn(Some("bob"), true)];
    assert Fanout(cl, 2, e) == [];
    FanoutConsEligible(cl, 1, e);
    FanoutConsEligible(cl, 0, e);
  }

  /** "bob" is neither held nor inherited. */
  lemma BobNameFree()
    ensures !NameTaken([Alice], "bob")
  {
    assert !Has([Alice], "bob") by {
      assert [Alice][1..] == [];
    }
  }

  /** The registry and bindings after B's registration of "bob". */
  lemma BobAdmittedState()
    ensures Admit(State([Alice], [Conn(Some("alice"), true), Conn(None, true)]), 1, "bob").state ==
            State([Alice, Bob], [Conn(Some("alice"), true), Conn(Some("bob"), true)])
  {
    assert !Has([Alice], "bob") by {
      assert [Alice][1..] == [];
    }
    assert Put([Alice], "bob", User("bob")) == [Alice, Bob];
  }

  /** The events of B's registration of "bob". */
  lemma BobAdmittedOut()
    ensures Admit(State([Alice], [Conn(Some("alice"), true), Conn(None, true)]), 1, "bob").out ==
            [Out(1, OkRegister("bob")),
             Out(0, Users([User("alice"), User("bob")])),
             Out(1, Users([User("alice"), User("bob")]))]
  {
    var s := State([Alice], [Conn(Some("alice"), true), Conn(None, true)]);
    var cl := [Conn(Some("alice"), true), Conn(Some("bob"), true)];
    var e := Users([User("alice"), User("bob")]);
    var r := Admit(s, 1, "bob");
    BobAdmittedState();
    BroadcastIsUnique(r.out[1..], r.state.clients, UsersEvent(r.state.users));
    HeadTail(r.out, Out(1, OkRegister("bob")));
    assert UsersEvent([Alice, Bob]) == e by {
      assert Values([Alice, Bob]) == [User("alice"), User("bob")];
    }
    FanoutToBoth(e);
  }

  /** The handler's part of B's registration of "bob". */
  lemma BobRegisterHandler()
    ensures OnRegister(State([Alice], [Conn(Some("alice"), true), Conn(None, true)]), 1, Some("bob")) ==
            Transition(State([Alice, Bob], [Conn(Some("alice"), true), Conn(Some("bob"), true)]),
                       [Out(1, OkRegister("bob")),
                        Out(0, Users([User("alice"), User("bob")])),
                        Out(1, Users([User("alice"), User("bob")]))])
  {
    var s := State([Alice], [Conn(Some("alice"), true), Conn(None, true)]);
    BobNameFree();
    assert OnRegister(s, 1, Some("bob")) == Admit(s, 1, "bob");
    BobAdmittedState();
    BobAdmittedOut();
  }

  /** B registers "bob": B gets the confirmation, then both get [alice, bob]. */
  lemma SessionBobRegisters(now: Timestamp)
    ensures Step(State([Alice], [Conn(Some("alice"), true), Conn(None, true)]), Received(1, Text(BobMsg), now)) ==
            Transition(State([Alice, Bob], [Conn(Some("alice"), true), Conn(Some("bob"), true)]),
                       [Out(1, OkRegister("bob")),
                        Out(0, Users([User("alice"), User("bob")])),
                        Out(1, Users([User("alice"), User("bob")]))])
  {
    var s := State([Alice], [Conn(Some("alice"), true), Conn(None, true)]);
    assert Step(s, Received(1, Text(BobMsg), now)) == OnRegister(s, 1, Some("bob")) by {
      assert Step(s, Received(1, Text(BobMsg), now)) == Dispatch(s, 1, Text(BobMsg), now);
    }
    BobRegisterHandler();
  }

  /** A's message reaches both bound open connections, A included, with
      the server's timestamp and not the one the client put in the frame. */
  lemma SessionAliceSends(hello: Json, now: Timestamp, forged: Json)
    ensures var s := State([Alice, Bob], [Conn(Some("alice"), true), Conn(Some("bob"), true)]);
            Step(s, Received(0, Text(Msg(Some("send"), None, Some(hello), Some(forged))), now)) ==
            Transition(s, [Out(0, Message("alice", Some(hello), now)), Out(1, Message("alice", Some(hello), now))])
  {
    assert Has([Alice, Bob], "alice");
    FanoutToBoth(Message("alice", Some(hello), now));
  }
}
