/** The consistency the relay keeps between its registry and its
    connections, and the transitions that keep it. */
module Invariants {
  import opened Wrappers
  import opened Protocol
  import opened Registry
  import opened Server

  /** Some open connection is bound to `k`. */
  predicate Owned(clients: seq<Conn>, k: string)
  {
    exists c :: 0 <= c < |clients| && clients[c].open && clients[c].userName == Some(k)
  }

  /** Bound names are never empty. */
  predicate NamesNonEmpty(clients: seq<Conn>)
  {
    forall c :: 0 <= c < |clients| && clients[c].userName.Some? ==> clients[c].userName.value != ""
  }

  /** Every open bound connection's name is a registry key. */
  predicate BoundAreKeys(s: State)
  {
    forall c :: 0 <= c < |s.clients| && s.clients[c].open && s.clients[c].userName.Some? ==>
      Has(s.users, s.clients[c].userName.value)
  }

  /** Every registry key is claimed by some open connection. */
  ghost predicate KeysAreOwned(s: State)
  {
    forall k :: Has(s.users, k) ==> Owned(s.clients, k)
  }

  /** No two open connections are bound to the same name. */
  predicate UniqueOwners(clients: seq<Conn>)
  {
    forall c, d :: 0 <= c < d < |clients| && clients[c].open && clients[d].open && clients[c].userName.Some? ==>
      clients[c].userName != clients[d].userName
  }

  /** The registry is well formed, bound names are non-empty, and a name
      is a registry key exactly when one open connection is bound to it. */
  ghost predicate Inv(s: State)
  {
    && WellFormed(s.users)
    && NamesNonEmpty(s.clients)
    && BoundAreKeys(s)
    && KeysAreOwned(s)
    && UniqueOwners(s.clients)
  }

  /** The one input after which the invariant can fail: a close or error
      signal for a connection that is already closed while its stale name
      has been registered again by someone else. */
  predicate Hazard(s: State, input: Input)
  {
    && (input.Closed? || input.Failed?)
    && input.c < |s.clients|
    && !s.clients[input.c].open
    && Registered(s, input.c)
  }

  lemma InitInv()
    ensures Inv(Init)
  {
  }

  /** Binding an anonymous open connection to a fresh name that is added
      to the registry keeps the invariant. */
  lemma BindFreshKeepsInv(s: State, c: ConnId, n: string)
    requires Inv(s) && c < |s.clients| && s.clients[c].open && !Truthy(s.clients[c].userName)
    requires n != "" && !Has(s.users, n)
    ensures Inv(State(s.users + [Entry(n, User(n))], s.clients[c := Conn(Some(n), true)]))
  {
    var r := State(s.users + [Entry(n, User(n))], s.clients[c := Conn(Some(n), true)]);
    assert s.clients[c].userName.None?;
    AppendFresh(s.users, n);
    assert BoundAreKeys(r) by {
      forall d | 0 <= d < |r.clients| && r.clients[d].open && r.clients[d].userName.Some?
        ensures Has(r.users, r.clients[d].userName.value)
      {
        if d != c {
          assert r.clients[d] == s.clients[d];
        }
      }
    }
    assert KeysAreOwned(r) by {
      forall k | Has(r.users, k)
        ensures Owned(r.clients, k)
      {
        if k == n {
          assert r.clients[c].open && r.clients[c].userName == Some(k);
        } else {
          assert Owned(s.clients, k);
          var d :| 0 <= d < |s.clients| && s.clients[d].open && s.clients[d].userName == Some(k);
          assert r.clients[d] == s.clients[d];
        }
      }
    }
    assert UniqueOwners(r.clients) by {
      forall d, e | 0 <= d < e < |r.clients| && r.clients[d].open && r.clients[e].open && r.clients[d].userName.Some?
        ensures r.clients[d].userName != r.clients[e].userName
      {
        if d == c {
          assert r.clients[e] == s.clients[e];
        } else if e == c {
          assert r.clients[d] == s.clients[d];
        } else {
          assert r.clients[d] == s.clients[d] && r.clients[e] == s.clients[e];
        }
      }
    }
  }

  lemma RegisterKeepsInv(s: State, c: ConnId, name: Option<string>)
    requires Inv(s) && c < |s.clients| && s.clients[c].open
    ensures Inv(OnRegister(s, c, name).state)
  {
    if RegisterAccepted(s, c, name) {
      BindFreshKeepsInv(s, c, name.value);
    }
  }

  lemma ExitKeepsInv(s: State, c: ConnId)
    requires Inv(s) && c < |s.clients| && s.clients[c].open
    ensures Inv(OnExit(s, c).state)
  {
    if Registered(s, c) {
      var n := s.clients[c].userName.value;
      var r := OnExit(s, c).state;
      DeleteWellFormed(s.users, n);
      forall k | Has(r.users, k)
        ensures Owned(r.clients, k)
      {
        assert Owned(s.clients, k);
        var d :| 0 <= d < |s.clients| && s.clients[d].open && s.clients[d].userName == Some(k);
        assert d != c;
        assert r.clients[d] == s.clients[d];
      }
    }
  }

  lemma DisconnectKeepsInv(s: State, c: ConnId)
    requires Inv(s) && c < |s.clients|
    requires !Hazard(s, Closed(c))
    ensures Inv(Disconnect(s, c).state)
  {
    var m := MarkClosed(s, c);
    var r := Disconnect(s, c).state;
    if s.clients[c].open {
      if Registered(m, c) {
        var n := s.clients[c].userName.value;
        DeleteWellFormed(s.users, n);
        forall k | Has(r.users, k)
          ensures Owned(r.clients, k)
        {
          assert Owned(s.clients, k);
          var d :| 0 <= d < |s.clients| && s.clients[d].open && s.clients[d].userName == Some(k);
          assert d != c;
          assert r.clients[d] == s.clients[d];
        }
      } else {
        assert r == m;
        assert s.clients[c].userName.None?;
        forall k | Has(r.users, k)
          ensures Owned(r.clients, k)
        {
          assert Owned(s.clients, k);
          var d :| 0 <= d < |s.clients| && s.clients[d].open && s.clients[d].userName == Some(k);
          assert r.clients[d] == s.clients[d];
        }
      }
    } else {
      assert !Registered(m, c);
      assert m.clients == s.clients;
    }
  }

  /** Every transition except a hazardous disconnect keeps the invariant. */
  lemma StepKeepsInv(s: State, input: Input)
    requires Inv(s) && !Hazard(s, input)
    ensures Inv(Step(s, input).state)
  {
    match input
    case Opened =>
      var r := Step(s, input).state;
      forall k | Has(r.users, k)
        ensures Owned(r.clients, k)
      {
        var d :| 0 <= d < |s.clients| && s.clients[d].open && s.clients[d].userName == Some(k);
        assert r.clients[d] == s.clients[d];
      }
    case Received(c, frame, now) =>
      if c < |s.clients| && s.clients[c].open && frame.Text? {
        if frame.msg.typ == Some("register") {
          RegisterKeepsInv(s, c, frame.msg.name);
        } else if frame.msg.typ == Some("exit") {
          ExitKeepsInv(s, c);
        }
      }
    case Closed(c) =>
      if c < |s.clients| {
        DisconnectKeepsInv(s, c);
      }
    case Failed(c) =>
      if c < |s.clients| {
        DisconnectKeepsInv(s, c);
      }
  }

  /** Inputs whose disconnects are never hazardous, judged state by state. */
  predicate Safe(s: State, inputs: seq<Input>)
    decreases |inputs|
  {
    inputs == [] || (!Hazard(s, inputs[0]) && Safe(Step(s, inputs[0]).state, inputs[1..]))
  }

  /** From an invariant state, a run without hazardous disconnects ends
      in an invariant state. */
  lemma {:induction false} RunKeepsInv(s: State, inputs: seq<Input>)
    requires Inv(s) && Safe(s, inputs)
    ensures Inv(Run(s, inputs).state)
    decreases |inputs|
  {
    if inputs != [] {
      StepKeepsInv(s, inputs[0]);
      RunKeepsInv(Step(s, inputs[0]).state, inputs[1..]);
    }
  }

  /** Whatever arrives, hazardous disconnects included, the registry stays
      well formed: keys distinct and non-empty, each naming its own record. */
  lemma StepKeepsWellFormed(s: State, input: Input)
    requires WellFormed(s.users)
    ensures WellFormed(Step(s, input).state.users)
  {
    match input
    case Opened =>
    case Received(c, frame, now) =>
      if c < |s.clients| && s.clients[c].open && frame.Text? {
        if frame.msg.typ == Some("register") && RegisterAccepted(s, c, frame.msg.name) {
          AppendFresh(s.users, frame.msg.name.value);
        } else if frame.msg.typ == Some("exit") && Registered(s, c) {
          DeleteWellFormed(s.users, s.clients[c].userName.value);
        }
      }
    case Closed(c) =>
      if c < |s.clients| && Registered(MarkClosed(s, c), c) {
        DeleteWellFormed(s.users, s.clients[c].userName.value);
      }
    case Failed(c) =>
      if c < |s.clients| && Registered(MarkClosed(s, c), c) {
        DeleteWellFormed(s.users, s.clients[c].userName.value);
      }
  }

  /** Every run from a well-formed registry keeps it well formed. */
  lemma {:induction false} RunKeepsWellFormed(s: State, inputs: seq<Input>)
    requires WellFormed(s.users)
    ensures WellFormed(Run(s, inputs).state.users)
    decreases |inputs|
  {
    if inputs != [] {
      StepKeepsWellFormed(s, inputs[0]);
      RunKeepsWellFormed(Step(s, inputs[0]).state, inputs[1..]);
    }
  }

  /** No connection, open or closed, is bound to a name inherited from
      `Object.prototype`. */
  predicate NoInheritedBinding(clients: seq<Conn>)
  {
    forall c :: 0 <= c < |clients| && clients[c].userName.Some? ==> clients[c].userName.value !in InheritedNames
  }

  /** Register binds only names it found untaken, so no input ever binds
      an inherited name. */
  lemma StepKeepsNoInheritedBinding(s: State, input: Input)
    requires NoInheritedBinding(s.clients)
    ensures NoInheritedBinding(Step(s, input).state.clients)
  {
    match input
    case Opened =>
      var r := Step(s, input).state.clients;
      assert forall d :: 0 <= d < |s.clients| ==> r[d] == s.clients[d];
    case Received(c, frame, now) =>
      if c < |s.clients| && s.clients[c].open && frame.Text? && frame.msg.typ == Some("register") {
        var r := Step(s, input).state.clients;
        if RegisterAccepted(s, c, frame.msg.name) {
          assert r == s.clients[c := Conn(Some(frame.msg.name.value), true)];
        }
      }
    case Closed(c) =>
    case Failed(c) =>
  }

  /** Every run from a state without inherited bindings has none. */
  lemma {:induction false} RunKeepsNoInheritedBinding(s: State, inputs: seq<Input>)
    requires NoInheritedBinding(s.clients)
    ensures NoInheritedBinding(Run(s, inputs).state.clients)
    decreases |inputs|
  {
    if inputs != [] {
      StepKeepsNoInheritedBinding(s, inputs[0]);
      RunKeepsNoInheritedBinding(Step(s, inputs[0]).state, inputs[1..]);
    }
  }

  /** Without inherited bindings, the own-key test `Registered` agrees
      with the `users[ws.userName]` test of exit, send and disconnect,
      which also reads inherited names. */
  lemma RegisteredIsAsWritten(s: State, c: ConnId)
    requires NoInheritedBinding(s.clients) && c < |s.clients|
    ensures Registered(s, c) <==>
            Truthy(s.clients[c].userName) && NameTaken(s.users, s.clients[c].userName.value)
  {
  }
}
