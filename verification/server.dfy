/** The presence-and-broadcast state machine of `server.js`: the handlers
    for register, exit and send, the frame dispatcher, the disconnect
    cleanup and the broadcast rule, as pure transitions from one server
    state to the next plus the events they push. */
module Server {
  import opened Wrappers
  import opened Protocol
  import opened Registry

  /** What the server knows of one connection: `ws.userName` (absent while
      anonymous) and whether its transport is OPEN. The two are kept apart
      because disconnect cleanup closes a connection without clearing its
      name. */
  datatype Conn = Conn(userName: Option<string>, open: bool)

  /** The `users` registry and the server's client list in connection
      order; a connection's id is its position in that list. Connections
      are never removed, only closed. */
  datatype State = State(users: Users, clients: seq<Conn>)

  /** A new state and the events pushed while reaching it, in push order. */
  datatype Transition = Transition(state: State, out: seq<Out>)

  const Init: State := State([], [])

  /** JavaScript truthiness of an optional string. */
  predicate Truthy(s: Option<string>)
  {
    s.Some? && s.value != ""
  }

  /** A connection receives broadcasts when it has a truthy name and is open. */
  predicate Eligible(conn: Conn)
  {
    Truthy(conn.userName) && conn.open
  }

  /** Reference definition of a broadcast of `e` over the clients from
      position `from` onwards: every event pushed is `e` and goes to an
      eligible connection among them, every eligible one gets it, and
      recipients come in client-list order, each exactly once. */
  predicate IsBroadcastFrom(out: seq<Out>, clients: seq<Conn>, from: nat, e: Event)
  {
    && (forall i :: 0 <= i < |out| ==> out[i].event == e && from <= out[i].to < |clients| && Eligible(clients[out[i].to]))
    && (forall c :: from <= c < |clients| && Eligible(clients[c]) ==> Out(c, e) in out)
    && (forall i, j :: 0 <= i < j < |out| ==> out[i].to < out[j].to)
  }

  /** A broadcast of `e` to the whole client list. */
  predicate IsBroadcast(out: seq<Out>, clients: seq<Conn>, e: Event)
  {
    IsBroadcastFrom(out, clients, 0, e)
  }

  /** The broadcast loop over clients `from` onwards. */
  function Fanout(clients: seq<Conn>, from: nat, e: Event): (r: seq<Out>)
    requires from <= |clients|
    ensures IsBroadcastFrom(r, clients, from, e)
    decreases |clients| - from
  {
    if from == |clients| then []
    else (if Eligible(clients[from]) then [Out(from, e)] else []) + Fanout(clients, from + 1, e)
  }

  /** `broadcastData`: serialize once, push to every eligible connection. */
  function Broadcast(clients: seq<Conn>, e: Event): (r: seq<Out>)
    ensures IsBroadcast(r, clients, e)
  {
    Fanout(clients, 0, e)
  }

  /** If the first client is eligible, it is the first recipient and the
      rest is a broadcast over the later clients. */
  lemma FanoutFirstEligible(out: seq<Out>, clients: seq<Conn>, from: nat, e: Event)
    requires from < |clients| && Eligible(clients[from])
    requires IsBroadcastFrom(out, clients, from, e)
    ensures out != [] && out[0] == Out(from, e)
    ensures IsBroadcastFrom(out[1..], clients, from + 1, e)
  {
    var k :| 0 <= k < |out| && out[k] == Out(from, e);
    assert out[0].to <= out[k].to;
    var tail := out[1..];
    forall c | from + 1 <= c < |clients| && Eligible(clients[c])
      ensures Out(c, e) in tail
    {
      var j :| 0 <= j < |out| && out[j] == Out(c, e);
      assert tail[j - 1] == out[j];
    }
    forall i | 0 <= i < |tail|
      ensures from + 1 <= tail[i].to
    {
      assert tail[i] == out[i + 1];
      assert out[0].to < out[i + 1].to;
    }
  }

  /** If the first client is not eligible, nothing goes to it. */
  lemma FanoutFirstSkipped(out: seq<Out>, clients: seq<Conn>, from: nat, e: Event)
    requires from < |clients| && !Eligible(clients[from])
    requires IsBroadcastFrom(out, clients, from, e)
    ensures IsBroadcastFrom(out, clients, from + 1, e)
  {
    forall i | 0 <= i < |out|
      ensures from + 1 <= out[i].to
    {
      assert out[i].to != from;
    }
  }

  /** One turn of the broadcast loop: an eligible client gets the first push. */
  lemma FanoutConsEligible(clients: seq<Conn>, from: nat, e: Event)
    requires from < |clients| && Eligible(clients[from])
    ensures Fanout(clients, from, e) == [Out(from, e)] + Fanout(clients, from + 1, e)
  {
  }

  /** The loop skips a connection that is anonymous or not open. */
  lemma FanoutConsSkipped(clients: seq<Conn>, from: nat, e: Event)
    requires from < |clients| && !Eligible(clients[from])
    ensures Fanout(clients, from, e) == Fanout(clients, from + 1, e)
  {
  }

  /** A sequence without members is empty, and conversely. */
  lemma NoMemberMeansEmpty(out: seq<Out>)
    ensures (forall o :: o !in out) <==> out == []
  {
    if out != [] {
      assert out[0] in out;
    }
  }

  /** A sequence is its first element followed by the rest. */
  lemma HeadTail(out: seq<Out>, first: Out)
    requires out != [] && out[0] == first
    ensures out == [first] + out[1..]
  {
  }

  /** The broadcast loop over clients `from` onwards is the only sequence
      of pushes that is a broadcast over those clients. */
  lemma {:induction false} FanoutUnique(out: seq<Out>, clients: seq<Conn>, from: nat, e: Event)
    requires from <= |clients|
    requires IsBroadcastFrom(out, clients, from, e)
    ensures out == Fanout(clients, from, e)
    decreases |clients| - from
  {
    if from == |clients| {
      assert out == [] by {
        assert forall o :: o in out ==> from <= o.to < |clients|;
        assert forall o :: o !in out;
        NoMemberMeansEmpty(out);
      }
    } else if Eligible(clients[from]) {
      FanoutFirstEligible(out, clients, from, e);
      FanoutUnique(out[1..], clients, from + 1, e);
      FanoutConsEligible(clients, from, e);
      HeadTail(out, Out(from, e));
    } else {
      FanoutFirstSkipped(out, clients, from, e);
      FanoutUnique(out, clients, from + 1, e);
    }
  }

  /** `IsBroadcast` pins a broadcast down completely: `broadcastData` is
      the only sequence of pushes that meets it. */
  lemma BroadcastIsUnique(out: seq<Out>, clients: seq<Conn>, e: Event)
    requires IsBroadcast(out, clients, e)
    ensures out == Broadcast(clients, e)
  {
    FanoutUnique(out, clients, 0, e);
  }

  /** The `users` event carrying the registry snapshot. */
  function UsersEvent(users: Users): Event
  {
    Users(Values(users))
  }

  /** The connection is bound to a name that is still a registry key: the
      guard of exit, send and disconnect. */
  predicate Registered(s: State, c: ConnId)
    requires c < |s.clients|
  {
    Truthy(s.clients[c].userName) && Has(s.users, s.clients[c].userName.value)
  }

  /** A refused command: the state is untouched and the only event is one
      error reply, to the sender, naming the command and the reason. */
  predicate Refused(r: Transition, s: State, c: ConnId, command: string, reason: Reason)
  {
    r.state == s && r.out == [Out(c, Error(Some(command), reason))]
  }

  /** Property names every plain JavaScript object inherits from
      `Object.prototype`; reading any of them from `users` yields a truthy
      value even though no user holds that name. */
  const InheritedNames: set<string> := {
    "constructor", "__proto__", "hasOwnProperty", "isPrototypeOf",
    "propertyIsEnumerable", "toLocaleString", "toString", "valueOf",
    "__defineGetter__", "__defineSetter__", "__lookupGetter__", "__lookupSetter__"
  }

  /** The test `users[name]` is truthy: the name is an own key of the
      registry or one inherited from `Object.prototype`. */
  predicate NameTaken(users: Users, n: string)
  {
    Has(users, n) || n in InheritedNames
  }

  /** The name a register succeeds with: the connection is anonymous and
      the name is non-empty and not taken. */
  predicate RegisterAccepted(s: State, c: ConnId, name: Option<string>)
    requires c < |s.clients|
  {
    !Truthy(s.clients[c].userName) && Truthy(name) && !NameTaken(s.users, name.value)
  }

  /** The success path of register for a name the registry lacks: store
      `{name}`, bind the connection, confirm to it, broadcast the list. */
  function Admit(s: State, c: ConnId, n: string): (r: Transition)
    requires c < |s.clients| && n != "" && !Has(s.users, n)
    ensures r.state.users == s.users + [Entry(n, User(n))]
    ensures r.state.clients == s.clients[c := Conn(Some(n), s.clients[c].open)]
    ensures |r.out| >= 1 && r.out[0] == Out(c, OkRegister(n))
    ensures IsBroadcast(r.out[1..], r.state.clients, UsersEvent(r.state.users))
    ensures s.clients[c].open ==> Out(c, UsersEvent(r.state.users)) in r.out[1..]
  {
    var users' := Put(s.users, n, User(n));
    var clients' := s.clients[c := s.clients[c].(userName := Some(n))];
    var out := [Out(c, OkRegister(n))] + Broadcast(clients', UsersEvent(users'));
    assert out[1..] == Broadcast(clients', UsersEvent(users'));
    Transition(State(users', clients'), out)
  }

  /** `onRegister`. */
  function OnRegister(s: State, c: ConnId, name: Option<string>): (r: Transition)
    requires c < |s.clients|
    ensures Truthy(s.clients[c].userName) ==> Refused(r, s, c, "register", AlreadyRegistered)
    ensures !Truthy(s.clients[c].userName) && !Truthy(name) ==> Refused(r, s, c, "register", NameEmpty)
    ensures !Truthy(s.clients[c].userName) && Truthy(name) && NameTaken(s.users, name.value) ==>
              Refused(r, s, c, "register", NameExists)
    ensures RegisterAccepted(s, c, name) ==>
              var n := name.value;
              && r.state.users == s.users + [Entry(n, User(n))]
              && r.state.clients == s.clients[c := Conn(Some(n), s.clients[c].open)]
              && |r.out| >= 1 && r.out[0] == Out(c, OkRegister(n))
              && IsBroadcast(r.out[1..], r.state.clients, UsersEvent(r.state.users))
              && (s.clients[c].open ==> Out(c, UsersEvent(r.state.users)) in r.out[1..])
  {
    if Truthy(s.clients[c].userName) then
      Transition(s, [Out(c, Error(Some("register"), AlreadyRegistered))])
    else if !Truthy(name) then
      Transition(s, [Out(c, Error(Some("register"), NameEmpty))])
    else if NameTaken(s.users, name.value) then
      Transition(s, [Out(c, Error(Some("register"), NameExists))])
    else
      Admit(s, c, name.value)
  }

  /** `onExit`. */
  function OnExit(s: State, c: ConnId): (r: Transition)
    requires c < |s.clients|
    ensures !Registered(s, c) ==> Refused(r, s, c, "exit", NotRegistered)
    ensures Registered(s, c) ==>
              var n := s.clients[c].userName.value;
              && r.state.users == Delete(s.users, n)
              && (forall x :: Has(r.state.users, x) <==> Has(s.users, x) && x != n)
              && r.state.clients == s.clients[c := Conn(None, s.clients[c].open)]
              && |r.out| >= 1 && r.out[0] == Out(c, OkExit)
              && IsBroadcast(r.out[1..], r.state.clients, UsersEvent(r.state.users))
              && (forall i :: 1 <= i < |r.out| ==> r.out[i].to != c)
  {
    var conn := s.clients[c];
    if !Truthy(conn.userName) || !Has(s.users, conn.userName.value) then
      Transition(s, [Out(c, Error(Some("exit"), NotRegistered))])
    else
      var users' := Delete(s.users, conn.userName.value);
      var clients' := s.clients[c := conn.(userName := None)];
      var out := [Out(c, OkExit)] + Broadcast(clients', UsersEvent(users'));
      assert out[1..] == Broadcast(clients', UsersEvent(users'));
      Transition(State(users', clients'), out)
  }

  /** `onSend`: `now` is the server clock reading that stamps the message. */
  function OnSend(s: State, c: ConnId, data: Option<Json>, now: Timestamp): (r: Transition)
    requires c < |s.clients|
    ensures r.state == s
    ensures !Registered(s, c) ==> r.out == [Out(c, Error(Some("send"), NotRegistered))]
    ensures Registered(s, c) ==>
              var e := Message(s.clients[c].userName.value, data, now);
              && IsBroadcast(r.out, s.clients, e)
              && (s.clients[c].open ==> Out(c, e) in r.out)
  {
    var conn := s.clients[c];
    if !Truthy(conn.userName) || !Has(s.users, conn.userName.value) then
      Transition(s, [Out(c, Error(Some("send"), NotRegistered))])
    else
      Transition(s, Broadcast(s.clients, Message(conn.userName.value, data, now)))
  }

  /** A direct reply, as opposed to a broadcast. */
  predicate IsReply(e: Event)
  {
    e.OkRegister? || e.OkExit? || e.Error?
  }

  /** `onClientMessage`: binary frames are dropped; text frames are routed
      on their `type`. */
  function Dispatch(s: State, c: ConnId, frame: Frame, now: Timestamp): (r: Transition)
    requires c < |s.clients|
    ensures frame.Binary? ==> r == Transition(s, [])
    ensures frame.Text? && frame.msg.typ !in {Some("register"), Some("exit"), Some("send")} ==>
              r == Transition(s, [Out(c, Error(frame.msg.typ, InvalidCommand))])
    ensures frame.Text? && frame.msg.typ == Some("send") ==> r.state == s
    ensures forall i :: 0 <= i < |r.out| && IsReply(r.out[i].event) ==> i == 0 && r.out[i].to == c
  {
    match frame
    case Binary => Transition(s, [])
    case Text(msg) =>
      if msg.typ == Some("register") then OnRegister(s, c, msg.name)
      else if msg.typ == Some("exit") then OnExit(s, c)
      else if msg.typ == Some("send") then OnSend(s, c, msg.data, now)
      else Transition(s, [Out(c, Error(msg.typ, InvalidCommand))])
  }

  /** `onDisconnect`, run after the transport has marked the connection
      not open. It deletes the registry entry of a still-registered name
      and tells the others; it leaves `ws.userName` in place. */
  function OnDisconnect(s: State, c: ConnId): (r: Transition)
    requires c < |s.clients|
    ensures r.state.clients == s.clients
    ensures !Registered(s, c) ==> r == Transition(s, [])
    ensures Registered(s, c) ==>
              var n := s.clients[c].userName.value;
              && (forall x :: Has(r.state.users, x) <==> Has(s.users, x) && x != n)
              && r.state.users == Delete(s.users, n)
              && IsBroadcast(r.out, s.clients, UsersEvent(r.state.users))
  {
    var conn := s.clients[c];
    if !Truthy(conn.userName) || !Has(s.users, conn.userName.value) then
      Transition(s, [])
    else
      var users' := Delete(s.users, conn.userName.value);
      Transition(State(users', s.clients), Broadcast(s.clients, UsersEvent(users')))
  }

  /** What the transport delivers: a new connection, a frame on a
      connection (with the clock reading at that moment), or the close or
      error signal of a connection. */
  datatype Input =
    | Opened
    | Received(c: ConnId, frame: Frame, now: Timestamp)
    | Closed(c: ConnId)
    | Failed(c: ConnId)

  /** The transport takes the connection out of the OPEN state. */
  function MarkClosed(s: State, c: ConnId): (r: State)
    requires c < |s.clients|
    ensures r.users == s.users && |r.clients| == |s.clients|
    ensures !r.clients[c].open && r.clients[c].userName == s.clients[c].userName
    ensures forall d :: 0 <= d < |s.clients| && d != c ==> r.clients[d] == s.clients[d]
  {
    s.(clients := s.clients[c := s.clients[c].(open := false)])
  }

  /** Close and error are handled alike: the connection stops being open
      and the disconnect cleanup runs. */
  function Disconnect(s: State, c: ConnId): (r: Transition)
    ensures c >= |s.clients| ==> r == Transition(s, [])
    ensures c < |s.clients| ==>
              && |r.state.clients| == |s.clients|
              && r.state.clients[c] == Conn(s.clients[c].userName, false)
              && (forall d :: 0 <= d < |s.clients| && d != c ==> r.state.clients[d] == s.clients[d])
    ensures c < |s.clients| && !Registered(s, c) ==> r.state.users == s.users && r.out == []
    ensures c < |s.clients| && Registered(s, c) ==>
              var n := s.clients[c].userName.value;
              && (forall x :: Has(r.state.users, x) <==> Has(s.users, x) && x != n)
              && IsBroadcast(r.out, r.state.clients, UsersEvent(r.state.users))
              && (forall i :: 0 <= i < |r.out| ==> r.out[i].to != c)
  {
    if c < |s.clients| then OnDisconnect(MarkClosed(s, c), c) else Transition(s, [])
  }

  /** One transport input. Inputs the transport never produces (a frame on
      a connection that is not open, an unknown connection) change nothing. */
  function Step(s: State, input: Input): (r: Transition)
    ensures |r.state.clients| == |s.clients| + (if input.Opened? then 1 else 0)
    ensures forall d :: 0 <= d < |s.clients| && !s.clients[d].open ==> !r.state.clients[d].open
    ensures input.Opened? ==> r.state.clients[|s.clients|] == Conn(None, true) && r.out == []
  {
    match input
    case Opened => Transition(s.(clients := s.clients + [Conn(None, true)]), [])
    case Received(c, frame, now) =>
      if c < |s.clients| && s.clients[c].open then Dispatch(s, c, frame, now) else Transition(s, [])
    case Closed(c) => Disconnect(s, c)
    case Failed(c) => Disconnect(s, c)
  }

  /** A sequence of inputs, with every event pushed along the way. */
  function Run(s: State, inputs: seq<Input>): Transition
    decreases |inputs|
  {
    if inputs == [] then Transition(s, [])
    else
      var t := Step(s, inputs[0]);
      var rest := Run(t.state, inputs[1..]);
      Transition(rest.state, t.out + rest.out)
  }
}
